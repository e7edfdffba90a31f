/** The policy document the agent writes for the core's dispatcher (internal/limits/policyfile.go): one entry per managed
    identity, and blocked tombstones for identities that disappeared.  Times are whole seconds. */
module PolicyFile {
  import opened Model
  import opened Text
  import opened Order
  import opened Accounting

  datatype CorePolicy = CorePolicy(
    uploadBps: int, downloadBps: int, connectionLimit: int, ipLimit: int, blocked: bool, tombstoneUntil: int,
    sessionGeneration: int)

  datatype CorePolicyFile = CorePolicyFile(version: int, generatedAt: nat, mode: string, users: map<string, CorePolicy>)

  const REMOVED_USER_TOMBSTONE: nat := 300

  function PolicyOf(input: ManagedInbound, u: ManagedUser): CorePolicy
  {
    var ipLimit := if ToLower(input.ipLimitMode) == "off" then 0 else u.limits.ipLimit;
    CorePolicy(u.limits.uploadBps, u.limits.downloadBps, u.limits.connectionLimit, ipLimit, !u.enabled, 0, u.sessionGeneration)
  }

  /** The entries after the first `n` users of an inbound; a later user with the same email wins. */
  function WithUsers(users: map<string, CorePolicy>, input: ManagedInbound, n: nat): map<string, CorePolicy>
    requires n <= |input.users|
  {
    if n == 0 then users else
    var u := input.users[n - 1];
    WithUsers(users, input, n - 1)[AccountingEmail(u.id, input.id) := PolicyOf(input, u)]
  }

  function UserPolicies(inbounds: seq<ManagedInbound>, n: nat): map<string, CorePolicy>
    requires n <= |inbounds|
  {
    if n == 0 then map[] else WithUsers(UserPolicies(inbounds, n - 1), inbounds[n - 1], |inbounds[n - 1].users|)
  }

  function Current(state: DesiredState): map<string, CorePolicy>
  {
    UserPolicies(state.inbounds, |state.inbounds|)
  }

  /** What becomes of an entry of the previous document whose identity is gone. */
  function Tombstone(p: CorePolicy, now: nat): CorePolicy
  {
    CorePolicy(0, 0, 0, 0, true, if p.tombstoneUntil == 0 then now + REMOVED_USER_TOMBSTONE else p.tombstoneUntil, p.sessionGeneration)
  }

  predicate Buried(e: string, current: map<string, CorePolicy>, prior: map<string, CorePolicy>, now: nat)
  {
    e !in current && e in prior && Tombstone(prior[e], now).tombstoneUntil > now
  }

  /** A file that is missing, unreadable or of another version contributes nothing. */
  function OldUsers(file: Option<CorePolicyFile>): map<string, CorePolicy>
  {
    if file.Some? && file.value.version == 1 then file.value.users else map[]
  }

  function Merged(current: map<string, CorePolicy>, prior: map<string, CorePolicy>, now: nat): map<string, CorePolicy>
  {
    map e | e in current.Keys + prior.Keys && (e in current || Buried(e, current, prior, now)) ::
      if e in current then current[e] else Tombstone(prior[e], now)
  }

  function Written(file: Option<CorePolicyFile>, state: DesiredState, now: nat): CorePolicyFile
  {
    CorePolicyFile(1, now, if state.mode == "" then "active" else state.mode, Merged(Current(state), OldUsers(file), now))
  }

  predicate Strict(p: CorePolicy, now: nat)
  {
    && !(p.tombstoneUntil > 0 && p.tombstoneUntil <= now)
    && (p.blocked || p.uploadBps > 0 || p.downloadBps > 0 || p.connectionLimit > 0 || p.ipLimit > 0)
  }

  class PolicyStore {
    var file: Option<CorePolicyFile>

    constructor (file: Option<CorePolicyFile>)
      ensures this.file == file
    {
      this.file := file;
    }

    /** The new document replaces the old one in one rename, or nothing changes. */
    method WriteCorePolicy(state: DesiredState, now: nat, written: bool) returns (ok: bool)
      modifies this
      ensures ok == written
      ensures file == if written then Some(Written(old(file), state, now)) else old(file)
    {
      var mode := if state.mode == "" then "active" else state.mode;
      var users: map<string, CorePolicy> := map[];
      for i := 0 to |state.inbounds|
        invariant users == UserPolicies(state.inbounds, i)
      {
        var input := state.inbounds[i];
        ghost var before := users;
        for j := 0 to |input.users|
          invariant users == WithUsers(before, input, j)
        {
          var u := input.users[j];
          users := users[AccountingEmail(u.id, input.id) := PolicyOf(input, u)];
        }
      }
      if file.Some? && file.value.version == 1 {
        users := MergeTombstones(users, file.value.users, now);
      } else {
        assert Merged(users, map[], now) == users;
      }
      ok := written;
      if written {
        file := Some(CorePolicyFile(1, now, mode, users));
      }
    }
  }

  /** The merge when the entries in `todo` have not been looked at. */
  ghost predicate MergedUpTo(users: map<string, CorePolicy>, current: map<string, CorePolicy>, prior: map<string, CorePolicy>,
                             todo: set<string>, now: nat)
  {
    && (forall e :: e in users <==> e in current || (e !in todo && Buried(e, current, prior, now)))
    && (forall e :: e in users ==> users[e] == if e in current then current[e] else Tombstone(prior[e], now))
  }

  method MergeTombstones(current: map<string, CorePolicy>, prior: map<string, CorePolicy>, now: nat)
    returns (users: map<string, CorePolicy>)
    ensures users == Merged(current, prior, now)
  {
    users := current;
    var todo := prior.Keys;
    while todo != {}
      invariant todo <= prior.Keys && MergedUpTo(users, current, prior, todo, now)
      decreases |todo|
    {
      var e :| e in todo;
      if e !in users {
        var p := prior[e];
        if p.tombstoneUntil == 0 {
          p := p.(tombstoneUntil := now + REMOVED_USER_TOMBSTONE);
        }
        if p.tombstoneUntil > now {
          p := p.(blocked := true, uploadBps := 0, downloadBps := 0, connectionLimit := 0, ipLimit := 0);
          assert p == Tombstone(prior[e], now);
          users := users[e := p];
        }
      }
      todo := todo - {e};
    }
  }

  /** The identities whose policy needs the patched core: live entries that are blocked or limited, each once, sorted. */
  method StrictPolicyEmails(file: Option<CorePolicyFile>, now: nat) returns (emails: seq<string>)
    ensures Sorted(StrLess, emails) && NoRepeat(emails)
    ensures forall e :: e in emails <==> e in OldUsers(file) && Strict(OldUsers(file)[e], now)
  {
    if file.None? || file.value.version != 1 {
      return [];
    }
    var users := file.value.users;
    var out: seq<string> := [];
    var todo := users.Keys;
    while todo != {}
      invariant todo <= users.Keys && NoRepeat(out)
      invariant forall e :: e in out <==> e in users && e !in todo && Strict(users[e], now)
      decreases |todo|
    {
      var e :| e in todo;
      if Strict(users[e], now) {
        out := out + [e];
      }
      todo := todo - {e};
    }
    emails := Sort(StrLess, out);
    SortedEmails(out);
  }

  lemma SortedEmails(out: seq<string>)
    requires NoRepeat(out)
    ensures Sorted(StrLess, Sort(StrLess, out)) && NoRepeat(Sort(StrLess, out))
    ensures forall e :: e in Sort(StrLess, out) <==> e in out
  {
    StrLessOrder();
    SortSorts(StrLess, out);
    SameElements(Sort(StrLess, out), out);
    PermutationNoRepeat(out, Sort(StrLess, out));
  }

  /* ---------- Tombstones over runs ---------- */

  datatype Write = Write(state: DesiredState, now: nat)

  /** The document after the first `n` writes. */
  function DocumentAfter(file: Option<CorePolicyFile>, writes: seq<Write>, n: nat): Option<CorePolicyFile>
    requires n <= |writes|
  {
    if n == 0 then file else Some(Written(DocumentAfter(file, writes, n - 1), writes[n - 1].state, writes[n - 1].now))
  }

  ghost predicate Monotonic(writes: seq<Write>)
  {
    forall i, j :: 0 <= i <= j < |writes| ==> writes[i].now <= writes[j].now
  }

  /** The identity is absent from the states of writes `i` up to but not including `j`. */
  ghost predicate AbsentBetween(writes: seq<Write>, i: nat, j: nat, e: string)
    requires j <= |writes|
  {
    forall k :: i <= k < j ==> e !in Current(writes[k].state)
  }

  /** A live entry before write `i`, whose identity write `i` no longer finds in the state. */
  ghost predicate FirstMissing(file: Option<CorePolicyFile>, writes: seq<Write>, i: nat, e: string)
    requires i < |writes|
  {
    var prior := OldUsers(DocumentAfter(file, writes, i));
    e in prior && prior[e].tombstoneUntil == 0 && e !in Current(writes[i].state)
  }

  /** Nothing of an identity but a block until the deadline and its session generation is left. */
  ghost predicate BlockedUntil(users: map<string, CorePolicy>, e: string, deadline: nat, generation: int)
  {
    e in users && users[e] == CorePolicy(0, 0, 0, 0, true, deadline, generation)
  }

  lemma WrittenAt(file: Option<CorePolicyFile>, state: DesiredState, now: nat, e: string)
    ensures var current, prior, users := Current(state), OldUsers(file), Written(file, state, now).users;
            && (e in users <==> e in current || Buried(e, current, prior, now))
            && (e in current ==> users[e] == current[e])
            && (e in users && e !in current ==> users[e] == Tombstone(prior[e], now))
  {
  }

  /** For every run of writes: an identity that goes missing at write `i`, at time `t`, is blocked with deadline `t + 300` and
      its old generation in every later document written before that deadline, and in no document written after it, until
      it is added again. */
  lemma {:induction false} TombstoneRun(file: Option<CorePolicyFile>, writes: seq<Write>, i: nat, j: nat, e: string)
    requires i < j <= |writes| && Monotonic(writes)
    requires FirstMissing(file, writes, i, e) && AbsentBetween(writes, i, j, e)
    ensures var users := OldUsers(DocumentAfter(file, writes, j));
            var deadline := writes[i].now + 300;
            if writes[j - 1].now < deadline
            then BlockedUntil(users, e, deadline, OldUsers(DocumentAfter(file, writes, i))[e].sessionGeneration)
            else e !in users
  {
    WrittenAt(DocumentAfter(file, writes, j - 1), writes[j - 1].state, writes[j - 1].now, e);
    if j > i + 1 {
      TombstoneRun(file, writes, i, j - 1, e);
      assert writes[j - 2].now <= writes[j - 1].now;
    }
  }

  /** A write that finds the identity in the state ends its tombstone. */
  lemma ReaddedIsLive(file: Option<CorePolicyFile>, writes: seq<Write>, j: nat, e: string)
    requires j < |writes| && e in Current(writes[j].state)
    ensures var users := OldUsers(DocumentAfter(file, writes, j + 1));
            e in users && users[e] == Current(writes[j].state)[e] && users[e].tombstoneUntil == 0
  {
    CurrentIsLive(writes[j].state.inbounds, |writes[j].state.inbounds|, e);
  }

  lemma {:induction false} CurrentIsLive(inbounds: seq<ManagedInbound>, n: nat, e: string)
    requires n <= |inbounds|
    ensures e in UserPolicies(inbounds, n) ==> UserPolicies(inbounds, n)[e].tombstoneUntil == 0
  {
    if n > 0 {
      CurrentIsLive(inbounds, n - 1, e);
      WithUsersIsLive(UserPolicies(inbounds, n - 1), inbounds[n - 1], |inbounds[n - 1].users|, e);
    }
  }

  lemma {:induction false} WithUsersIsLive(users: map<string, CorePolicy>, input: ManagedInbound, n: nat, e: string)
    requires n <= |input.users| && (e in users ==> users[e].tombstoneUntil == 0)
    ensures e in WithUsers(users, input, n) ==> WithUsers(users, input, n)[e].tombstoneUntil == 0
  {
    if n > 0 {
      WithUsersIsLive(users, input, n - 1, e);
    }
  }

  /** Every identity of the state has an entry, and nothing else is added. */
  lemma {:induction false} CurrentKeys(inbounds: seq<ManagedInbound>, n: nat, e: string)
    requires n <= |inbounds|
    ensures e in UserPolicies(inbounds, n) <==>
            exists i, j :: 0 <= i < n && 0 <= j < |inbounds[i].users| && AccountingEmail(inbounds[i].users[j].id, inbounds[i].id) == e
  {
    if n > 0 {
      CurrentKeys(inbounds, n - 1, e);
      WithUsersKeys(UserPolicies(inbounds, n - 1), inbounds[n - 1], |inbounds[n - 1].users|, e);
    }
  }

  lemma {:induction false} WithUsersKeys(users: map<string, CorePolicy>, input: ManagedInbound, n: nat, e: string)
    requires n <= |input.users|
    ensures e in WithUsers(users, input, n) <==>
            e in users || exists j :: 0 <= j < n && AccountingEmail(input.users[j].id, input.id) == e
  {
    if n > 0 {
      WithUsersKeys(users, input, n - 1, e);
    }
  }

  /** User `j` of inbound `i` has the accounting email `e`, and no later user of the state has it. */
  ghost predicate LastUser(inbounds: seq<ManagedInbound>, i: nat, j: nat, e: string)
  {
    && i < |inbounds| && j < |inbounds[i].users| && AccountingEmail(inbounds[i].users[j].id, inbounds[i].id) == e
    && forall k, l :: 0 <= k < |inbounds| && 0 <= l < |inbounds[k].users| && AccountingEmail(inbounds[k].users[l].id, inbounds[k].id) == e ==>
                        k < i || (k == i && l <= j)
  }

  lemma {:induction false} WithUsersAt(users: map<string, CorePolicy>, input: ManagedInbound, n: nat, j: nat, e: string)
    requires n <= |input.users| && j < |input.users| && AccountingEmail(input.users[j].id, input.id) == e
    requires forall l :: j < l < |input.users| ==> AccountingEmail(input.users[l].id, input.id) != e
    ensures j < n ==> e in WithUsers(users, input, n) && WithUsers(users, input, n)[e] == PolicyOf(input, input.users[j])
  {
    if n > 0 {
      WithUsersAt(users, input, n - 1, j, e);
    }
  }

  lemma {:induction false} WithUsersOther(users: map<string, CorePolicy>, input: ManagedInbound, n: nat, e: string)
    requires n <= |input.users| && e in users
    requires forall l :: 0 <= l < |input.users| ==> AccountingEmail(input.users[l].id, input.id) != e
    ensures e in WithUsers(users, input, n) && WithUsers(users, input, n)[e] == users[e]
  {
    if n > 0 {
      WithUsersOther(users, input, n - 1, e);
    }
  }

  lemma {:induction false} LastUserCounts(inbounds: seq<ManagedInbound>, n: nat, i: nat, j: nat, e: string)
    requires n <= |inbounds| && LastUser(inbounds, i, j, e)
    ensures i < n ==> e in UserPolicies(inbounds, n) && UserPolicies(inbounds, n)[e] == PolicyOf(inbounds[i], inbounds[i].users[j])
  {
    if n > 0 {
      LastUserCounts(inbounds, n - 1, i, j, e);
      if i == n - 1 {
        WithUsersAt(UserPolicies(inbounds, n - 1), inbounds[i], |inbounds[i].users|, j, e);
      } else if i < n - 1 {
        WithUsersOther(UserPolicies(inbounds, n - 1), inbounds[n - 1], |inbounds[n - 1].users|, e);
      }
    }
  }

  /** The document carries for each accounting email the limits of the last user that has it: its own rates, connection limit and
      generation, its IP limit unless the inbound turns that off, and a block if it is disabled. */
  lemma PolicyOfLastUser(file: Option<CorePolicyFile>, state: DesiredState, now: nat, i: nat, j: nat, e: string)
    requires LastUser(state.inbounds, i, j, e)
    ensures var users, u := Written(file, state, now).users, state.inbounds[i].users[j];
            && e in users
            && users[e].uploadBps == u.limits.uploadBps && users[e].downloadBps == u.limits.downloadBps
            && users[e].connectionLimit == u.limits.connectionLimit
            && users[e].ipLimit == (if ToLower(state.inbounds[i].ipLimitMode) == "off" then 0 else u.limits.ipLimit)
            && users[e].blocked == !u.enabled && users[e].tombstoneUntil == 0 && users[e].sessionGeneration == u.sessionGeneration
  {
    LastUserCounts(state.inbounds, |state.inbounds|, i, j, e);
    WrittenAt(file, state, now, e);
  }

  /** Which users of the state need the patched core: those that are disabled or have any limit. */
  lemma LimitedIsStrict(file: Option<CorePolicyFile>, state: DesiredState, now: nat, i: nat, j: nat, e: string, second: nat)
    requires LastUser(state.inbounds, i, j, e)
    ensures var users, u := Written(file, state, now).users, state.inbounds[i].users[j];
            e in users &&
            (Strict(users[e], second) <==>
             || !u.enabled || u.limits.uploadBps > 0 || u.limits.downloadBps > 0 || u.limits.connectionLimit > 0
             || (u.limits.ipLimit > 0 && ToLower(state.inbounds[i].ipLimitMode) != "off"))
  {
    PolicyOfLastUser(file, state, now, i, j, e);
  }

  /** An identity that the state does not have needs it until its deadline, if the previous document of this version had it. */
  lemma MissingIsStrict(file: Option<CorePolicyFile>, state: DesiredState, now: nat, e: string, second: nat)
    requires e !in Current(state) && now <= second
    ensures var users := Written(file, state, now).users;
            e in users && Strict(users[e], second) <==>
            && file.Some? && file.value.version == 1 && e in file.value.users
            && second < if file.value.users[e].tombstoneUntil == 0 then now + 300 else file.value.users[e].tombstoneUntil
  {
    WrittenAt(file, state, now, e);
  }
}
