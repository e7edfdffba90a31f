/** Exactly when hot reload refines rebuild.  Without assuming anything about duplicate user IDs, running the plan gives the
    rebuilt table exactly when the tags come free in order and every surviving inbound is faithful to its old version. */
module Exactness {
  import opened Model
  import opened Text
  import opened Accounting
  import opened Builder
  import opened Runtime
  import opened HotUsers
  import opened Refinement

  /* ---------- An unfaithful patch never gives the new handler ---------- */

  lemma StepAduRefused(t: Table, next: ManagedInbound, accounts: map<string, Account>, u: ManagedUser)
    requires Buildable(next) && SupportsHotUsers(next.protocol) && next.tag in t && AccountingEmail(u.id, next.id) in accounts
    ensures Run(SetAccounts(t, next.tag, accounts), CommandsOf(AddUser(next, u))) == None
  {
    UserDocumentOf(next, u);
    RunSingle(SetAccounts(t, next.tag, accounts), Adu(UserDocument(next, u)));
  }

  lemma {:induction false} AddedKeeps(next: ManagedInbound, oldUsers: map<string, ManagedUser>, base: map<string, Account>, n: nat, e: string)
    requires n <= |next.users| && e in base
    ensures e in Added(next, oldUsers, base, n)
  {
    if n > 0 {
      AddedKeeps(next, oldUsers, base, n - 1, e);
    }
  }

  /** The additions were stopped, or left the added accounts. */
  ghost predicate GoesThrough(r: Option<Table>, t: Table, next: ManagedInbound, oldUsers: map<string, ManagedUser>,
                              base: map<string, Account>, n: nat)
    requires n <= |next.users| && next.tag in t
  {
    r == None || r == Some(SetAccounts(t, next.tag, Added(next, oldUsers, base, n)))
  }

  /** The same of the first `n` additions. */
  ghost predicate Through(t: Table, next: ManagedInbound, oldUsers: map<string, ManagedUser>, base: map<string, Account>, n: nat)
    requires n <= |next.users| && next.tag in t
  {
    GoesThrough(Run(t, Commands(UserAdditions(next, oldUsers, n))), t, next, oldUsers, base, n)
  }

  ghost predicate Halted(t: Table, next: ManagedInbound, oldUsers: map<string, ManagedUser>, n: nat)
    requires n <= |next.users|
  {
    Run(t, Commands(UserAdditions(next, oldUsers, n))) == None
  }

  lemma NothingGoesThrough(t: Table, next: ManagedInbound, oldUsers: map<string, ManagedUser>)
    requires next.tag in t
    ensures Through(t, next, oldUsers, t[next.tag].accounts, 0)
  {
    NothingAdded(t, next, oldUsers);
  }

  lemma AdditionsResult(t: Table, next: ManagedInbound, oldUsers: map<string, ManagedUser>, base: map<string, Account>, n: nat)
    requires n <= |next.users| && Buildable(next) && SupportsHotUsers(next.protocol)
    requires next.tag in t && SupportsHotUsers(t[next.tag].protocol) && t[next.tag].accounts == base
    ensures Through(t, next, oldUsers, base, n)
  {
    var holds := ThroughFlags(t, next, oldUsers, base, n);
    NothingGoesThrough(t, next, oldUsers);
    forall k | 0 <= k < n && holds[k] ensures holds[k + 1] {
      AdditionStep(t, next, oldUsers, base, k);
    }
    ToTheEnd(holds, 0);
  }

  lemma ThroughFlags(t: Table, next: ManagedInbound, oldUsers: map<string, ManagedUser>, base: map<string, Account>, n: nat) returns (holds: seq<bool>)
    requires n <= |next.users| && next.tag in t
    ensures |holds| == n + 1 && forall k :: 0 <= k <= n ==> holds[k] == Through(t, next, oldUsers, base, k)
  {
    holds := seq(n + 1, k requires 0 <= k <= n => Through(t, next, oldUsers, base, k));
  }

  lemma AdditionStep(t: Table, next: ManagedInbound, oldUsers: map<string, ManagedUser>, base: map<string, Account>, n: nat)
    requires n < |next.users| && Buildable(next) && SupportsHotUsers(next.protocol)
    requires next.tag in t && SupportsHotUsers(t[next.tag].protocol) && Through(t, next, oldUsers, base, n)
    ensures Through(t, next, oldUsers, base, n + 1)
    ensures Halted(t, next, oldUsers, n) ==> Halted(t, next, oldUsers, n + 1)
    ensures Retired(next.users[n], oldUsers) && EmailOf(next, n) in base ==> Halted(t, next, oldUsers, n + 1)
  {
    var ops, u := UserAdditions(next, oldUsers, n), next.users[n];
    var now := Added(next, oldUsers, base, n);
    if Retired(u, oldUsers) {
      RunSnoc(t, ops, [AddUser(next, u)]);
      CommandsSingle(AddUser(next, u));
      if EmailOf(next, n) in now {
        StepAduRefused(t, next, now, u);
      } else {
        StepAdu(t, next, now, u);
        NotInBase(next, oldUsers, base, n);
      }
    } else {
      assert ops + [] == ops;
    }
  }

  /** An addition whose email is taken stops them for good. */
  lemma AdditionsStop(t: Table, next: ManagedInbound, oldUsers: map<string, ManagedUser>, base: map<string, Account>, j: nat)
    requires j < |next.users| && Buildable(next) && SupportsHotUsers(next.protocol)
    requires next.tag in t && SupportsHotUsers(t[next.tag].protocol) && t[next.tag].accounts == base
    requires Retired(next.users[j], oldUsers) && EmailOf(next, j) in base
    ensures Halted(t, next, oldUsers, |next.users|)
  {
    var holds := HaltedFlags(t, next, oldUsers);
    AdditionsResult(t, next, oldUsers, base, j);
    AdditionStep(t, next, oldUsers, base, j);
    forall k | j < k < |next.users| && holds[k] ensures holds[k + 1] {
      StaysHalted(t, next, oldUsers, base, k);
    }
    ToTheEnd(holds, j + 1);
  }

  lemma HaltedFlags(t: Table, next: ManagedInbound, oldUsers: map<string, ManagedUser>) returns (holds: seq<bool>)
    ensures |holds| == |next.users| + 1 && forall k :: 0 <= k <= |next.users| ==> holds[k] == Halted(t, next, oldUsers, k)
  {
    holds := seq(|next.users| + 1, k requires 0 <= k <= |next.users| => Halted(t, next, oldUsers, k));
  }

  lemma StaysHalted(t: Table, next: ManagedInbound, oldUsers: map<string, ManagedUser>, base: map<string, Account>, n: nat)
    requires n < |next.users| && Buildable(next) && SupportsHotUsers(next.protocol)
    requires next.tag in t && SupportsHotUsers(t[next.tag].protocol) && t[next.tag].accounts == base && Halted(t, next, oldUsers, n)
    ensures Halted(t, next, oldUsers, n + 1)
  {
    AdditionsResult(t, next, oldUsers, base, n);
    AdditionStep(t, next, oldUsers, base, n);
  }

  lemma NotInBase(next: ManagedInbound, oldUsers: map<string, ManagedUser>, base: map<string, Account>, n: nat)
    requires n < |next.users| && EmailOf(next, n) !in Added(next, oldUsers, base, n)
    ensures EmailOf(next, n) !in base
  {
    if EmailOf(next, n) in base {
      AddedKeeps(next, oldUsers, base, n, EmailOf(next, n));
    }
  }

  /** A user hidden only in the old version stays in the handler and is added again. */
  lemma HiddenBeforeCollides(prior: ManagedInbound, next: ManagedInbound, i: nat, j: nat)
    requires DistinctEmails(prior) && DistinctEmails(next) && prior.id == next.id && i < |prior.users| && j < |next.users|
    requires Unchanged(prior, next, i, j) && !Shown(prior, i) && Shown(next, j)
    ensures Retired(next.users[j], UsersById(prior.users, |prior.users|))
    ensures EmailOf(next, j) in Kept(prior, UsersById(next.users, |next.users|), |prior.users|)
  {
    UsersByIdKeys(prior.users, |prior.users|);
    ShownMeaning(next, j);
    KeptMeaning(prior, UsersById(next.users, |next.users|), |prior.users|);
    assert EmailOf(prior, i) == EmailOf(next, j);
  }

  /** A user hidden only in the new version is removed and not added again. */
  lemma HiddenAfterIsLost(prior: ManagedInbound, next: ManagedInbound, i: nat, j: nat)
    requires DistinctEmails(prior) && DistinctEmails(next) && prior.id == next.id && i < |prior.users| && j < |next.users|
    requires Unchanged(prior, next, i, j) && Shown(prior, i) && !Shown(next, j)
    ensures var oldUsers := UsersById(prior.users, |prior.users|);
            var kept := Kept(prior, UsersById(next.users, |next.users|), |prior.users|);
            EmailOf(next, j) !in Added(next, oldUsers, kept, |next.users|)
  {
    var oldUsers, newUsers := UsersById(prior.users, |prior.users|), UsersById(next.users, |next.users|);
    var kept := Kept(prior, newUsers, |prior.users|);
    UsersByIdKeys(next.users, |next.users|);
    ShownMeaning(prior, i);
    KeptMeaning(prior, newUsers, |prior.users|);
    assert EmailOf(prior, i) == EmailOf(next, j);
    assert !Retired(next.users[j], oldUsers);
    forall k | 0 <= k < |next.users| && Retired(next.users[k], oldUsers) ensures EmailOf(next, k) != EmailOf(next, j) {
      assert k != j;
    }
    AddedMiss(next, oldUsers, kept, |next.users|, EmailOf(next, j));
  }

  ghost predicate Missed(r: Option<Table>, tag: string, h: Handler)
  {
    r.Some? ==> tag in r.value && r.value[tag] != h
  }

  /** After the removals of a patch its additions start from the accounts that were kept. */
  lemma PatchAfterRemovals(t: Table, prior: ManagedInbound, next: ManagedInbound)
    requires DistinctEmails(prior) && prior.id == next.id && InboundBaseEqual(prior, next) && SupportsHotUsers(next.protocol)
    requires prior.tag in t && t[prior.tag] == HandlerFor(prior)
    ensures var newUsers, oldUsers := UsersById(next.users, |next.users|), UsersById(prior.users, |prior.users|);
            var t1 := SetAccounts(t, prior.tag, Kept(prior, newUsers, |prior.users|));
            && prior.tag == next.tag && SupportsHotUsers(t1[next.tag].protocol)
            && Run(t, Commands(UserRemovals(prior, newUsers, |prior.users|) + UserAdditions(next, oldUsers, |next.users|))) ==
               Run(t1, Commands(UserAdditions(next, oldUsers, |next.users|)))
  {
    var newUsers := UsersById(next.users, |next.users|);
    SameBase(prior, next);
    RemovalsRun(t, prior, newUsers, |prior.users|);
    RunSnoc(t, UserRemovals(prior, newUsers, |prior.users|), UserAdditions(next, UsersById(prior.users, |prior.users|), |next.users|));
  }

  /** Additions that end without an enabled user's account miss the handler. */
  lemma LostUserMisses(t: Table, next: ManagedInbound, oldUsers: map<string, ManagedUser>, base: map<string, Account>, j: nat)
    requires DistinctEmails(next) && SupportsHotUsers(next.protocol) && next.tag in t && j < |next.users| && next.users[j].enabled
    requires Through(t, next, oldUsers, base, |next.users|) && EmailOf(next, j) !in Added(next, oldUsers, base, |next.users|)
    ensures Missed(Run(t, Commands(UserAdditions(next, oldUsers, |next.users|))), next.tag, HandlerFor(next))
  {
    UserAccountsMeaning(next, |next.users|);
    CarriedAccounts(next);
  }

  lemma UnfaithfulPatch(t: Table, prior: ManagedInbound, next: ManagedInbound)
    requires DistinctEmails(prior) && DistinctEmails(next) && !VisibleAlike(prior, next) && prior.id == next.id
    requires InboundBaseEqual(prior, next) && SupportsHotUsers(next.protocol) && Buildable(next)
    requires prior.tag in t && t[prior.tag] == HandlerFor(prior)
    ensures var ops := UserRemovals(prior, UsersById(next.users, |next.users|), |prior.users|) +
                       UserAdditions(next, UsersById(prior.users, |prior.users|), |next.users|);
            Missed(Run(t, Commands(ops)), next.tag, HandlerFor(next))
  {
    var newUsers, oldUsers := UsersById(next.users, |next.users|), UsersById(prior.users, |prior.users|);
    var kept := Kept(prior, newUsers, |prior.users|);
    var t1 := SetAccounts(t, prior.tag, kept);
    PatchAfterRemovals(t, prior, next);
    var i, j :| 0 <= i < |prior.users| && 0 <= j < |next.users| && Unchanged(prior, next, i, j) && (Shown(prior, i) <==> !Shown(next, j));
    if Shown(next, j) {
      HiddenBeforeCollides(prior, next, i, j);
      AdditionsStop(t1, next, oldUsers, kept, j);
    } else {
      AdditionsResult(t1, next, oldUsers, kept, |next.users|);
      HiddenAfterIsLost(prior, next, i, j);
      LostUserMisses(t1, next, oldUsers, kept, j);
    }
  }

  /** One round over a surviving inbound that is not ready. */
  lemma UnreadyRound(t: Table, live: LiveInbounds, prevById: LiveInbounds, next: ManagedInbound)
    requires Serves(t, live) && Buildable(next) && DistinctEmails(next) && next.id in prevById && next.id in live
    requires live[next.id] == prevById[next.id] && live[next.id].id == next.id && DistinctEmails(live[next.id])
    requires !Ready(prevById, next)
    ensures prevById[next.id].tag == next.tag && Missed(Run(t, Commands(InboundOps(prevById, next))), next.tag, HandlerFor(next))
  {
    var prior := prevById[next.id];
    BaseEqualTags(prior, next);
    if UsersRuntimeEqual(prior.users, next.users) {
      UntouchedHandler(prior, next);
    } else {
      UnfaithfulPatch(t, prior, next);
    }
  }

  /* ---------- Later rounds do not repair it ---------- */

  predicate OpAvoids(op: RuntimeOp, tag: string)
  {
    match op
    case AddInbound(input) => input.tag != tag
    case RemoveInbound(oldTag) => oldTag != tag
    case ReplaceInbound(oldTag, input) => oldTag != tag && input.tag != tag
    case AddUser(input, _) => input.tag != tag
    case RemoveUser(oldTag, _) => oldTag != tag
  }

  predicate CommandAvoids(c: Command, tag: string)
  {
    match c
    case Adi(Ok(doc)) => doc.tag != tag
    case Rmi(t) => t != tag
    case Adu(Ok(doc)) => doc.tag != tag
    case Rmu(t, _) => t != tag
    case _ => true
  }

  lemma {:induction false} AllCommandsAvoid(ops: seq<RuntimeOp>, tag: string)
    requires forall op :: op in ops ==> OpAvoids(op, tag)
    ensures forall c :: c in Commands(ops) ==> CommandAvoids(c, tag)
  {
    if ops != [] {
      assert ops[0] in ops && OpAvoids(ops[0], tag);
      forall op | op in ops[1..] ensures OpAvoids(op, tag) {
        assert op in ops;
      }
      AllCommandsAvoid(ops[1..], tag);
      OpCommandsAvoid(ops[0], tag);
    }
  }

  lemma OpCommandsAvoid(op: RuntimeOp, tag: string)
    requires OpAvoids(op, tag)
    ensures forall c :: c in CommandsOf(op) ==> CommandAvoids(c, tag)
  {
  }

  lemma {:induction false} RunAvoids(t: Table, commands: seq<Command>, tag: string, h: Handler)
    requires (forall c :: c in commands ==> CommandAvoids(c, tag)) && tag in t && t[tag] != h
    ensures Missed(Run(t, commands), tag, h)
    decreases |commands|
  {
    if commands != [] {
      assert commands[0] in commands && CommandAvoids(commands[0], tag);
      StepAvoids(t, commands[0], tag);
      match Step(t, commands[0])
      case None =>
      case Some(t') =>
        forall c | c in commands[1..] ensures CommandAvoids(c, tag) {
          assert c in commands;
        }
        RunAvoids(t', commands[1..], tag, h);
    }
  }

  lemma StepAvoids(t: Table, c: Command, tag: string)
    requires CommandAvoids(c, tag) && tag in t
    ensures Step(t, c).Some? ==> tag in Step(t, c).value && Step(t, c).value[tag] == t[tag]
  {
  }

  lemma {:induction false} UserRemovalsAvoid(prior: ManagedInbound, newUsers: map<string, ManagedUser>, n: nat, tag: string)
    requires n <= |prior.users| && prior.tag != tag
    ensures forall op :: op in UserRemovals(prior, newUsers, n) ==> OpAvoids(op, tag)
  {
    if n > 0 {
      UserRemovalsAvoid(prior, newUsers, n - 1, tag);
    }
  }

  lemma {:induction false} UserAdditionsAvoid(next: ManagedInbound, oldUsers: map<string, ManagedUser>, n: nat, tag: string)
    requires n <= |next.users| && next.tag != tag
    ensures forall op :: op in UserAdditions(next, oldUsers, n) ==> OpAvoids(op, tag)
  {
    if n > 0 {
      UserAdditionsAvoid(next, oldUsers, n - 1, tag);
    }
  }

  lemma InboundOpsAvoid(prevById: LiveInbounds, next: ManagedInbound, tag: string)
    requires next.tag != tag && (next.id in prevById ==> prevById[next.id].tag != tag)
    ensures forall op :: op in InboundOps(prevById, next) ==> OpAvoids(op, tag)
  {
    if next.id in prevById {
      var prior := prevById[next.id];
      UserRemovalsAvoid(prior, UsersById(next.users, |next.users|), |prior.users|, tag);
      UserAdditionsAvoid(next, UsersById(prior.users, |prior.users|), |next.users|, tag);
    }
  }

  ghost predicate DistinctTags(prevById: LiveInbounds)
  {
    forall a, b :: a in prevById && b in prevById && prevById[a].tag == prevById[b].tag ==> a == b
  }

  lemma ByIdKeepsTagsApart(s: DesiredState)
    requires UniqueIds(s.inbounds) && UniqueTags(s.inbounds)
    ensures DistinctTags(InboundsById(s.inbounds, |s.inbounds|))
  {
    InboundsByIdKeys(s.inbounds, |s.inbounds|);
    var byId := InboundsById(s.inbounds, |s.inbounds|);
    forall a, b | a in byId && b in byId && byId[a].tag == byId[b].tag ensures a == b {
      var i :| 0 <= i < |s.inbounds| && s.inbounds[i] == byId[a] && s.inbounds[i].id == a;
      var j :| 0 <= j < |s.inbounds| && s.inbounds[j] == byId[b] && s.inbounds[j].id == b;
    }
  }

  lemma LaterIsApart(prevById: LiveInbounds, desired: seq<ManagedInbound>, n: nat, k: nat)
    requires n < k < |desired| && UniqueIds(desired) && UniqueTags(desired) && DistinctTags(prevById)
    requires desired[n].id in prevById && prevById[desired[n].id].tag == desired[n].tag
    ensures Apart(prevById, desired[k], desired[n].tag)
  {
  }

  ghost predicate Apart(prevById: LiveInbounds, next: ManagedInbound, tag: string)
  {
    next.tag != tag && (next.id in prevById ==> prevById[next.id].tag != tag)
  }

  /** After `k` rounds the handler at the tag of desired inbound `n` is not the wanted one, or the plan has stopped. */
  ghost predicate MissedAt(t: Table, prevById: LiveInbounds, desired: seq<ManagedInbound>, n: nat, k: nat)
    requires n < |desired| && k <= |desired|
  {
    Missed(Rounds(t, prevById, desired, k), desired[n].tag, HandlerFor(desired[n]))
  }

  lemma MissedStep(t: Table, prevById: LiveInbounds, desired: seq<ManagedInbound>, n: nat, k: nat)
    requires n < k < |desired| && Apart(prevById, desired[k], desired[n].tag) && MissedAt(t, prevById, desired, n, k)
    ensures MissedAt(t, prevById, desired, n, k + 1)
  {
    NextRound(t, prevById, desired, k);
    if Rounds(t, prevById, desired, k).Some? {
      LaterRoundMisses(Rounds(t, prevById, desired, k), prevById, desired[k], desired[n].tag, HandlerFor(desired[n]));
    }
  }

  /** What holds after some round and is kept by every later one holds at the end. */
  lemma {:induction false} ToTheEnd(holds: seq<bool>, n: nat)
    requires n < |holds| && holds[n] && forall k :: n <= k < |holds| - 1 && holds[k] ==> holds[k + 1]
    ensures holds[|holds| - 1]
    decreases |holds| - n
  {
    if n < |holds| - 1 {
      ToTheEnd(holds, n + 1);
    }
  }

  lemma MissedLater(t: Table, prevById: LiveInbounds, desired: seq<ManagedInbound>, n: nat, holds: seq<bool>)
    requires n < |desired| && |holds| == |desired| + 1
    requires forall k :: n < k < |desired| ==> Apart(prevById, desired[k], desired[n].tag)
    requires forall k :: n < k <= |desired| ==> holds[k] == MissedAt(t, prevById, desired, n, k)
    ensures forall k :: n < k < |desired| && holds[k] ==> holds[k + 1]
  {
    forall k | n < k < |desired| && holds[k] ensures holds[k + 1] {
      MissedStep(t, prevById, desired, n, k);
    }
  }

  lemma AllApart(prevById: LiveInbounds, desired: seq<ManagedInbound>, n: nat)
    requires n < |desired| && UniqueIds(desired) && UniqueTags(desired) && DistinctTags(prevById)
    requires desired[n].id in prevById && prevById[desired[n].id].tag == desired[n].tag
    ensures forall k :: n < k < |desired| ==> Apart(prevById, desired[k], desired[n].tag)
  {
    forall k | n < k < |desired| ensures Apart(prevById, desired[k], desired[n].tag) {
      LaterIsApart(prevById, desired, n, k);
    }
  }

  lemma MissedFlags(t: Table, prevById: LiveInbounds, desired: seq<ManagedInbound>, n: nat) returns (holds: seq<bool>)
    requires n < |desired|
    ensures |holds| == |desired| + 1 && forall k :: 0 <= k <= |desired| ==> holds[k] == MissedAt(t, prevById, desired, n, k)
  {
    holds := seq(|desired| + 1, k requires 0 <= k <= |desired| => MissedAt(t, prevById, desired, n, k));
  }

  /** A handler missed in round `n` is still missed after every later round. */
  lemma StaysMissed(t: Table, prevById: LiveInbounds, desired: seq<ManagedInbound>, n: nat)
    requires n < |desired| && forall k :: n < k < |desired| ==> Apart(prevById, desired[k], desired[n].tag)
    requires MissedAt(t, prevById, desired, n, n + 1)
    ensures MissedAt(t, prevById, desired, n, |desired|)
  {
    var holds := MissedFlags(t, prevById, desired, n);
    MissedLater(t, prevById, desired, n, holds);
    ToTheEnd(holds, n + 1);
  }

  lemma LaterRoundMisses(r: Option<Table>, prevById: LiveInbounds, later: ManagedInbound, tag: string, h: Handler)
    requires Missed(r, tag, h) && r.Some? && Apart(prevById, later, tag)
    ensures Missed(Run(r.value, Commands(InboundOps(prevById, later))), tag, h)
  {
    InboundOpsAvoid(prevById, later, tag);
    AllCommandsAvoid(InboundOps(prevById, later), tag);
    RunAvoids(r.value, Commands(InboundOps(prevById, later)), tag, h);
  }

  lemma MissedIsAnother(r: Option<Table>, tag: string, h: Handler, t: Table)
    requires Missed(r, tag, h) && tag in t && t[tag] == h
    ensures r != Some(t)
  {
  }

  ghost predicate Stopped(t: Table, prevById: LiveInbounds, desired: seq<ManagedInbound>, k: nat)
    requires k <= |desired|
  {
    Rounds(t, prevById, desired, k) == None
  }

  lemma StoppedStep(t: Table, prevById: LiveInbounds, desired: seq<ManagedInbound>, k: nat)
    requires k < |desired| && Stopped(t, prevById, desired, k)
    ensures Stopped(t, prevById, desired, k + 1)
  {
    NextRound(t, prevById, desired, k);
  }

  lemma StoppedFlags(t: Table, prevById: LiveInbounds, desired: seq<ManagedInbound>) returns (holds: seq<bool>)
    ensures |holds| == |desired| + 1 && forall k :: 0 <= k <= |desired| ==> holds[k] == Stopped(t, prevById, desired, k)
  {
    holds := seq(|desired| + 1, k requires 0 <= k <= |desired| => Stopped(t, prevById, desired, k));
  }

  lemma StaysStopped(t: Table, prevById: LiveInbounds, desired: seq<ManagedInbound>, n: nat)
    requires n <= |desired| && Stopped(t, prevById, desired, n)
    ensures Stopped(t, prevById, desired, |desired|)
  {
    var holds := StoppedFlags(t, prevById, desired);
    forall k | n <= k < |desired| && holds[k] ensures holds[k + 1] {
      StoppedStep(t, prevById, desired, k);
    }
    ToTheEnd(holds, n);
  }

  /* ---------- The exact condition ---------- */

  ghost predicate Smooth(prevById: LiveInbounds, desired: seq<ManagedInbound>, i: nat)
    requires i < |desired|
  {
    Ready(prevById, desired[i]) && ClearOfLater(prevById, desired, i)
  }

  lemma FirstRough(prevById: LiveInbounds, desired: seq<ManagedInbound>, m: nat) returns (n: nat)
    requires m < |desired| && !Smooth(prevById, desired, m)
    ensures n < |desired| && !Smooth(prevById, desired, n) && forall i :: 0 <= i < n ==> Smooth(prevById, desired, i)
  {
    n := 0;
    while Smooth(prevById, desired, n)
      invariant n <= m && forall i :: 0 <= i < n ==> Smooth(prevById, desired, i)
      decreases m - n
    {
      n := n + 1;
    }
  }

  /** The rounds before the first rough one are as planned. */
  lemma SmoothStart(prevById: LiveInbounds, desired: DesiredState, t0: Table, live: LiveInbounds, n: nat)
    requires KeyedState(desired) && AllBuildable(desired) && Pending(live, prevById, desired.inbounds) && Serves(t0, live)
    requires n <= |desired.inbounds| && forall i :: 0 <= i < n ==> Smooth(prevById, desired.inbounds, i)
    ensures var r := Rounds(t0, prevById, desired.inbounds, n);
            r.Some? && Serves(r.value, AfterRounds(live, desired.inbounds, n))
  {
    forall i | 0 <= i < n ensures Ready(prevById, desired.inbounds[i]) && ClearOfLater(prevById, desired.inbounds, i) {
      assert Smooth(prevById, desired.inbounds, i);
    }
    UpdatePhase(prevById, desired, t0, live, n);
  }

  lemma RoughRound(prevById: LiveInbounds, desired: DesiredState, t0: Table, live: LiveInbounds, n: nat)
    requires KeyedState(desired) && AllBuildable(desired) && Pending(live, prevById, desired.inbounds) && Serves(t0, live)
    requires n < |desired.inbounds| && !Smooth(prevById, desired.inbounds, n)
    requires forall i :: 0 <= i < n ==> Smooth(prevById, desired.inbounds, i)
    ensures var r, next := Rounds(t0, prevById, desired.inbounds, n + 1), desired.inbounds[n];
            r == None || (next.id in prevById && prevById[next.id].tag == next.tag && Missed(r, next.tag, HandlerFor(next)))
  {
    SmoothStart(prevById, desired, t0, live, n);
    var next := desired.inbounds[n];
    var now := AfterRounds(live, desired.inbounds, n);
    PendingUntouched(live, desired.inbounds, n);
    NextRound(t0, prevById, desired.inbounds, n);
    if Ready(prevById, next) {
      TagFreeMeaning(live, prevById, desired.inbounds, n);
      InboundRound(Rounds(t0, prevById, desired.inbounds, n).value, now, prevById, next);
    } else {
      assert Wanted(desired.inbounds, next.id);
      UnreadyRound(Rounds(t0, prevById, desired.inbounds, n).value, now, prevById, next);
    }
  }

  /** One rough inbound spoils the whole plan: it stops, or ends with another table. */
  lemma RoughPlanMisses(previous: DesiredState, desired: DesiredState, m: nat)
    requires KeyedInputs(previous, desired) && m < |desired.inbounds|
    requires !Smooth(InboundsById(previous.inbounds, |previous.inbounds|), desired.inbounds, m)
    ensures Run(TableOf(previous), Commands(Operations(previous, desired))) != Some(TableOf(desired))
  {
    var prevById := InboundsById(previous.inbounds, |previous.inbounds|);
    var t0, live := PlanInRounds(previous, desired);
    var n := FirstRough(prevById, desired.inbounds, m);
    RoughRound(prevById, desired, t0, live, n);
    RoughRoundLasts(previous, desired, t0, n);
  }

  lemma RoughRoundLasts(previous: DesiredState, desired: DesiredState, t0: Table, n: nat)
    requires KeyedInputs(previous, desired) && n < |desired.inbounds|
    requires var prevById, next := InboundsById(previous.inbounds, |previous.inbounds|), desired.inbounds[n];
             var r := Rounds(t0, prevById, desired.inbounds, n + 1);
             r == None || (next.id in prevById && prevById[next.id].tag == next.tag && Missed(r, next.tag, HandlerFor(next)))
    ensures Rounds(t0, InboundsById(previous.inbounds, |previous.inbounds|), desired.inbounds, |desired.inbounds|) != Some(TableOf(desired))
  {
    var prevById := InboundsById(previous.inbounds, |previous.inbounds|);
    if Rounds(t0, prevById, desired.inbounds, n + 1) == None {
      StaysStopped(t0, prevById, desired.inbounds, n + 1);
    } else {
      ByIdKeepsTagsApart(previous);
      AllApart(prevById, desired.inbounds, n);
      StaysMissed(t0, prevById, desired.inbounds, n);
      TableHolds(desired, n);
      MissedIsAnother(Rounds(t0, prevById, desired.inbounds, |desired.inbounds|), desired.inbounds[n].tag,
                      HandlerFor(desired.inbounds[n]), TableOf(desired));
    }
  }

  /** Running the plan on the old table gives the rebuilt one exactly when no inbound takes a tag that a later survivor still
      holds, and every survivor whose base did not change is faithful to its old version. */
  lemma HotReloadIsExact(previous: DesiredState, desired: DesiredState)
    requires KeyedInputs(previous, desired)
    ensures Run(TableOf(previous), Commands(Operations(previous, desired))) == Some(TableOf(desired)) <==>
            TagsComeFree(previous, desired) && AllReady(previous, desired)
  {
    var prevById := InboundsById(previous.inbounds, |previous.inbounds|);
    if AllReady(previous, desired) {
      ReadyReloadRefinesRebuild(previous, desired);
    } else {
      var m :| 0 <= m < |desired.inbounds| && !Ready(prevById, desired.inbounds[m]);
      assert !Smooth(prevById, desired.inbounds, m);
      RoughPlanMisses(previous, desired, m);
    }
  }
}
