/** Quota, expiry, IP and device limits, and draining (internal/policy/evaluator.go). */
module Policy {
  import opened Model
  import opened Order
  import opened Text

  datatype UsageKey = UsageKey(userId: string, inboundId: string)

  datatype Context = Context(sessions: map<UsageKey, SessionRecord>, pending: map<UsageKey, int>, now: int)

  datatype Evaluation = Evaluation(state: DesiredState, violations: seq<PolicyViolation>)

  /** A Go map read: zero when the key is missing. */
  function Get(m: map<UsageKey, int>, k: UsageKey): int
  {
    if k in m then m[k] else 0
  }

  function SessionsByKey(sessions: seq<SessionRecord>, n: nat): map<UsageKey, SessionRecord>
    requires n <= |sessions|
  {
    if n == 0 then map[] else
    SessionsByKey(sessions, n - 1)[UsageKey(sessions[n - 1].userId, sessions[n - 1].inboundId) := sessions[n - 1]]
  }

  /* ---------- Specification of one inbound ---------- */

  function UsedBytes(u: ManagedUser, inboundId: string, c: Context): int
  {
    u.limits.trafficUsedBytes + Get(c.pending, UsageKey(u.id, inboundId))
  }

  function SeenIps(u: ManagedUser, inboundId: string, c: Context): nat
  {
    var k := UsageKey(u.id, inboundId);
    if k in c.sessions then |c.sessions[k].ips| else 0
  }

  /** The first per-user limit that is exceeded. */
  function Check(u: ManagedUser, input: ManagedInbound, c: Context): Option<PolicyViolation>
  {
    if u.limits.expiresAt > 0 && c.now >= u.limits.expiresAt then
      Some(PolicyViolation(u.id, input.id, "expired", c.now, u.limits.expiresAt))
    else if u.limits.trafficBytes > 0 && UsedBytes(u, input.id, c) >= u.limits.trafficBytes then
      Some(PolicyViolation(u.id, input.id, "traffic_quota", UsedBytes(u, input.id, c), u.limits.trafficBytes))
    else if u.limits.ipLimit > 0 && ToLower(input.ipLimitMode) != "off" && SeenIps(u, input.id, c) > u.limits.ipLimit then
      Some(PolicyViolation(u.id, input.id, "ip_limit", SeenIps(u, input.id, c), u.limits.ipLimit))
    else None
  }

  predicate Eligible(u: ManagedUser, input: ManagedInbound, c: Context)
  {
    u.enabled && Check(u, input, c).None?
  }

  function Checked(u: ManagedUser, input: ManagedInbound, c: Context): ManagedUser
  {
    u.(enabled := Eligible(u, input, c))
  }

  /** The users after the per-user checks. */
  function Survivors(input: ManagedInbound, c: Context): seq<ManagedUser>
  {
    seq(|input.users|, i requires 0 <= i < |input.users| => Checked(input.users[i], input, c))
  }

  function CheckViolations(input: ManagedInbound, c: Context, n: nat): seq<PolicyViolation>
    requires n <= |input.users|
  {
    if n == 0 then [] else
    var u := input.users[n - 1];
    CheckViolations(input, c, n - 1) + (if u.enabled && Check(u, input, c).Some? then [Check(u, input, c).value] else [])
  }

  predicate SetsCap(u: ManagedUser)
  {
    u.enabled && u.accountId != "" && u.limits.deviceLimit > 0
  }

  /** `limitByAccount`: the smallest positive device limit among the enabled users of each account. */
  function Caps(users: seq<ManagedUser>, n: nat): map<string, int>
    requires n <= |users|
  {
    if n == 0 then map[] else
    var before, u := Caps(users, n - 1), users[n - 1];
    if SetsCap(u) && (u.accountId !in before || u.limits.deviceLimit < before[u.accountId])
    then before[u.accountId := u.limits.deviceLimit] else before
  }

  /** How many of the first `n` users are enabled members of the account. */
  function Members(users: seq<ManagedUser>, account: string, n: nat): nat
    requires n <= |users|
  {
    if n == 0 then 0 else
    Members(users, account, n - 1) + (if users[n - 1].enabled && users[n - 1].accountId == account then 1 else 0)
  }

  /** User `j` is beyond the cap of its account. */
  predicate Surplus(users: seq<ManagedUser>, caps: map<string, int>, j: nat)
    requires j < |users|
  {
    var u := users[j];
    u.enabled && u.accountId != "" && u.accountId in caps && caps[u.accountId] > 0 &&
    Members(users, u.accountId, j) + 1 > caps[u.accountId]
  }

  function Trimmed(users: seq<ManagedUser>, caps: map<string, int>): seq<ManagedUser>
  {
    seq(|users|, j requires 0 <= j < |users| => if Surplus(users, caps, j) then users[j].(enabled := false) else users[j])
  }

  function DeviceViolations(users: seq<ManagedUser>, inboundId: string, caps: map<string, int>, n: nat): seq<PolicyViolation>
    requires n <= |users|
  {
    if n == 0 then [] else
    var u := users[n - 1];
    DeviceViolations(users, inboundId, caps, n - 1) +
    (if Surplus(users, caps, n - 1)
     then [PolicyViolation(u.id, inboundId, "device_limit", Members(users, u.accountId, n - 1) + 1, caps[u.accountId])] else [])
  }

  function EvaluatedUsers(input: ManagedInbound, c: Context): seq<ManagedUser>
  {
    var users := Survivors(input, c);
    Trimmed(users, Caps(users, |users|))
  }

  function InboundViolations(input: ManagedInbound, c: Context): seq<PolicyViolation>
  {
    var users := Survivors(input, c);
    CheckViolations(input, c, |input.users|) + DeviceViolations(users, input.id, Caps(users, |users|), |users|)
  }

  function EvaluatedInbound(input: ManagedInbound, c: Context): ManagedInbound
  {
    input.(users := EvaluatedUsers(input, c))
  }

  function EvaluatedInbounds(inbounds: seq<ManagedInbound>, c: Context): seq<ManagedInbound>
  {
    seq(|inbounds|, i requires 0 <= i < |inbounds| => EvaluatedInbound(inbounds[i], c))
  }

  function AllViolations(inbounds: seq<ManagedInbound>, c: Context, n: nat): seq<PolicyViolation>
    requires n <= |inbounds|
  {
    if n == 0 then [] else AllViolations(inbounds, c, n - 1) + InboundViolations(inbounds[n - 1], c)
  }

  function Evaluated(desired: DesiredState, c: Context): Evaluation
  {
    Evaluation(desired.(inbounds := EvaluatedInbounds(desired.inbounds, c)),
               AllViolations(desired.inbounds, c, |desired.inbounds|))
  }

  /* ---------- The loops, in place ---------- */

  /** The first loop over the users of one inbound. */
  method CheckUsers(users: array<ManagedUser>, input: ManagedInbound, c: Context) returns (violations: seq<PolicyViolation>)
    requires users[..] == input.users
    modifies users
    ensures users[..] == Survivors(input, c)
    ensures violations == CheckViolations(input, c, |input.users|)
  {
    violations := [];
    for j := 0 to users.Length
      invariant forall i :: 0 <= i < j ==> users[i] == Checked(input.users[i], input, c)
      invariant forall i :: j <= i < users.Length ==> users[i] == input.users[i]
      invariant violations == CheckViolations(input, c, j)
    {
      var u := users[j];
      if !u.enabled {
        continue;
      }
      var limits := u.limits;
      var key := UsageKey(u.id, input.id);
      if limits.expiresAt > 0 && c.now >= limits.expiresAt {
        users[j] := u.(enabled := false);
        violations := violations + [PolicyViolation(u.id, input.id, "expired", c.now, limits.expiresAt)];
        continue;
      }
      if limits.trafficBytes > 0 {
        var used := limits.trafficUsedBytes + Get(c.pending, key);
        if used >= limits.trafficBytes {
          users[j] := u.(enabled := false);
          violations := violations + [PolicyViolation(u.id, input.id, "traffic_quota", used, limits.trafficBytes)];
          continue;
        }
      }
      if limits.ipLimit > 0 && ToLower(input.ipLimitMode) != "off" {
        var count := if key in c.sessions then |c.sessions[key].ips| else 0;
        if count > limits.ipLimit {
          users[j] := u.(enabled := false);
          violations := violations + [PolicyViolation(u.id, input.id, "ip_limit", count, limits.ipLimit)];
        }
      }
    }
  }

  method CollectCaps(users: array<ManagedUser>) returns (limitByAccount: map<string, int>)
    ensures limitByAccount == Caps(users[..], users.Length)
  {
    limitByAccount := map[];
    for j := 0 to users.Length
      invariant limitByAccount == Caps(users[..], j)
    {
      var u := users[j];
      if !u.enabled || u.accountId == "" || u.limits.deviceLimit <= 0 {
        continue;
      }
      if u.accountId !in limitByAccount || u.limits.deviceLimit < limitByAccount[u.accountId] {
        limitByAccount := limitByAccount[u.accountId := u.limits.deviceLimit];
      }
    }
  }

  /** The last loop: the counters count the enabled members of capped accounts met so far. */
  method TrimAccounts(users: array<ManagedUser>, inboundId: string, caps: map<string, int>) returns (violations: seq<PolicyViolation>)
    modifies users
    ensures users[..] == Trimmed(old(users[..]), caps)
    ensures violations == DeviceViolations(old(users[..]), inboundId, caps, |old(users[..])|)
  {
    ghost var before := users[..];
    violations := [];
    var activeByAccount: map<string, int> := map[];
    for j := 0 to users.Length
      invariant forall i :: 0 <= i < j ==> users[i] == Trimmed(before, caps)[i]
      invariant forall i :: j <= i < users.Length ==> users[i] == before[i]
      invariant violations == DeviceViolations(before, inboundId, caps, j)
      invariant forall a :: a in caps && caps[a] > 0 && a != "" ==>
                              Members(before, a, j) == if a in activeByAccount then activeByAccount[a] else 0
    {
      var u := users[j];
      var limit := if u.accountId in caps then caps[u.accountId] else 0;
      if !u.enabled || u.accountId == "" || limit <= 0 {
        continue;
      }
      var active := (if u.accountId in activeByAccount then activeByAccount[u.accountId] else 0) + 1;
      activeByAccount := activeByAccount[u.accountId := active];
      if active > limit {
        users[j] := u.(enabled := false);
        violations := violations + [PolicyViolation(u.id, inboundId, "device_limit", active, limit)];
      }
    }
  }

  /** `cloneState` gives every inbound a backing array of its own. */
  method CloneUsers(users: seq<ManagedUser>) returns (clone: array<ManagedUser>)
    ensures fresh(clone) && clone[..] == users
  {
    clone := new ManagedUser[|users|](i requires 0 <= i < |users| => users[i]);
  }

  method EvaluateInbound(input: ManagedInbound, c: Context) returns (r: ManagedInbound, violations: seq<PolicyViolation>)
    ensures r == EvaluatedInbound(input, c) && violations == InboundViolations(input, c)
  {
    var clone := CloneUsers(input.users);
    var first := CheckUsers(clone, input, c);
    var caps := CollectCaps(clone);
    var second := TrimAccounts(clone, input.id, caps);
    r, violations := input.(users := clone[..]), first + second;
  }

  method Evaluate(desired: DesiredState, sessions: seq<SessionRecord>, pending: map<UsageKey, int>, now: int) returns (r: Evaluation)
    ensures r == Evaluated(desired, Context(SessionsByKey(sessions, |sessions|), pending, now))
  {
    var sessionMap: map<UsageKey, SessionRecord> := map[];
    for i := 0 to |sessions|
      invariant sessionMap == SessionsByKey(sessions, i)
    {
      sessionMap := sessionMap[UsageKey(sessions[i].userId, sessions[i].inboundId) := sessions[i]];
    }
    var inbounds, violations := EvaluateInbounds(desired.inbounds, Context(sessionMap, pending, now));
    r := Evaluation(desired.(inbounds := inbounds), violations);
  }

  ghost predicate EvaluatedUpTo(inbounds: seq<ManagedInbound>, c: Context, i: nat, r: seq<ManagedInbound>, violations: seq<PolicyViolation>)
    requires i <= |inbounds|
  {
    && |r| == i && (forall k :: 0 <= k < i ==> r[k] == EvaluatedInbound(inbounds[k], c))
    && violations == AllViolations(inbounds, c, i)
  }

  lemma EvaluatedOneMore(inbounds: seq<ManagedInbound>, c: Context, i: nat, r: seq<ManagedInbound>, violations: seq<PolicyViolation>)
    requires i < |inbounds| && EvaluatedUpTo(inbounds, c, i, r, violations)
    ensures EvaluatedUpTo(inbounds, c, i + 1, r + [EvaluatedInbound(inbounds[i], c)], violations + InboundViolations(inbounds[i], c))
  {
  }

  lemma EvaluatedToTheEnd(inbounds: seq<ManagedInbound>, c: Context, r: seq<ManagedInbound>, violations: seq<PolicyViolation>)
    requires EvaluatedUpTo(inbounds, c, |inbounds|, r, violations)
    ensures r == EvaluatedInbounds(inbounds, c) && violations == AllViolations(inbounds, c, |inbounds|)
  {
  }

  method EvaluateInbounds(inbounds: seq<ManagedInbound>, c: Context) returns (r: seq<ManagedInbound>, violations: seq<PolicyViolation>)
    ensures r == EvaluatedInbounds(inbounds, c) && violations == AllViolations(inbounds, c, |inbounds|)
  {
    r, violations := [], [];
    for i := 0 to |inbounds|
      invariant EvaluatedUpTo(inbounds, c, i, r, violations)
    {
      EvaluatedOneMore(inbounds, c, i, r, violations);
      var evaluated, more := EvaluateInbound(inbounds[i], c);
      r := r + [evaluated];
      violations := violations + more;
    }
    EvaluatedToTheEnd(inbounds, c, r, violations);
  }

  /* ---------- What the evaluation means ---------- */

  lemma {:induction false} CapsMeaning(users: seq<ManagedUser>, n: nat, a: string)
    requires n <= |users|
    ensures a in Caps(users, n) <==> exists i :: 0 <= i < n && SetsCap(users[i]) && users[i].accountId == a
    ensures a in Caps(users, n) ==>
              && Caps(users, n)[a] > 0 && a != ""
              && (exists i :: 0 <= i < n && SetsCap(users[i]) && users[i].accountId == a && users[i].limits.deviceLimit == Caps(users, n)[a])
              && (forall i :: 0 <= i < n && SetsCap(users[i]) && users[i].accountId == a ==> Caps(users, n)[a] <= users[i].limits.deviceLimit)
  {
    if n > 0 {
      CapsMeaning(users, n - 1, a);
    }
  }

  /** The cap of an account: the smallest positive device limit among its individually eligible users. */
  ghost predicate IsCap(input: ManagedInbound, c: Context, account: string, cap: int)
  {
    && (exists i :: 0 <= i < |input.users| && CapCandidate(input, c, account, i) && input.users[i].limits.deviceLimit == cap)
    && (forall i :: 0 <= i < |input.users| && CapCandidate(input, c, account, i) ==> cap <= input.users[i].limits.deviceLimit)
  }

  ghost predicate CapCandidate(input: ManagedInbound, c: Context, account: string, i: nat)
    requires i < |input.users|
  {
    Eligible(input.users[i], input, c) && input.users[i].accountId == account && input.users[i].limits.deviceLimit > 0
  }

  /** The individually eligible users of the account before position `n`. */
  function MatesBefore(input: ManagedInbound, c: Context, account: string, n: nat): set<nat>
    requires n <= |input.users|
  {
    set i: nat | i < n && Eligible(input.users[i], input, c) && input.users[i].accountId == account
  }

  predicate IsMate(input: ManagedInbound, c: Context, account: string, i: nat)
    requires i < |input.users|
  {
    Eligible(input.users[i], input, c) && input.users[i].accountId == account
  }

  lemma MatesSnoc(input: ManagedInbound, c: Context, account: string, n: nat)
    requires n < |input.users|
    ensures |MatesBefore(input, c, account, n + 1)| == |MatesBefore(input, c, account, n)| + if IsMate(input, c, account, n) then 1 else 0
  {
    var before := MatesBefore(input, c, account, n);
    assert MatesBefore(input, c, account, n + 1) == if IsMate(input, c, account, n) then before + {n} else before;
    assert n !in before;
  }

  lemma MembersSnoc(input: ManagedInbound, c: Context, account: string, n: nat)
    requires n < |input.users|
    ensures Members(Survivors(input, c), account, n + 1) == Members(Survivors(input, c), account, n) + if IsMate(input, c, account, n) then 1 else 0
  {
  }

  lemma {:induction false} MatesAreMembers(input: ManagedInbound, c: Context, account: string, n: nat)
    requires n <= |input.users|
    ensures |MatesBefore(input, c, account, n)| == Members(Survivors(input, c), account, n)
  {
    if n == 0 {
      assert MatesBefore(input, c, account, 0) == {};
    } else {
      MatesAreMembers(input, c, account, n - 1);
      MatesSnoc(input, c, account, n - 1);
      MembersSnoc(input, c, account, n - 1);
    }
  }

  /** The cap the loop collected for an account is the smallest positive one among its eligible users. */
  lemma CapIsCap(input: ManagedInbound, c: Context, account: string)
    requires account != "" && account in Caps(Survivors(input, c), |input.users|)
    ensures IsCap(input, c, account, Caps(Survivors(input, c), |input.users|)[account])
  {
    var users := Survivors(input, c);
    CapsMeaning(users, |users|, account);
    assert forall i :: 0 <= i < |users| ==> (CapCandidate(input, c, account, i) <==> SetsCap(users[i]) && users[i].accountId == account);
    var k :| 0 <= k < |users| && SetsCap(users[k]) && users[k].accountId == account
             && users[k].limits.deviceLimit == Caps(users, |users|)[account];
    assert CapCandidate(input, c, account, k);
  }

  /** Individually eligible: enabled, not expired, below its quota with pending bytes counted in, and seen from no more addresses
      than its IP limit unless the inbound turns that off.  A limit that is not positive asks for nothing. */
  lemma EligibleMeaning(u: ManagedUser, input: ManagedInbound, c: Context)
    ensures var k := UsageKey(u.id, input.id);
            Eligible(u, input, c) <==>
            && u.enabled
            && !(u.limits.expiresAt > 0 && c.now >= u.limits.expiresAt)
            && !(u.limits.trafficBytes > 0 && u.limits.trafficUsedBytes + Get(c.pending, k) >= u.limits.trafficBytes)
            && !(u.limits.ipLimit > 0 && ToLower(input.ipLimitMode) != "off" && k in c.sessions && |c.sessions[k].ips| > u.limits.ipLimit)
  {
  }

  /** The evaluated inbound differs from the input only in `enabled` flags that fell.  A user stays enabled exactly when it was, has
      not expired, is below its quota, is within its IP limit, and, if its account has a cap, is among the first cap eligible users
      of the account. */
  lemma EvaluationMeaning(input: ManagedInbound, c: Context, j: nat)
    requires j < |input.users|
    ensures var r, u := EvaluatedUsers(input, c), input.users[j];
            var k := UsageKey(u.id, input.id);
            && |r| == |input.users| && r[j] == u.(enabled := r[j].enabled)
            && (r[j].enabled <==>
                  && u.enabled
                  && !(u.limits.expiresAt > 0 && c.now >= u.limits.expiresAt)
                  && !(u.limits.trafficBytes > 0 && u.limits.trafficUsedBytes + Get(c.pending, k) >= u.limits.trafficBytes)
                  && !(u.limits.ipLimit > 0 && ToLower(input.ipLimitMode) != "off" && k in c.sessions && |c.sessions[k].ips| > u.limits.ipLimit)
                  && (u.accountId != "" ==> forall cap :: IsCap(input, c, u.accountId, cap) ==> |MatesBefore(input, c, u.accountId, j)| < cap))
  {
    EligibleMeaning(input.users[j], input, c);
    StaysEnabled(input, c, j);
  }

  lemma StaysEnabled(input: ManagedInbound, c: Context, j: nat)
    requires j < |input.users|
    ensures var r, u := EvaluatedUsers(input, c), input.users[j];
            && |r| == |input.users| && r[j] == u.(enabled := r[j].enabled)
            && (r[j].enabled <==>
                  && Eligible(u, input, c)
                  && (u.accountId != "" ==> forall cap :: IsCap(input, c, u.accountId, cap) ==> |MatesBefore(input, c, u.accountId, j)| < cap))
  {
    var users, a := Survivors(input, c), input.users[j].accountId;
    var caps := Caps(users, |users|);
    CapsMeaning(users, |users|, a);
    MatesAreMembers(input, c, a, j);
    assert forall i :: 0 <= i < |users| && a != "" ==> (CapCandidate(input, c, a, i) <==> SetsCap(users[i]) && users[i].accountId == a);
    if a != "" {
      if a in caps {
        var k :| 0 <= k < |users| && SetsCap(users[k]) && users[k].accountId == a && users[k].limits.deviceLimit == caps[a];
        assert CapCandidate(input, c, a, k);
        assert IsCap(input, c, a, caps[a]);
        forall cap | IsCap(input, c, a, cap) ensures cap == caps[a] {
          var i :| 0 <= i < |input.users| && CapCandidate(input, c, a, i) && input.users[i].limits.deviceLimit == cap;
        }
      } else {
        assert forall i :: 0 <= i < |users| ==> !CapCandidate(input, c, a, i);
      }
    }
  }

  /** Quota: a user whose used and pending bytes reach a positive quota is not enabled in the evaluated state. */
  lemma QuotaDisables(input: ManagedInbound, c: Context, j: nat)
    requires j < |input.users| && input.users[j].limits.trafficBytes > 0
    requires input.users[j].limits.trafficUsedBytes + Get(c.pending, UsageKey(input.users[j].id, input.id)) >= input.users[j].limits.trafficBytes
    ensures |EvaluatedUsers(input, c)| == |input.users| && !EvaluatedUsers(input, c)[j].enabled
  {
    EvaluationMeaning(input, c, j);
  }

  /* ---------- Violations name exactly the users that were switched off ---------- */

  function CheckFlips(input: ManagedInbound, c: Context, n: nat): seq<nat>
    requires n <= |input.users|
  {
    if n == 0 then [] else
    CheckFlips(input, c, n - 1) + (if input.users[n - 1].enabled && Check(input.users[n - 1], input, c).Some? then [n - 1] else [])
  }

  function DeviceFlips(users: seq<ManagedUser>, caps: map<string, int>, n: nat): seq<nat>
    requires n <= |users|
  {
    if n == 0 then [] else DeviceFlips(users, caps, n - 1) + (if Surplus(users, caps, n - 1) then [n - 1] else [])
  }

  lemma {:induction false} CheckFlipsAscend(input: ManagedInbound, c: Context, n: nat)
    requires n <= |input.users|
    ensures Ascending(CheckFlips(input, c, n), n)
  {
    if n > 0 {
      CheckFlipsAscend(input, c, n - 1);
      AscendingOn(CheckFlips(input, c, n - 1), n - 1);
    }
  }

  lemma {:induction false} CheckFlipsMembers(input: ManagedInbound, c: Context, n: nat, i: int)
    requires n <= |input.users|
    ensures i in CheckFlips(input, c, n) <==> 0 <= i < n && input.users[i].enabled && Check(input.users[i], input, c).Some?
  {
    if n > 0 {
      CheckFlipsMembers(input, c, n - 1, i);
    }
  }

  lemma {:induction false} DeviceFlipsAscend(users: seq<ManagedUser>, caps: map<string, int>, n: nat)
    requires n <= |users|
    ensures Ascending(DeviceFlips(users, caps, n), n)
  {
    if n > 0 {
      DeviceFlipsAscend(users, caps, n - 1);
      AscendingOn(DeviceFlips(users, caps, n - 1), n - 1);
    }
  }

  lemma {:induction false} DeviceFlipsMembers(users: seq<ManagedUser>, caps: map<string, int>, n: nat, i: int)
    requires n <= |users|
    ensures i in DeviceFlips(users, caps, n) <==> 0 <= i < n && Surplus(users, caps, i)
  {
    if n > 0 {
      DeviceFlipsMembers(users, caps, n - 1, i);
    }
  }

  /** The violation says why user `j` was switched off: with its ID, its inbound, and the first of expiry, quota and IP limit it
      exceeds with what was observed against it; or, when it exceeds none, with its rank among the eligible users of its account
      and the account's cap, which that rank exceeds. */
  ghost predicate Explains(v: PolicyViolation, input: ManagedInbound, c: Context, j: nat)
    requires j < |input.users|
  {
    var u := input.users[j];
    var k := UsageKey(u.id, input.id);
    var used := u.limits.trafficUsedBytes + Get(c.pending, k);
    var seen := if k in c.sessions then |c.sessions[k].ips| else 0;
    && v.userId == u.id && v.inboundId == input.id
    && if u.limits.expiresAt > 0 && c.now >= u.limits.expiresAt then
         v.reason == "expired" && v.observed == c.now && v.limit == u.limits.expiresAt
       else if u.limits.trafficBytes > 0 && used >= u.limits.trafficBytes then
         v.reason == "traffic_quota" && v.observed == used && v.limit == u.limits.trafficBytes
       else if u.limits.ipLimit > 0 && ToLower(input.ipLimitMode) != "off" && seen > u.limits.ipLimit then
         v.reason == "ip_limit" && v.observed == seen && v.limit == u.limits.ipLimit
       else
         && v.reason == "device_limit" && u.accountId != "" && v.observed == |MatesBefore(input, c, u.accountId, j)| + 1
         && IsCap(input, c, u.accountId, v.limit) && v.observed > v.limit
  }

  /** Each violation explains the user at its position. */
  ghost predicate ExplainAll(flips: seq<nat>, violations: seq<PolicyViolation>, input: ManagedInbound, c: Context)
  {
    |flips| == |violations| && forall k :: 0 <= k < |flips| ==> flips[k] < |input.users| && Explains(violations[k], input, c, flips[k])
  }

  lemma ExplainMore(flips: seq<nat>, violations: seq<PolicyViolation>, input: ManagedInbound, c: Context, j: nat, v: PolicyViolation)
    requires ExplainAll(flips, violations, input, c) && j < |input.users| && Explains(v, input, c, j)
    ensures ExplainAll(flips + [j], violations + [v], input, c)
  {
  }

  lemma ExplainBoth(a: seq<nat>, v: seq<PolicyViolation>, b: seq<nat>, w: seq<PolicyViolation>, input: ManagedInbound, c: Context)
    requires ExplainAll(a, v, input, c) && ExplainAll(b, w, input, c)
    ensures ExplainAll(a + b, v + w, input, c)
  {
  }

  lemma {:induction false} ChecksExplain(input: ManagedInbound, c: Context, n: nat)
    requires n <= |input.users|
    ensures ExplainAll(CheckFlips(input, c, n), CheckViolations(input, c, n), input, c)
  {
    if n > 0 {
      ChecksExplain(input, c, n - 1);
      var u, before := input.users[n - 1], CheckFlips(input, c, n - 1);
      if u.enabled && Check(u, input, c).Some? {
        ExplainMore(before, CheckViolations(input, c, n - 1), input, c, n - 1, Check(u, input, c).value);
      } else {
        assert before + [] == before && CheckViolations(input, c, n - 1) + [] == CheckViolations(input, c, n - 1);
      }
    }
  }

  lemma SurplusExplained(input: ManagedInbound, c: Context, j: nat)
    requires j < |input.users| && Surplus(Survivors(input, c), Caps(Survivors(input, c), |input.users|), j)
    ensures var users, a := Survivors(input, c), input.users[j].accountId;
            Explains(PolicyViolation(input.users[j].id, input.id, "device_limit", Members(users, a, j) + 1, Caps(users, |users|)[a]), input, c, j)
  {
    var a := input.users[j].accountId;
    MatesAreMembers(input, c, a, j);
    CapIsCap(input, c, a);
  }

  /** The device violations of the first `n` users are explained. */
  ghost predicate DevicesExplained(input: ManagedInbound, c: Context, n: nat)
    requires n <= |input.users|
  {
    var users := Survivors(input, c);
    var caps := Caps(users, |users|);
    ExplainAll(DeviceFlips(users, caps, n), DeviceViolations(users, input.id, caps, n), input, c)
  }

  lemma DeviceExplained(input: ManagedInbound, c: Context, n: nat)
    requires n < |input.users| && DevicesExplained(input, c, n)
    ensures DevicesExplained(input, c, n + 1)
  {
    var users := Survivors(input, c);
    var caps := Caps(users, |users|);
    var before, violations := DeviceFlips(users, caps, n), DeviceViolations(users, input.id, caps, n);
    if Surplus(users, caps, n) {
      SurplusExplained(input, c, n);
      var a := input.users[n].accountId;
      ExplainMore(before, violations, input, c, n,
                  PolicyViolation(input.users[n].id, input.id, "device_limit", Members(users, a, n) + 1, caps[a]));
    } else {
      assert before + [] == before && violations + [] == violations;
    }
  }

  lemma {:induction false} DevicesExplain(input: ManagedInbound, c: Context, n: nat)
    requires n <= |input.users|
    ensures DevicesExplained(input, c, n)
  {
    if n == 0 {
      NoDeviceExplained(input, c);
    } else {
      DevicesExplain(input, c, n - 1);
      DeviceExplained(input, c, n - 1);
    }
  }

  lemma NoDeviceExplained(input: ManagedInbound, c: Context)
    ensures DevicesExplained(input, c, 0)
  {
  }

  /** The violations of an inbound are in one-to-one correspondence with the users switched off: `flips` lists the position
      each violation explains, without repetition, and lists exactly the users whose flag fell. */
  lemma ViolationsAreTheFlips(input: ManagedInbound, c: Context) returns (flips: seq<nat>)
    ensures ExplainAll(flips, InboundViolations(input, c), input, c) && NoRepeat(flips)
    ensures |EvaluatedUsers(input, c)| == |input.users|
    ensures forall i :: 0 <= i < |input.users| ==>
              (i in flips <==> input.users[i].enabled && !EvaluatedUsers(input, c)[i].enabled)
  {
    var users := Survivors(input, c);
    var caps := Caps(users, |users|);
    var a, b := CheckFlips(input, c, |input.users|), DeviceFlips(users, caps, |users|);
    flips := a + b;
    FlipsDisjoint(input, c);
    ChecksExplain(input, c, |input.users|);
    DevicesExplain(input, c, |input.users|);
    ExplainBoth(a, CheckViolations(input, c, |input.users|), b, DeviceViolations(users, input.id, caps, |users|), input, c);
    forall i | 0 <= i < |input.users| ensures i in flips <==> input.users[i].enabled && !EvaluatedUsers(input, c)[i].enabled {
      assert i in flips <==> i in a || i in b;
      FlipMeaning(input, c, i);
    }
  }

  lemma FlipsDisjoint(input: ManagedInbound, c: Context)
    ensures var users := Survivors(input, c);
            NoRepeat(CheckFlips(input, c, |input.users|) + DeviceFlips(users, Caps(users, |users|), |users|))
  {
    var users := Survivors(input, c);
    var caps := Caps(users, |users|);
    var a, b := CheckFlips(input, c, |input.users|), DeviceFlips(users, caps, |users|);
    CheckFlipsAscend(input, c, |input.users|);
    DeviceFlipsAscend(users, caps, |users|);
    forall k, l | 0 <= k < |a| && 0 <= l < |b| ensures a[k] != b[l] {
      assert a[k] in a && b[l] in b;
      FlipMeaning(input, c, a[k]);
    }
  }

  lemma FlipMeaning(input: ManagedInbound, c: Context, i: int)
    ensures var users := Survivors(input, c);
            var caps := Caps(users, |users|);
            && (i in CheckFlips(input, c, |input.users|) ==> i !in DeviceFlips(users, caps, |users|))
            && (0 <= i < |input.users| ==>
                  (i in CheckFlips(input, c, |input.users|) || i in DeviceFlips(users, caps, |users|) <==>
                     input.users[i].enabled && !EvaluatedUsers(input, c)[i].enabled))
  {
    var users := Survivors(input, c);
    CheckFlipsMembers(input, c, |input.users|, i);
    DeviceFlipsMembers(users, Caps(users, |users|), |users|, i);
  }

  /* ---------- Idempotence ---------- */

  lemma {:induction false} FewerMembers(a: seq<ManagedUser>, b: seq<ManagedUser>, account: string, n: nat)
    requires |a| == |b| && n <= |a|
    requires forall i :: 0 <= i < |a| ==> b[i] == a[i].(enabled := b[i].enabled) && (b[i].enabled ==> a[i].enabled)
    ensures Members(b, account, n) <= Members(a, account, n)
  {
    if n > 0 {
      FewerMembers(a, b, account, n - 1);
    }
  }

  lemma {:induction false} NothingToReport(input: ManagedInbound, c: Context, n: nat)
    requires n <= |input.users| && forall i :: 0 <= i < |input.users| && input.users[i].enabled ==> Check(input.users[i], input, c).None?
    ensures CheckViolations(input, c, n) == []
  {
    if n > 0 {
      NothingToReport(input, c, n - 1);
    }
  }

  lemma {:induction false} NoSurplusToReport(users: seq<ManagedUser>, inboundId: string, caps: map<string, int>, n: nat)
    requires n <= |users| && forall i :: 0 <= i < |users| ==> !Surplus(users, caps, i)
    ensures DeviceViolations(users, inboundId, caps, n) == []
  {
    if n > 0 {
      NoSurplusToReport(users, inboundId, caps, n - 1);
    }
  }

  /** Once trimmed, no account is over its cap again, whatever cap the remaining users give it. */
  lemma TrimmedHasNoSurplus(users: seq<ManagedUser>, j: nat)
    requires j < |users|
    ensures var r := Trimmed(users, Caps(users, |users|)); !Surplus(r, Caps(r, |r|), j)
  {
    var caps := Caps(users, |users|);
    var r := Trimmed(users, caps);
    var a := users[j].accountId;
    CapsMeaning(users, |users|, a);
    CapsMeaning(r, |r|, a);
    FewerMembers(users, r, a, j);
    if Surplus(r, Caps(r, |r|), j) {
      assert false;
    }
  }

  lemma InboundSettles(input: ManagedInbound, c: Context)
    ensures var again := input.(users := EvaluatedUsers(input, c));
            EvaluatedUsers(again, c) == again.users && InboundViolations(again, c) == []
  {
    var users := Survivors(input, c);
    var r := EvaluatedUsers(input, c);
    var again := input.(users := r);
    forall j | 0 <= j < |r| ensures Checked(r[j], again, c) == r[j] {
      assert Check(r[j], again, c) == Check(input.users[j], input, c);
    }
    assert Survivors(again, c) == r;
    forall j | 0 <= j < |r| ensures !Surplus(r, Caps(r, |r|), j) {
      TrimmedHasNoSurplus(users, j);
    }
    assert Trimmed(r, Caps(r, |r|)) == r;
    NothingToReport(again, c, |r|);
    NoSurplusToReport(r, again.id, Caps(r, |r|), |r|);
  }

  /** Evaluating an evaluated state changes nothing and reports nothing. */
  lemma EvaluationIsIdempotent(desired: DesiredState, c: Context)
    ensures var once := Evaluated(desired, c).state; Evaluated(once, c) == Evaluation(once, [])
  {
    var once := Evaluated(desired, c).state;
    forall i | 0 <= i < |once.inbounds|
      ensures EvaluatedUsers(once.inbounds[i], c) == once.inbounds[i].users && InboundViolations(once.inbounds[i], c) == []
    {
      InboundSettles(desired.inbounds[i], c);
    }
    assert EvaluatedInbounds(once.inbounds, c) == once.inbounds;
    NoViolations(once.inbounds, c, |once.inbounds|);
  }

  lemma {:induction false} NoViolations(inbounds: seq<ManagedInbound>, c: Context, n: nat)
    requires n <= |inbounds| && forall i :: 0 <= i < |inbounds| ==> InboundViolations(inbounds[i], c) == []
    ensures AllViolations(inbounds, c, n) == []
  {
    if n > 0 {
      NoViolations(inbounds, c, n - 1);
    }
  }

  /* ---------- Draining ---------- */

  function KeptUsers(users: seq<ManagedUser>, members: set<string>, n: nat): seq<ManagedUser>
    requires n <= |users|
  {
    if n == 0 then [] else KeptUsers(users, members, n - 1) + (if users[n - 1].id in members then [users[n - 1]] else [])
  }

  function KeptInbounds(prevById: map<string, ManagedInbound>, inbounds: seq<ManagedInbound>, n: nat): seq<ManagedInbound>
    requires n <= |inbounds|
  {
    if n == 0 then [] else
    var input := inbounds[n - 1];
    KeptInbounds(prevById, inbounds, n - 1) +
    (if input.id in prevById
     then [input.(users := KeptUsers(input.users, UserIds(prevById[input.id].users), |input.users|))] else [])
  }

  function Drained(previous: DesiredState, desired: DesiredState): DesiredState
  {
    desired.(mode := "draining",
             inbounds := KeptInbounds(InboundsById(previous.inbounds, |previous.inbounds|), desired.inbounds, |desired.inbounds|))
  }

  lemma {:induction false} KeptUsersLength(users: seq<ManagedUser>, members: set<string>, n: nat)
    requires n <= |users|
    ensures |KeptUsers(users, members, n)| <= n
  {
    if n > 0 {
      KeptUsersLength(users, members, n - 1);
    }
  }

  /** The in-place filter `users := in.Users[:0]`: the write position never passes the read position. */
  method FilterInPlace(users: array<ManagedUser>, members: set<string>) returns (kept: nat)
    modifies users
    ensures kept <= users.Length && users[..kept] == KeptUsers(old(users[..]), members, users.Length)
  {
    ghost var before := users[..];
    kept := 0;
    for i := 0 to users.Length
      invariant kept <= i && users[..kept] == KeptUsers(before, members, i)
      invariant forall k :: i <= k < users.Length ==> users[k] == before[k]
    {
      if users[i].id in members {
        users[kept] := users[i];
        kept := kept + 1;
        assert users[..kept] == users[..kept - 1] + [before[i]];
      }
    }
  }

  /** Filtering the clone leaves the array it was cloned from as it was: nothing but the clone is modified. */
  method DrainUsers(users: array<ManagedUser>, members: set<string>) returns (kept: seq<ManagedUser>)
    ensures kept == KeptUsers(users[..], members, users.Length)
  {
    var clone := CloneUsers(users[..]);
    var n := FilterInPlace(clone, members);
    kept := clone[..n];
  }

  method ApplyDrain(previous: DesiredState, desired: DesiredState) returns (r: DesiredState)
    ensures r == Drained(previous, desired)
  {
    var prevIn := CollectInboundsById(previous.inbounds);
    var kept: seq<ManagedInbound> := [];
    for i := 0 to |desired.inbounds|
      invariant kept == KeptInbounds(prevIn, desired.inbounds, i)
    {
      var input := desired.inbounds[i];
      if input.id !in prevIn {
        continue;
      }
      var backing := CloneUsers(input.users);
      var users := DrainUsers(backing, UserIds(prevIn[input.id].users));
      kept := kept + [input.(users := users)];
    }
    r := desired.(mode := "draining", inbounds := kept);
  }

  /** Effective membership: which user IDs are present under which inbound ID. */
  ghost predicate IsMember(s: DesiredState, inboundId: string, userId: string)
  {
    Lists(s.inbounds, |s.inbounds|, inboundId, userId)
  }

  ghost predicate Lists(inbounds: seq<ManagedInbound>, n: nat, inboundId: string, userId: string)
    requires n <= |inbounds|
  {
    exists i :: 0 <= i < n && HasUser(inbounds[i], inboundId, userId)
  }

  ghost predicate HasUser(input: ManagedInbound, inboundId: string, userId: string)
  {
    input.id == inboundId && NamesUser(input.users, |input.users|, userId)
  }

  ghost predicate NamesUser(users: seq<ManagedUser>, n: nat, userId: string)
    requires n <= |users|
  {
    exists j :: 0 <= j < n && users[j].id == userId
  }

  lemma ListsSnoc(inbounds: seq<ManagedInbound>, input: ManagedInbound, inboundId: string, userId: string)
    ensures Lists(inbounds + [input], |inbounds| + 1, inboundId, userId) <==>
            Lists(inbounds, |inbounds|, inboundId, userId) || HasUser(input, inboundId, userId)
  {
    var all := inbounds + [input];
    assert all[|inbounds|] == input;
    assert forall i :: 0 <= i < |inbounds| ==> all[i] == inbounds[i];
  }

  lemma {:induction false} KeptUsersMeaning(users: seq<ManagedUser>, members: set<string>, n: nat, id: string)
    requires n <= |users|
    ensures var kept := KeptUsers(users, members, n);
            NamesUser(kept, |kept|, id) <==> id in members && NamesUser(users, n, id)
  {
    if n > 0 {
      KeptUsersMeaning(users, members, n - 1, id);
      var before, now := KeptUsers(users, members, n - 1), KeptUsers(users, members, n);
      if exists j :: 0 <= j < |before| && before[j].id == id {
        var j :| 0 <= j < |before| && before[j].id == id;
        assert now[j].id == id;
      }
      if users[n - 1].id == id && id in members {
        assert now[|now| - 1].id == id;
      }
    }
  }

  lemma {:induction false} KeptInboundsMeaning(prevById: map<string, ManagedInbound>, inbounds: seq<ManagedInbound>, n: nat, inboundId: string, userId: string)
    requires n <= |inbounds|
    ensures var kept := KeptInbounds(prevById, inbounds, n);
            Lists(kept, |kept|, inboundId, userId) <==>
            inboundId in prevById && userId in UserIds(prevById[inboundId].users) && Lists(inbounds, n, inboundId, userId)
  {
    if n > 0 {
      KeptInboundsMeaning(prevById, inbounds, n - 1, inboundId, userId);
      var before, input := KeptInbounds(prevById, inbounds, n - 1), inbounds[n - 1];
      assert Lists(inbounds, n, inboundId, userId) <==> Lists(inbounds, n - 1, inboundId, userId) || HasUser(input, inboundId, userId);
      if input.id in prevById {
        var members := UserIds(prevById[input.id].users);
        KeptUsersMeaning(input.users, members, |input.users|, userId);
        var trimmed := input.(users := KeptUsers(input.users, members, |input.users|));
        assert HasUser(trimmed, inboundId, userId) <==> HasUser(input, inboundId, userId) && userId in members;
        ListsSnoc(before, trimmed, inboundId, userId);
        assert KeptInbounds(prevById, inbounds, n) == before + [trimmed];
      } else {
        assert before + [] == before;
      }
    }
  }

  /** Draining keeps exactly the desired members that were members before. */
  lemma DrainMeaning(previous: DesiredState, desired: DesiredState, inboundId: string, userId: string)
    requires UniqueIds(previous.inbounds)
    ensures IsMember(Drained(previous, desired), inboundId, userId) <==>
            IsMember(previous, inboundId, userId) && IsMember(desired, inboundId, userId)
  {
    KeptInboundsMeaning(InboundsById(previous.inbounds, |previous.inbounds|), desired.inbounds, |desired.inbounds|, inboundId, userId);
    MembershipById(previous, inboundId, userId);
  }

  lemma MembershipById(s: DesiredState, inboundId: string, userId: string)
    requires UniqueIds(s.inbounds)
    ensures var byId := InboundsById(s.inbounds, |s.inbounds|);
            inboundId in byId && userId in UserIds(byId[inboundId].users) <==> IsMember(s, inboundId, userId)
  {
    var byId := InboundsById(s.inbounds, |s.inbounds|);
    InboundsByIdKeys(s.inbounds, |s.inbounds|);
    if IsMember(s, inboundId, userId) {
      var i :| 0 <= i < |s.inbounds| && HasUser(s.inbounds[i], inboundId, userId);
      var j :| 0 <= j < |s.inbounds[i].users| && s.inbounds[i].users[j].id == userId;
      assert byId[inboundId] == s.inbounds[i];
      assert s.inbounds[i].users[j] in s.inbounds[i].users;
    }
    if inboundId in byId && userId in UserIds(byId[inboundId].users) {
      var i :| 0 <= i < |s.inbounds| && s.inbounds[i] == byId[inboundId] && s.inbounds[i].id == inboundId;
      var u :| u in s.inbounds[i].users && u.id == userId;
      var j :| 0 <= j < |s.inbounds[i].users| && s.inbounds[i].users[j] == u;
      assert HasUser(s.inbounds[i], inboundId, userId);
      assert IsMember(s, inboundId, userId);
    }
  }

  lemma EvaluationKeepsMembers(s: DesiredState, c: Context, inboundId: string, userId: string)
    ensures IsMember(Evaluated(s, c).state, inboundId, userId) <==> IsMember(s, inboundId, userId)
  {
    var r := Evaluated(s, c).state;
    assert forall i :: 0 <= i < |s.inbounds| ==> r.inbounds[i] == s.inbounds[i].(users := EvaluatedUsers(s.inbounds[i], c));
    forall i | 0 <= i < |s.inbounds| ensures HasUser(r.inbounds[i], inboundId, userId) <==> HasUser(s.inbounds[i], inboundId, userId) {
      forall j | 0 <= j < |s.inbounds[i].users| ensures r.inbounds[i].users[j].id == s.inbounds[i].users[j].id {
        EvaluationMeaning(s.inbounds[i], c, j);
      }
    }
  }

  lemma {:induction false} KeptInboundsUnique(prevById: map<string, ManagedInbound>, inbounds: seq<ManagedInbound>, n: nat)
    requires n <= |inbounds| && UniqueIds(inbounds)
    ensures UniqueIds(KeptInbounds(prevById, inbounds, n))
    ensures forall k :: 0 <= k < |KeptInbounds(prevById, inbounds, n)| ==>
              exists i :: 0 <= i < n && inbounds[i].id == KeptInbounds(prevById, inbounds, n)[k].id
  {
    if n > 0 {
      KeptInboundsUnique(prevById, inbounds, n - 1);
    }
  }

  /** `states` are the persisted states of consecutive draining syncs. */
  ghost predicate IsDrainRun(states: seq<DesiredState>, desired: seq<DesiredState>, contexts: seq<Context>)
  {
    && |desired| == |contexts| && |states| == |desired| + 1
    && forall i :: 0 <= i < |desired| ==> DrainsAt(states, desired, contexts, i)
  }

  ghost predicate DrainsAt(states: seq<DesiredState>, desired: seq<DesiredState>, contexts: seq<Context>, i: nat)
    requires i < |desired| == |contexts| && |states| == |desired| + 1
  {
    states[i + 1] == Evaluated(Drained(states[i], desired[i]), contexts[i]).state
  }

  ghost predicate AllUnique(states: seq<DesiredState>)
  {
    forall i :: 0 <= i < |states| ==> UniqueIds(states[i].inbounds)
  }

  lemma DrainStepUnique(before: DesiredState, desired: DesiredState, c: Context)
    requires UniqueIds(desired.inbounds)
    ensures UniqueIds(Evaluated(Drained(before, desired), c).state.inbounds)
  {
    KeptInboundsUnique(InboundsById(before.inbounds, |before.inbounds|), desired.inbounds, |desired.inbounds|);
  }

  lemma {:induction false} DrainRunUnique(states: seq<DesiredState>, desired: seq<DesiredState>, contexts: seq<Context>, i: nat)
    requires IsDrainRun(states, desired, contexts) && i < |states| && UniqueIds(states[0].inbounds) && AllUnique(desired)
    ensures UniqueIds(states[i].inbounds)
  {
    if i > 0 {
      assert DrainsAt(states, desired, contexts, i - 1);
      DrainStepUnique(states[i - 1], desired[i - 1], contexts[i - 1]);
    }
  }

  lemma DrainStep(before: DesiredState, desired: DesiredState, c: Context, inboundId: string, userId: string)
    requires UniqueIds(before.inbounds)
    ensures IsMember(Evaluated(Drained(before, desired), c).state, inboundId, userId) <==>
            IsMember(before, inboundId, userId) && IsMember(desired, inboundId, userId)
  {
    DrainMeaning(before, desired, inboundId, userId);
    EvaluationKeepsMembers(Drained(before, desired), c, inboundId, userId);
  }

  lemma DrainRunStep(states: seq<DesiredState>, desired: seq<DesiredState>, contexts: seq<Context>, i: nat, inboundId: string, userId: string)
    requires IsDrainRun(states, desired, contexts) && i < |desired| && UniqueIds(states[0].inbounds) && AllUnique(desired)
    ensures IsMember(states[i + 1], inboundId, userId) <==>
            IsMember(states[i], inboundId, userId) && IsMember(desired[i], inboundId, userId)
  {
    DrainRunUnique(states, desired, contexts, i);
    assert DrainsAt(states, desired, contexts, i);
    DrainStep(states[i], desired[i], contexts[i], inboundId, userId);
  }

  /** Over any run of draining syncs membership only shrinks: a member after sync `n` is one that was a member after every
      earlier sync `m` and that every desired state in between wants. */
  lemma {:induction false} DrainingOnlyShrinks(states: seq<DesiredState>, desired: seq<DesiredState>, contexts: seq<Context>,
                                               m: nat, n: nat, inboundId: string, userId: string)
    requires IsDrainRun(states, desired, contexts) && UniqueIds(states[0].inbounds) && AllUnique(desired)
    requires m <= n < |states|
    ensures IsMember(states[n], inboundId, userId) <==>
            IsMember(states[m], inboundId, userId) && forall i :: m <= i < n ==> IsMember(desired[i], inboundId, userId)
  {
    if m < n {
      DrainingOnlyShrinks(states, desired, contexts, m, n - 1, inboundId, userId);
      DrainRunStep(states, desired, contexts, n - 1, inboundId, userId);
    }
  }

  /* ---------- Usage maps ---------- */

  /** The bytes the records charge to a key; nameless and non-positive records are skipped. */
  function Usage(records: seq<TrafficRecord>, n: nat, k: UsageKey): nat
    requires n <= |records|
  {
    if n == 0 then 0 else
    var r := records[n - 1];
    Usage(records, n - 1, k) +
    (if r.userId != "" && r.inboundId != "" && r.value > 0 && UsageKey(r.userId, r.inboundId) == k then r.value else 0)
  }

  method PendingUsage(records: seq<TrafficRecord>) returns (usage: map<UsageKey, int>)
    ensures forall k :: Get(usage, k) == Usage(records, |records|, k)
  {
    usage := map[];
    for i := 0 to |records|
      invariant forall k :: Get(usage, k) == Usage(records, i, k)
    {
      var r := records[i];
      if r.userId == "" || r.inboundId == "" || r.value <= 0 {
        continue;
      }
      var k := UsageKey(r.userId, r.inboundId);
      usage := usage[k := Get(usage, k) + r.value];
    }
  }

  method MergeUsage(dst: map<UsageKey, int>, src: map<UsageKey, int>) returns (r: map<UsageKey, int>)
    ensures forall k :: Get(r, k) == Get(dst, k) + Get(src, k)
  {
    r := dst;
    var todo := src.Keys;
    while todo != {}
      invariant todo <= src.Keys
      invariant forall k :: Get(r, k) == Get(dst, k) + (if k in src && k !in todo then src[k] else 0)
      decreases |todo|
    {
      var k :| k in todo;
      r := r[k := Get(r, k) + src[k]];
      todo := todo - {k};
    }
  }
}
