/** What an evaluation and a drained state are as a whole: each field, each user and each violation, by position. */
module PolicyMeaning {
  import opened Model
  import opened Order
  import opened Text
  import opened Policy

  /* ---------- Evaluation ---------- */

  /** Of several session records of one user the last one counts, and a user without one has been seen from nowhere. */
  lemma {:induction false} SessionsByKeyMeaning(sessions: seq<SessionRecord>, n: nat, k: UsageKey)
    requires n <= |sessions|
    ensures k in SessionsByKey(sessions, n) <==> exists i :: 0 <= i < n && sessions[i].userId == k.userId && sessions[i].inboundId == k.inboundId
    ensures k in SessionsByKey(sessions, n) ==>
              exists i :: 0 <= i < n && sessions[i] == SessionsByKey(sessions, n)[k] && RecordIsLast(sessions, n, i, k)
  {
    if n > 0 {
      SessionsByKeyMeaning(sessions, n - 1, k);
      if UsageKey(sessions[n - 1].userId, sessions[n - 1].inboundId) == k {
        assert RecordIsLast(sessions, n, n - 1, k);
      } else if k in SessionsByKey(sessions, n - 1) {
        var i :| 0 <= i < n - 1 && sessions[i] == SessionsByKey(sessions, n - 1)[k] && RecordIsLast(sessions, n - 1, i, k);
        assert RecordIsLast(sessions, n, i, k);
      }
    }
  }

  ghost predicate RecordIsLast(sessions: seq<SessionRecord>, n: nat, i: nat, k: UsageKey)
    requires i < n <= |sessions|
  {
    && sessions[i].userId == k.userId && sessions[i].inboundId == k.inboundId
    && forall m :: i < m < n ==> !(sessions[m].userId == k.userId && sessions[m].inboundId == k.inboundId)
  }

  /** Nothing of the state changes but the users of its inbounds, and each inbound is evaluated for itself. */
  lemma EvaluatedState(desired: DesiredState, c: Context)
    ensures var state := Evaluated(desired, c).state;
            && state.(inbounds := []) == desired.(inbounds := []) && |state.inbounds| == |desired.inbounds|
            && forall i :: 0 <= i < |desired.inbounds| ==>
                 state.inbounds[i] == desired.inbounds[i].(users := EvaluatedUsers(desired.inbounds[i], c))
  {
  }

  /** A user of the state, by inbound and position. */
  datatype Position = Position(inbound: nat, user: nat)

  ghost predicate SwitchedOff(desired: DesiredState, c: Context, p: Position)
  {
    && p.inbound < |desired.inbounds| && p.user < |desired.inbounds[p.inbound].users|
    && |EvaluatedUsers(desired.inbounds[p.inbound], c)| == |desired.inbounds[p.inbound].users|
    && desired.inbounds[p.inbound].users[p.user].enabled && !EvaluatedUsers(desired.inbounds[p.inbound], c)[p.user].enabled
  }

  ghost predicate ExplainsAt(v: PolicyViolation, desired: DesiredState, c: Context, p: Position)
  {
    && p.inbound < |desired.inbounds| && p.user < |desired.inbounds[p.inbound].users|
    && Explains(v, desired.inbounds[p.inbound], c, p.user)
  }

  /** The violations of the first `n` inbounds are those of the users switched off there. */
  ghost predicate Explained(flips: seq<Position>, violations: seq<PolicyViolation>, desired: DesiredState, c: Context, n: nat)
  {
    && |flips| == |violations| && NoRepeat(flips)
    && (forall k :: 0 <= k < |flips| ==> ExplainsAt(violations[k], desired, c, flips[k]))
    && forall p: Position :: p in flips <==> p.inbound < n && SwitchedOff(desired, c, p)
  }

  function PositionsIn(i: nat, flips: seq<nat>): seq<Position>
  {
    seq(|flips|, k requires 0 <= k < |flips| => Position(i, flips[k]))
  }

  lemma OneInboundExplained(desired: DesiredState, c: Context, i: nat) returns (flips: seq<Position>)
    requires i < |desired.inbounds|
    ensures |flips| == |InboundViolations(desired.inbounds[i], c)| && NoRepeat(flips)
    ensures forall k :: 0 <= k < |flips| ==> ExplainsAt(InboundViolations(desired.inbounds[i], c)[k], desired, c, flips[k])
    ensures forall p: Position :: p in flips <==> p.inbound == i && SwitchedOff(desired, c, p)
  {
    var users := ViolationsAreTheFlips(desired.inbounds[i], c);
    flips := PositionsIn(i, users);
    forall p: Position ensures p in flips <==> p.inbound == i && SwitchedOff(desired, c, p) {
      if p in flips {
        var k :| 0 <= k < |flips| && flips[k] == p;
        assert users[k] in users;
      }
      if p.inbound == i && SwitchedOff(desired, c, p) {
        var k :| 0 <= k < |users| && users[k] == p.user;
        assert flips[k] == p;
      }
    }
  }

  lemma MoreExplained(a: seq<Position>, v: seq<PolicyViolation>, b: seq<Position>, w: seq<PolicyViolation>, desired: DesiredState, c: Context, i: nat)
    requires Explained(a, v, desired, c, i) && |b| == |w| && NoRepeat(b)
    requires forall k :: 0 <= k < |b| ==> ExplainsAt(w[k], desired, c, b[k])
    requires forall p: Position :: p in b <==> p.inbound == i && SwitchedOff(desired, c, p)
    ensures Explained(a + b, v + w, desired, c, i + 1)
  {
    forall k, l | 0 <= k < |a| && 0 <= l < |b| ensures a[k] != b[l] {
      assert a[k] in a && b[l] in b;
    }
    forall p: Position ensures p in a + b <==> p.inbound < i + 1 && SwitchedOff(desired, c, p) {
    }
  }

  /** Over the whole state: each violation explains one user that was switched off, and each such user has one. */
  lemma {:induction false} AllViolationsExplained(desired: DesiredState, c: Context, n: nat) returns (flips: seq<Position>)
    requires n <= |desired.inbounds|
    ensures Explained(flips, AllViolations(desired.inbounds, c, n), desired, c, n)
  {
    if n == 0 {
      flips := [];
    } else {
      var before := AllViolationsExplained(desired, c, n - 1);
      var more := OneInboundExplained(desired, c, n - 1);
      MoreExplained(before, AllViolations(desired.inbounds, c, n - 1), more, InboundViolations(desired.inbounds[n - 1], c), desired, c, n - 1);
      flips := before + more;
    }
  }

  /* ---------- Draining ---------- */

  function MemberOf(members: set<string>): ManagedUser -> bool
  {
    (u: ManagedUser) => u.id in members
  }

  /** What is left of the users are exactly those that were members, unchanged and in order. */
  lemma {:induction false} KeptUsersAre(users: seq<ManagedUser>, members: set<string>, n: nat)
    requires n <= |users|
    ensures Filters(KeptUsers(users, members, n), users, MemberOf(members), n)
  {
    if n > 0 {
      KeptUsersAre(users, members, n - 1);
      FiltersOn(KeptUsers(users, members, n - 1), users, MemberOf(members), n - 1);
      assert KeptUsers(users, members, n - 1) + [] == KeptUsers(users, members, n - 1);
    }
  }

  function WasThere(prevById: map<string, ManagedInbound>): ManagedInbound -> bool
  {
    (input: ManagedInbound) => input.id in prevById
  }

  /** The inbound without the users that its old version does not have. */
  function Trimmed(prevById: map<string, ManagedInbound>, input: ManagedInbound): ManagedInbound
    requires input.id in prevById
  {
    input.(users := KeptUsers(input.users, UserIds(prevById[input.id].users), |input.users|))
  }

  /** What is left of the inbounds are exactly those that were there before, trimmed and in order. */
  lemma {:induction false} KeptInboundsAre(prevById: map<string, ManagedInbound>, inbounds: seq<ManagedInbound>, n: nat)
    requires n <= |inbounds|
    ensures var kept, at := KeptInbounds(prevById, inbounds, n), Where(inbounds, WasThere(prevById), n);
            |kept| == |at| && forall k :: 0 <= k < |at| ==>
                                at[k] < n && inbounds[at[k]].id in prevById && kept[k] == Trimmed(prevById, inbounds[at[k]])
  {
    if n > 0 {
      KeptInboundsAre(prevById, inbounds, n - 1);
      assert KeptInbounds(prevById, inbounds, n - 1) + [] == KeptInbounds(prevById, inbounds, n - 1);
    }
  }

  /** A drained state is the desired one in mode draining, with what it keeps of its inbounds. */
  lemma DrainedState(previous: DesiredState, desired: DesiredState)
    ensures var r, prevById := Drained(previous, desired), InboundsById(previous.inbounds, |previous.inbounds|);
            var at := Where(desired.inbounds, WasThere(prevById), |desired.inbounds|);
            && r.mode == "draining" && r.(mode := desired.mode, inbounds := desired.inbounds) == desired
            && |r.inbounds| == |at|
            && forall k :: 0 <= k < |at| ==> at[k] < |desired.inbounds| && desired.inbounds[at[k]].id in prevById &&
                                             r.inbounds[k] == Trimmed(prevById, desired.inbounds[at[k]])
  {
    KeptInboundsAre(InboundsById(previous.inbounds, |previous.inbounds|), desired.inbounds, |desired.inbounds|);
  }
}
