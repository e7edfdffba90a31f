/** What one synchronisation does, told on the panel's answer and what was read before it: when the node starts to drain, who is a
    member, whom the policy document blocks, what is reported, and when Xray runs afterwards. */
module SyncMeaning {
  import opened Model
  import opened Text
  import opened Order
  import opened Accounting
  import opened Builder
  import opened Policy
  import opened PolicyFile
  import opened Process
  import opened Agent
  import AccessLog
  import Limiter
  import Reconcile
  import Runtime
  import SessionReports
  import Tracker

  /* ---------- The answer ---------- */

  /** Without an answer, or with an unknown mode in it, nothing changes. */
  lemma UnusableAnswerChangesNothing(v: View, x: Inputs)
    requires x.desired.None? || (var m := x.desired.value.mode;
                                 m != "" && m != "active" && m != "draining" && m != "maintenance" && m != "disabled")
    ensures Synced(v, x) == v
  {
  }

  /** Any other answer is accepted. */
  lemma UsableAnswer(x: Inputs)
    ensures Accepted(x) <==>
            x.desired.Some? && (var m := x.desired.value.mode;
                                m == "" || m == "active" || m == "draining" || m == "maintenance" || m == "disabled")
  {
  }

  /* ---------- The mode ---------- */

  /** A node drains when it is told to, or when a positive traffic threshold is reached and it is neither disabled nor in
      maintenance; otherwise the mode is the panel's. */
  lemma NextMode(persisted: Option<DesiredState>, x: Inputs)
    requires x.desired.Some?
    ensures var d, next := x.desired.value, NextState(persisted, x);
            && (next.mode == "draining" <==>
                  || d.mode == "draining"
                  || (d.node.trafficThresholdBytes > 0 && d.node.trafficUsedBytes >= d.node.trafficThresholdBytes
                      && d.mode != "disabled" && d.mode != "maintenance"))
            && (next.mode != "draining" ==> next.mode == d.mode)
            && next.(mode := d.mode, inbounds := d.inbounds) == d
  {
  }

  /** The mode that is persisted, written to the policy document and shown in the status. */
  lemma SyncedMode(v: View, x: Inputs)
    requires Accepted(x)
    ensures var d, w := x.desired.value, Synced(v, x);
            var drains := d.mode == "draining" ||
                          (d.node.trafficThresholdBytes > 0 && d.node.trafficUsedBytes >= d.node.trafficThresholdBytes
                           && d.mode != "disabled" && d.mode != "maintenance");
            var mode := if drains then "draining" else if d.mode == "" then "active" else d.mode;
            && w.status.mode == mode
            && (x.policyWritten ==> w.policy.Some? && w.policy.value.mode == mode && w.policy.value.version == 1 && w.policy.value.generatedAt == x.now)
            && (!x.policyWritten ==> w.policy == v.policy && w.persisted == v.persisted && w.node == v.node)
            && (w.persisted != v.persisted ==> w.persisted.Some? && w.persisted.value.mode == if drains then "draining" else d.mode)
  {
    NextMode(v.persisted, x);
    SyncedPersisted(v, x);
    ModesAgree(v, x);
  }

  lemma ModesAgree(v: View, x: Inputs)
    requires Accepted(x)
    ensures var next, w := NextState(v.persisted, x), Synced(v, x);
            && w.status.mode == (if next.mode == "" then "active" else next.mode)
            && (x.policyWritten ==> w.policy == Some(Written(v.policy, next, x.now)))
            && (!x.policyWritten ==> w.policy == v.policy && w.persisted == v.persisted && w.node == v.node)
  {
  }

  /* ---------- The members ---------- */

  /** While it drains a node keeps of the desired members those it had; otherwise it has exactly the desired ones. */
  lemma NextMembers(persisted: Option<DesiredState>, x: Inputs, inboundId: string, userId: string)
    requires x.desired.Some? && (persisted.Some? ==> UniqueIds(persisted.value.inbounds))
    ensures var next := NextState(persisted, x);
            IsMember(next, inboundId, userId) <==>
            && IsMember(x.desired.value, inboundId, userId)
            && (next.mode == "draining" && persisted.Some? ==> IsMember(persisted.value, inboundId, userId))
  {
    var desired := x.desired.value;
    var d := if OverThreshold(desired) then desired.(mode := "draining") else desired;
    NextMode(persisted, x);
    EvaluationKeepsMembers(Effective(persisted, desired), ContextOf(x), inboundId, userId);
    assert IsMember(d, inboundId, userId) <==> IsMember(desired, inboundId, userId);
    if d.mode == "draining" && persisted.Some? {
      DrainMeaning(persisted.value, d, inboundId, userId);
    }
  }

  /* ---------- The policy document ---------- */

  /** A user of the evaluated state is blocked by the document exactly when it is not enabled. */
  lemma BlockedMeansDisabled(v: View, x: Inputs, i: nat, j: nat, e: string, second: int)
    requires Accepted(x) && x.policyWritten && LastUser(NextState(v.persisted, x).inbounds, i, j, e)
    ensures Limiter.PolicyFor(OldUsers(Synced(v, x).policy), e, second).blocked <==> !NextState(v.persisted, x).inbounds[i].users[j].enabled
  {
    SyncedPolicy(v, x);
    PolicyOfLastUser(v.policy, NextState(v.persisted, x), x.now, i, j, e);
  }

  /** The user has a reason to be switched off: it is off already, has expired by now, has used up its quota with pending bytes counted
      in, or has been seen from too many addresses. */
  predicate OffByItself(u: ManagedUser, input: ManagedInbound, x: Inputs)
  {
    var k, seen := UsageKey(u.id, input.id), SessionsByKey(x.sessions, |x.sessions|);
    || !u.enabled
    || (u.limits.expiresAt > 0 && x.now >= u.limits.expiresAt)
    || (u.limits.trafficBytes > 0 && u.limits.trafficUsedBytes + Get(x.pending, k) >= u.limits.trafficBytes)
    || (u.limits.ipLimit > 0 && ToLower(input.ipLimitMode) != "off" && k in seen && |seen[k].ips| > u.limits.ipLimit)
  }

  /** The account of the user has a cap, and as many eligible users before this one. */
  ghost predicate BeyondCap(input: ManagedInbound, c: Context, j: nat)
    requires j < |input.users|
  {
    var a := input.users[j].accountId;
    a != "" && exists cap :: IsCap(input, c, a, cap) && |MatesBefore(input, c, a, j)| >= cap
  }

  lemma NextUser(d: DesiredState, x: Inputs, i: nat, j: nat)
    requires Names(d, i, j)
    ensures var state := Evaluated(d, ContextOf(x)).state;
            Names(state, i, j) &&
            (state.inbounds[i].users[j].enabled <==>
               !OffByItself(d.inbounds[i].users[j], d.inbounds[i], x) &&
               !BeyondCap(d.inbounds[i], Context(SessionsByKey(x.sessions, |x.sessions|), x.pending, x.now), j))
  {
    EvaluatedAt(d, ContextOf(x), i, j);
    EvaluationMeaning(d.inbounds[i], ContextOf(x), j);
  }

  /** The document of a synchronisation blocks exactly the users that are off by themselves or beyond the cap of their account. */
  lemma DocumentBlocks(v: View, x: Inputs, i: nat, j: nat, e: string, second: int)
    requires Accepted(x) && x.policyWritten && Names(Effective(v.persisted, x.desired.value), i, j)
    requires LastUser(NextState(v.persisted, x).inbounds, i, j, e)
    ensures var input := Effective(v.persisted, x.desired.value).inbounds[i];
            Limiter.PolicyFor(OldUsers(Synced(v, x).policy), e, second).blocked <==>
            OffByItself(input.users[j], input, x) || BeyondCap(input, Context(SessionsByKey(x.sessions, |x.sessions|), x.pending, x.now), j)
  {
    BlockedMeansDisabled(v, x, i, j, e, second);
    NextUser(Effective(v.persisted, x.desired.value), x, i, j);
  }

  /* ---------- The status ---------- */

  /** A draining node is ready when no more distinct users are online than its target, which is at least zero. */
  lemma DrainReadyMeaning(v: View, x: Inputs)
    requires Accepted(x)
    ensures Synced(v, x).status.drainReady <==>
            && NextState(v.persisted, x).mode == "draining"
            && |set r | r in x.sessions && |r.ips| > 0 :: r.userId| <= (var t := x.desired.value.node.drainTargetOnline; if t < 0 then 0 else t)
  {
    NextMode(v.persisted, x);
    assert Online(x.sessions) == set r | r in x.sessions && |r.ips| > 0 :: r.userId;
    PreparedStatus(v, x);
  }

  lemma PreparedStatus(v: View, x: Inputs)
    requires Accepted(x)
    ensures Synced(v, x).status.drainReady == DrainReady(NextState(v.persisted, x), x.sessions)
  {
  }

  lemma FinishedStatus(v: View, x: Inputs)
    requires Accepted(x) && x.policyWritten
    requires Completed(Reconcile.State(v.persisted, v.node), NextState(v.persisted, x), x.env)
    ensures var next, w := NextState(v.persisted, x), Synced(v, x);
            && w.status.stateVersion == next.version
            && w.status.strictReady == (!NeedsPatch(w.policy, x.now) || (Reconcile.Serving(next) && x.patched))
            && w.persisted == if x.persists then Some(next) else v.persisted
  {
  }

  /** No entry of the document needs the patched core. */
  ghost predicate NothingStrict(doc: CorePolicyFile, now: nat)
  {
    forall e :: e in doc.users ==> !Strict(doc.users[e], now)
  }

  lemma NoPatchNeeded(policy: Option<CorePolicyFile>, now: nat)
    requires policy.Some? && policy.value.version == 1
    ensures NeedsPatch(policy, now) <==> !NothingStrict(policy.value, now)
  {
    assert OldUsers(policy) == policy.value.users;
    if NeedsPatch(policy, now) {
      var e :| e in OldUsers(policy) && Strict(OldUsers(policy)[e], now);
    }
    if !NothingStrict(policy.value, now) {
      var e :| e in policy.value.users && Strict(policy.value.users[e], now);
      assert e in OldUsers(policy) && Strict(OldUsers(policy)[e], now);
    }
  }

  /** Once the process side has gone through, the node is ready for strict policies when no entry of the new document needs the
      patched core, or Xray is to run and has it. */
  lemma StrictReadyMeaning(v: View, x: Inputs)
    requires Accepted(x) && x.policyWritten
    requires Completed(Reconcile.State(v.persisted, v.node), NextState(v.persisted, x), x.env)
    ensures var next, w := NextState(v.persisted, x), Synced(v, x);
            && w.status.stateVersion == x.desired.value.version && w.policy.Some?
            && (w.status.strictReady <==>
                  || NothingStrict(w.policy.value, x.now)
                  || (next.enabled && next.mode != "disabled" && next.mode != "maintenance" && x.patched))
            && w.persisted == if x.persists then Some(next) else v.persisted
  {
    NextMode(v.persisted, x);
    FinishedStatus(v, x);
    SyncedPolicy(v, x);
    NoPatchNeeded(Synced(v, x).policy, x.now);
  }

  /* ---------- The process ---------- */

  /** A state that is not to be served stops Xray and is persisted, whatever else could go wrong. */
  lemma UnservedStops(v: View, x: Inputs)
    requires Accepted(x) && x.policyWritten && x.persists
    requires var next := NextState(v.persisted, x); !next.enabled || next.mode == "disabled" || next.mode == "maintenance"
    ensures var w := Synced(v, x);
            w.persisted == Some(NextState(v.persisted, x)) && w.node == v.node.(live := None)
  {
  }

  /** The outside lets everything go through. */
  predicate AllGoesWell(x: Inputs)
  {
    && x.policyWritten && x.persists
    && x.env.valid && x.env.starts && !x.env.dies && x.env.healthy
    && x.env.store == x.env.force == x.env.apply == x.env.recover == Reconcile.AllGood
  }

  lemma HotRuns(n: Node, plan: Runtime.RuntimePlan, cfg: Config, env: Reconcile.Env)
    requires n.live.Some?
    ensures var (m, outcome) := Reconcile.Hot(Reconcile.AsWritten, n, plan, cfg, env); outcome.Changed? && m.live.Some?
  {
  }

  lemma AppliedRuns(n: Node, cfg: Config)
    ensures var (m, outcome) := Applied(n, cfg, true, Reconcile.AllGood);
            && m.config == Some(cfg) && !outcome.Failed? && (outcome.Changed? ==> m.live.Some?)
            && (outcome.Unchanged? ==> m == n)
  {
  }

  lemma ConvergedRuns(s: Reconcile.State, state: DesiredState, cfg: Config, env: Reconcile.Env)
    requires env.valid && env.starts && env.store == env.force == env.apply == Reconcile.AllGood
    ensures var (n, outcome) := Reconcile.Converged(Reconcile.AsWritten, s, state, cfg, env); !outcome.Failed? && n.live.Some?
  {
    if s.node.live.Some? && s.persisted.Some? {
      HotRuns(s.node, Runtime.PlanOf(s.persisted.value, state), cfg, env);
    }
    Reconcile.ForcedSwitch(s.node, cfg);
    AppliedRuns(s.node, cfg);
  }

  /** When everything goes through, the state is persisted, and Xray runs afterwards exactly when the node is enabled and neither
      disabled nor in maintenance. */
  lemma GoodSyncServes(v: View, x: Inputs)
    requires Accepted(x) && AllGoesWell(x) && ConfigOf(NextState(v.persisted, x)).Ok?
    ensures var next, w := NextState(v.persisted, x), Synced(v, x);
            && w.persisted == Some(next)
            && (w.node.live.Some? <==> next.enabled && next.mode != "disabled" && next.mode != "maintenance")
  {
    var state := NextState(v.persisted, x);
    if Reconcile.Serving(state) {
      ConvergedRuns(Reconcile.State(v.persisted, v.node), state, ConfigOf(state).value, x.env);
    }
  }

  /* ---------- The sessions ---------- */

  /** The policy is evaluated on Xray's own online sessions when it runs and answers, and on the rows of the access log otherwise. */
  lemma SessionsMeaning(sessions: seq<SessionRecord>, items: Tracker.Items, running: bool, r: Readings)
    requires SessionsFrom(sessions, items, running, r)
    ensures running && r.exact.Some? ==> sessions == r.exact.value
    ensures !running || r.exact.None? ==>
              exists rows: seq<SessionRecord> :: Tracker.IsReport(rows, items) && |rows| == |sessions| &&
                             forall i :: 0 <= i < |rows| ==> sessions[i] == rows[i].(source := "access-log")
  {
    if !running || r.exact.None? {
      var rows: seq<SessionRecord> :| Tracker.IsReport(rows, items) && Marked(rows, sessions);
    }
  }

  function AddressLists(sessions: seq<SessionRecord>): seq<seq<string>>
  {
    seq(|sessions|, i requires 0 <= i < |sessions| => sessions[i].ips)
  }

  /** The number of tracked addresses: all rows' addresses, one list after the other. */
  lemma {:induction false} TrackedAddresses(sessions: seq<SessionRecord>, n: nat)
    requires n <= |sessions|
    ensures TotalIps(sessions, n) == |Flat(AddressLists(sessions), n)|
  {
    if n > 0 {
      TrackedAddresses(sessions, n - 1);
    }
  }
}
