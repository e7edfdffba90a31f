/** One synchronisation of the agent (internal/agent/agent.go), from the persisted state to the next one.  What the outside
    decides is an input; heartbeats, node metadata, session reports and the external limiter are not part of this model. */
module Agent {
  import opened Model
  import opened Text
  import opened Order
  import opened Accounting
  import opened Builder
  import opened Runtime
  import opened Policy
  import opened PolicyFile
  import opened Process
  import AccessLog
  import Limiter
  import Reconcile
  import SessionReports
  import Tracker
  import Traffic

  /** `desired` is None when the panel does not answer; `pending` is what `Spool.PendingUsage` returned. */
  datatype Inputs = Inputs(
    desired: Option<DesiredState>, sessions: seq<SessionRecord>, pending: map<UsageKey, int>, now: nat,
    policyWritten: bool, env: Reconcile.Env, persists: bool, patched: bool)

  datatype Status = Status(mode: string, drainReady: bool, strictReady: bool, stateVersion: string)

  /** Everything a synchronisation reads and changes. */
  datatype View = View(persisted: Option<DesiredState>, node: Node, policy: Option<CorePolicyFile>, status: Status)

  predicate ValidMode(mode: string)
  {
    mode in ["", "active", "draining", "maintenance", "disabled"]
  }

  predicate OverThreshold(s: DesiredState)
  {
    && s.node.trafficThresholdBytes > 0 && s.node.trafficUsedBytes >= s.node.trafficThresholdBytes
    && s.mode != "disabled" && s.mode != "maintenance"
  }

  /** The state to evaluate: a node over its traffic threshold drains, and a draining node keeps only its old members. */
  function Effective(persisted: Option<DesiredState>, desired: DesiredState): DesiredState
  {
    var d := if OverThreshold(desired) then desired.(mode := "draining") else desired;
    if d.mode == "draining" && persisted.Some? then Drained(persisted.value, d) else d
  }

  function ContextOf(x: Inputs): Context
  {
    Context(SessionsByKey(x.sessions, |x.sessions|), x.pending, x.now)
  }

  function NextState(persisted: Option<DesiredState>, x: Inputs): DesiredState
    requires x.desired.Some?
  {
    Evaluated(Effective(persisted, x.desired.value), ContextOf(x)).state
  }

  function Online(sessions: seq<SessionRecord>): set<string>
  {
    set r | r in sessions && r.ips != [] :: r.userId
  }

  function DrainReady(state: DesiredState, sessions: seq<SessionRecord>): bool
  {
    state.mode == "draining" && |Online(sessions)| <= (if state.node.drainTargetOnline < 0 then 0 else state.node.drainTargetOnline)
  }

  predicate NeedsPatch(policy: Option<CorePolicyFile>, now: nat)
  {
    exists e :: e in OldUsers(policy) && Strict(OldUsers(policy)[e], now)
  }

  /** A round of the reconcile loop persisted its state. */
  predicate Completed(s: Reconcile.State, state: DesiredState, env: Reconcile.Env)
  {
    !Reconcile.Serving(state) ||
    match ConfigOf(state)
    case Err(_) => false
    case Ok(cfg) =>
      var (n, outcome) := Reconcile.Converged(Reconcile.AsWritten, s, state, cfg, env);
      !outcome.Failed? && !Reconcile.Checked(n, env).1.Failed?
  }

  predicate Accepted(x: Inputs)
  {
    x.desired.Some? && ValidMode(x.desired.value.mode)
  }

  /** Up to and including the policy write. */
  function Prepared(v: View, state: DesiredState, x: Inputs): View
  {
    var mode := if state.mode == "" then "active" else state.mode;
    v.(status := v.status.(mode := mode, drainReady := DrainReady(state, x.sessions)),
       policy := if x.policyWritten then Some(Written(v.policy, state, x.now)) else v.policy)
  }

  /** After the process has been brought to the state. */
  function Finished(v: View, state: DesiredState, x: Inputs): View
  {
    v.(persisted := if x.persists then Some(state) else v.persisted,
       status := v.status.(strictReady := !NeedsPatch(v.policy, x.now) || (Reconcile.Serving(state) && x.patched),
                           stateVersion := state.version))
  }

  function Synced(v: View, x: Inputs): View
  {
    if !Accepted(x) then v else
    var state := NextState(v.persisted, x);
    var v1 := Prepared(v, state, x);
    if !x.policyWritten then v1 else
    var s := Reconcile.State(v.persisted, v.node);
    var v2 := v1.(node := Reconcile.Round(Reconcile.AsWritten, s, state, x.env).node);
    if Completed(s, state, x.env) then Finished(v2, state, x) else v2
  }

  /* ---------- The method ---------- */

  method CountOnline(sessions: seq<SessionRecord>) returns (onlineUsers: nat, trackedIps: nat)
    ensures onlineUsers == |Online(sessions)|
    ensures trackedIps == TotalIps(sessions, |sessions|)
  {
    var users: set<string> := {};
    trackedIps := 0;
    for i := 0 to |sessions|
      invariant users == Online(sessions[..i]) && trackedIps == TotalIps(sessions, i)
    {
      assert sessions[..i + 1] == sessions[..i] + [sessions[i]];
      if |sessions[i].ips| > 0 {
        users := users + {sessions[i].userId};
      }
      trackedIps := trackedIps + |sessions[i].ips|;
    }
    assert sessions[..|sessions|] == sessions;
    onlineUsers := |users|;
  }

  function TotalIps(sessions: seq<SessionRecord>, n: nat): nat
    requires n <= |sessions|
  {
    if n == 0 then 0 else TotalIps(sessions, n - 1) + |sessions[n - 1].ips|
  }

  class Agent {
    var persisted: Option<DesiredState>
    var status: Status
    const manager: Manager
    const policies: PolicyStore

    constructor (manager: Manager, policies: PolicyStore)
      ensures this.manager == manager && this.policies == policies && persisted == None
      ensures status == Status("starting", false, false, "")
    {
      this.manager, this.policies := manager, policies;
      persisted, status := None, Status("starting", false, false, "");
    }

    function Abs(): View
      reads this, manager, policies
    {
      View(persisted, manager.Abs(), policies.file, status)
    }

    method EvaluateState(desired: DesiredState, x: Inputs) returns (state: DesiredState)
      requires x.desired == Some(desired)
      ensures state == NextState(persisted, x)
    {
      var d := desired;
      if d.node.trafficThresholdBytes > 0 && d.node.trafficUsedBytes >= d.node.trafficThresholdBytes
         && d.mode != "disabled" && d.mode != "maintenance" {
        d := d.(mode := "draining");
      }
      if d.mode == "draining" && persisted.Some? {
        d := ApplyDrain(persisted.value, d);
      }
      var evaluation := Evaluate(d, x.sessions, x.pending, x.now);
      state := evaluation.state;
    }

    /** The hot-reload branch.  Its error is a new variable, so whatever happens in here is not seen outside. */
    method HotReload(plan: RuntimePlan, cfg: Config, env: Reconcile.Env)
      requires manager.live.Some? && !plan.requiresRestart
      modifies manager
      ensures (manager.Abs(), Changed) == Reconcile.Hot(Reconcile.AsWritten, old(manager.Abs()), plan, cfg, env)
    {
      if env.valid {
        var done := manager.ApplyRuntime(plan, env.budget);
        if done {
          var _ := manager.Store(cfg, env.valid, env.store);
        }
      }
    }

    method Converge(state: DesiredState, cfg: Config, env: Reconcile.Env) returns (outcome: Outcome)
      modifies manager
      ensures (manager.Abs(), outcome) ==
              Reconcile.Converged(Reconcile.AsWritten, Reconcile.State(persisted, old(manager.Abs())), state, cfg, env)
    {
      if manager.live.Some? && persisted.Some? && Reconcile.Serving(persisted.value) {
        var plan := PlanRuntime(persisted.value, state);
        if !plan.requiresRestart {
          HotReload(plan, cfg, env);
          outcome := Changed;
        } else {
          outcome := manager.ForceApply(cfg, env.valid, env.force);
        }
      } else {
        outcome := manager.Apply(cfg, env.valid, env.apply);
        if outcome.Unchanged? && manager.live.None? {
          var ok := manager.Start(env.starts);
          outcome := if ok then Changed else Failed;
        }
      }
    }

    method Recheck(env: Reconcile.Env) returns (outcome: Outcome)
      modifies manager
      ensures (manager.Abs(), outcome) == Reconcile.Checked(old(manager.Abs()), env)
    {
      if env.dies {
        manager.Stop();
      }
      if manager.live.Some? && !env.healthy {
        outcome := manager.Recover(env.recover);
      } else {
        outcome := Changed;
      }
    }

    /** The process side of a synchronisation: it says whether the state may be persisted. */
    method Reconverge(state: DesiredState, env: Reconcile.Env) returns (ok: bool)
      modifies manager
      ensures var s := Reconcile.State(persisted, old(manager.Abs()));
              && ok == Completed(s, state, env)
              && manager.Abs() == Reconcile.Round(Reconcile.AsWritten, s, state, env).node
    {
      if !Reconcile.Serving(state) {
        manager.Stop();
        return true;
      }
      var built := BuildConfig(state);
      if built.Err? {
        return false;
      }
      var outcome := Converge(state, built.value, env);
      if outcome.Failed? {
        return false;
      }
      outcome := Recheck(env);
      ok := !outcome.Failed?;
    }

    method Prepare(state: DesiredState, x: Inputs) returns (ok: bool)
      modifies this`status, policies
      ensures ok == x.policyWritten && Abs() == Prepared(old(Abs()), state, x)
    {
      var onlineUsers, _ := CountOnline(x.sessions);
      var target := if state.node.drainTargetOnline < 0 then 0 else state.node.drainTargetOnline;
      status := status.(mode := if state.mode == "" then "active" else state.mode,
                        drainReady := state.mode == "draining" && onlineUsers <= target);
      ok := policies.WriteCorePolicy(state, x.now, x.policyWritten);
    }

    method Finish(state: DesiredState, x: Inputs)
      modifies this`status, this`persisted
      ensures Abs() == Finished(old(Abs()), state, x)
    {
      var strict := StrictPolicyEmails(policies.file, x.now);
      StrictListMeansPatch(strict, policies.file, x.now);
      status := status.(strictReady := |strict| == 0 || (Reconcile.Serving(state) && x.patched), stateVersion := state.version);
      if x.persists {
        persisted := Some(state);
      }
    }

    /** From the panel's answer on. */
    method SyncState(x: Inputs)
      modifies this, manager, policies
      ensures Abs() == Synced(old(Abs()), x)
    {
      if x.desired.None? || !ValidMode(x.desired.value.mode) {
        return;
      }
      var state := EvaluateState(x.desired.value, x);
      var ok := Prepare(state, x);
      if !ok {
        return;
      }
      ok := Reconverge(state, x.env);
      if ok {
        Finish(state, x);
      }
    }

    /** The retry pass and, for a running process that has counted something, the collection. */
    method ExchangeTraffic(spool: Traffic.Spool, panel: Traffic.Panel, r: Readings) returns (ghost list: seq<TrafficBatch>)
      requires Traffic.Keyed(spool.files)
      modifies spool, panel
      ensures Traffic.IsListing(list, old(spool.files)) && Traffic.Keyed(spool.files)
      ensures TrafficOf(spool, panel) == TrafficAfter(old(TrafficOf(spool, panel)), list, manager.live.Some?, r)
    {
      list := Traffic.RetryTraffic(spool, panel, r.retry);
      RetryKeepsKeys(old(TrafficOf(spool, panel)), list, r.retry, 0);
      if manager.live.Some? && r.batch.Some? {
        Traffic.CollectTraffic(spool, panel, r.batch.value, r.stored, r.reply, r.removed);
      }
    }

    /** The sessions the policy is evaluated on, and those that are reported. */
    method Snapshot(tracker: Tracker.SessionTracker, r: Readings, parse: string -> Option<Tracker.Event>)
      returns (policySessions: seq<SessionRecord>, reportSessions: seq<SessionRecord>)
      modifies tracker
      ensures SessionsFrom(policySessions, tracker.items, manager.live.Some?, r)
      ensures ReportsFrom(reportSessions, tracker.items, manager.live.Some?, r)
      ensures tracker.items == Tracker.PrunedItems(ItemsRead(old(tracker.items), old(AccessLog.CursorOf(tracker)), r.log, parse), r.cutoff)
    {
      AccessLog.ConsumeFile(tracker, r.log, parse);
      var recent := tracker.Records(r.cutoff);
      policySessions := MarkSource(recent);
      reportSessions := policySessions;
      assert IsRecent(policySessions, tracker.items);
      if manager.live.Some? && r.exact.Some? {
        reportSessions := SessionReports.Merge(r.exact.value, policySessions);
        policySessions := r.exact.value;
      }
    }

    /** One whole synchronisation.  Pending usage is read after the traffic has been exchanged and before the panel is asked. */
    method Sync(spool: Traffic.Spool, panel: Traffic.Panel, tracker: Tracker.SessionTracker, r: Readings,
                parse: string -> Option<Tracker.Event>, x: Inputs)
      returns (ghost sessions: seq<SessionRecord>, ghost pending: map<UsageKey, int>, ghost before: seq<TrafficBatch>,
               ghost left: seq<TrafficBatch>)
      requires Traffic.Keyed(spool.files)
      modifies this, manager, policies, spool, panel, tracker
      ensures Traffic.IsListing(before, old(spool.files))
      ensures TrafficOf(spool, panel) == TrafficAfter(old(TrafficOf(spool, panel)), before, old(manager.live).Some?, r)
      ensures SessionsFrom(sessions, tracker.items, old(manager.live).Some?, r)
      ensures Traffic.IsListing(left, spool.files) && forall k :: Get(pending, k) == Traffic.TotalUsage(left, |left|, k)
      ensures Abs() == Synced(old(Abs()), x.(sessions := sessions, pending := pending))
    {
      before := ExchangeTraffic(spool, panel, r);
      var policySessions, _ := Snapshot(tracker, r, parse);
      var usage := spool.PendingUsage();
      sessions, pending := policySessions, usage;
      left :| Traffic.IsListing(left, spool.files) && forall k :: Get(pending, k) == Traffic.TotalUsage(left, |left|, k);
      SyncState(x.(sessions := policySessions, pending := usage));
    }
  }

  /** What a synchronisation reads before it asks the panel; `batch` is what the reset counters gave, if anything. */
  datatype Readings = Readings(
    retry: Traffic.Env, batch: Option<TrafficBatch>, stored: bool, reply: Traffic.Reply, removed: bool,
    log: Option<AccessLog.File>, cutoff: int, exact: Option<seq<SessionRecord>>)

  function TrafficOf(spool: Traffic.Spool, panel: Traffic.Panel): Traffic.State
    reads spool, panel
  {
    Traffic.State(spool.files, panel.seen, panel.ledger)
  }

  function TrafficAfter(t: Traffic.State, list: seq<TrafficBatch>, running: bool, r: Readings): Traffic.State
  {
    var retried := Traffic.RetryPass(t, list, r.retry, 0);
    if running && r.batch.Some? then Traffic.Collected(retried, r.batch.value, r.stored, r.reply, r.removed) else retried
  }

  lemma {:induction false} RetryKeepsKeys(t: Traffic.State, list: seq<TrafficBatch>, env: Traffic.Env, i: nat)
    requires i <= |list| && Traffic.Keyed(t.spool)
    ensures Traffic.Keyed(Traffic.RetryPass(t, list, env, i).spool)
    decreases |list| - i
  {
    if i < |list| {
      var posted := Traffic.Posted(t, list[i], env.replies(i));
      if env.replies(i).Accepted? && env.deletes(i) {
        RetryKeepsKeys(posted.(spool := posted.spool - {list[i].eventId}), list, env, i + 1);
      }
    }
  }

  /** Rows of the access log, marked with their source. */
  ghost predicate IsRecent(sessions: seq<SessionRecord>, items: Tracker.Items)
  {
    exists rows :: Tracker.IsReport(rows, items) && Marked(rows, sessions)
  }

  ghost predicate Marked(rows: seq<SessionRecord>, sessions: seq<SessionRecord>)
  {
    |sessions| == |rows| && forall i :: 0 <= i < |rows| ==> sessions[i] == rows[i].(source := "access-log")
  }

  /** Xray's own online sessions when it runs and answers, the recent rows of the access log otherwise. */
  ghost predicate SessionsFrom(sessions: seq<SessionRecord>, items: Tracker.Items, running: bool, r: Readings)
  {
    if running && r.exact.Some? then sessions == r.exact.value else IsRecent(sessions, items)
  }

  ghost predicate ReportsFrom(sessions: seq<SessionRecord>, items: Tracker.Items, running: bool, r: Readings)
  {
    if running && r.exact.Some?
    then exists recent :: IsRecent(recent, items) && sessions == Sort(Tracker.RowLess, SessionReports.Unsorted(r.exact.value, recent))
    else IsRecent(sessions, items)
  }

  function ItemsRead(items: Tracker.Items, c: AccessLog.Cursor, log: Option<AccessLog.File>, parse: string -> Option<Tracker.Event>): Tracker.Items
  {
    match log
    case None => items
    case Some(f) => AccessLog.AddedLines(items, AccessLog.Consumed(c, f).0, parse)
  }

  method MarkSource(rows: seq<SessionRecord>) returns (out: seq<SessionRecord>)
    ensures Marked(rows, out)
  {
    out := [];
    for i := 0 to |rows|
      invariant |out| == i && forall k :: 0 <= k < i ==> out[k] == rows[k].(source := "access-log")
    {
      out := out + [rows[i].(source := "access-log")];
    }
  }

  lemma StrictListMeansPatch(strict: seq<string>, policy: Option<CorePolicyFile>, now: nat)
    requires forall e :: e in strict <==> e in OldUsers(policy) && Strict(OldUsers(policy)[e], now)
    ensures |strict| == 0 <==> !NeedsPatch(policy, now)
  {
    if strict != [] {
      assert strict[0] in strict;
    }
  }

  /* ---------- What one synchronisation guarantees ---------- */

  /** The process side is one round of the reconcile loop; its result is persisted when the round completes and the write
      succeeds. */
  lemma SyncIsRound(v: View, x: Inputs)
    requires Accepted(x) && x.policyWritten && x.persists
    ensures var r := Reconcile.Round(Reconcile.AsWritten, Reconcile.State(v.persisted, v.node), NextState(v.persisted, x), x.env);
            Synced(v, x).persisted == r.persisted && Synced(v, x).node == r.node
  {
  }

  /** The user at position `j` of inbound `i` of the state a synchronisation evaluates. */
  ghost predicate Names(s: DesiredState, i: nat, j: nat)
  {
    i < |s.inbounds| && j < |s.inbounds[i].users|
  }

  lemma EvaluatedAt(d: DesiredState, c: Context, i: nat, j: nat)
    requires Names(d, i, j)
    ensures var state := Evaluated(d, c).state;
            && Names(state, i, j) && state.inbounds[i] == EvaluatedInbound(d.inbounds[i], c)
            && state.inbounds[i].users[j].id == d.inbounds[i].users[j].id
  {
    EvaluationMeaning(d.inbounds[i], c, j);
  }

  lemma SyncedPolicy(v: View, x: Inputs)
    requires Accepted(x) && x.policyWritten
    ensures Synced(v, x).policy == Some(Written(v.policy, NextState(v.persisted, x), x.now))
  {
  }

  lemma SyncedPersisted(v: View, x: Inputs)
    ensures Synced(v, x).persisted != v.persisted ==> Accepted(x) && Synced(v, x).persisted == Some(NextState(v.persisted, x))
  {
  }

  /** A disabled user, the last one with its email, is blocked by the next document, at any time. */
  lemma DisabledIsBlocked(file: Option<CorePolicyFile>, state: DesiredState, now: nat, i: nat, j: nat, e: string, second: int)
    requires LastUser(state.inbounds, i, j, e) && !state.inbounds[i].users[j].enabled
    ensures Limiter.PolicyFor(Written(file, state, now).users, e, second).blocked
  {
    PolicyOfLastUser(file, state, now, i, j, e);
  }

  /** The bytes ever enqueued for user `j` of an inbound have reached its positive quota.  `x.pending` was read from the spool
      `t`, the panel's figure later, after it had billed `late`. */
  ghost predicate OverQuota(input: ManagedInbound, j: nat, x: Inputs, t: Traffic.State, log: seq<TrafficBatch>,
                            list: seq<TrafficBatch>, late: seq<TrafficBatch>)
  {
    && Traffic.Inv(t, log) && Traffic.IsListing(list, t.spool) && j < |input.users|
    && var u := input.users[j];
       var k := UsageKey(u.id, input.id);
       && Get(x.pending, k) == Traffic.TotalUsage(list, |list|, k)
       && u.limits.trafficUsedBytes == Get(Traffic.LateCommits(t, late, |late|).ledger, k)
       && 0 < u.limits.trafficBytes <= Traffic.TotalUsage(log, |log|, k)
  }

  lemma OverQuotaIsDisabled(d: DesiredState, x: Inputs, t: Traffic.State, log: seq<TrafficBatch>, list: seq<TrafficBatch>,
                            late: seq<TrafficBatch>, i: nat, j: nat)
    requires Names(d, i, j) && OverQuota(d.inbounds[i], j, x, t, log, list, late)
    ensures var state := Evaluated(d, ContextOf(x)).state;
            && Names(state, i, j) && !state.inbounds[i].users[j].enabled
            && state.inbounds[i].id == d.inbounds[i].id && state.inbounds[i].users[j].id == d.inbounds[i].users[j].id
  {
    Traffic.QuotaIsSound(t, log, list, late, d.inbounds[i], j, ContextOf(x));
    EvaluatedAt(d, ContextOf(x), i, j);
  }

  /** From enqueued bytes to the dispatcher: the policy document of a synchronisation blocks every user over its quota, even
      when part of its bytes is committed without an acknowledgement or still in the spool, and whether the process could be
      brought to the new state or not. */
  lemma OverQuotaIsBlocked(v: View, x: Inputs, t: Traffic.State, log: seq<TrafficBatch>, list: seq<TrafficBatch>,
                           late: seq<TrafficBatch>, i: nat, j: nat, e: string, second: int)
    requires Accepted(x) && x.policyWritten && Names(Effective(v.persisted, x.desired.value), i, j)
    requires OverQuota(Effective(v.persisted, x.desired.value).inbounds[i], j, x, t, log, list, late)
    requires LastUser(NextState(v.persisted, x).inbounds, i, j, e)
    ensures Limiter.PolicyFor(OldUsers(Synced(v, x).policy), e, second).blocked
  {
    var state := NextState(v.persisted, x);
    OverQuotaIsDisabled(Effective(v.persisted, x.desired.value), x, t, log, list, late, i, j);
    SyncedPolicy(v, x);
    DisabledIsBlocked(v.policy, state, x.now, i, j, e, second);
  }

  predicate Drains(x: Inputs)
  {
    Accepted(x) ==> x.desired.value.mode == "draining" || OverThreshold(x.desired.value)
  }

  lemma DrainingStateShrinks(previous: DesiredState, x: Inputs, inboundId: string, userId: string)
    requires Accepted(x) && Drains(x) && UniqueIds(previous.inbounds) && UniqueIds(x.desired.value.inbounds)
    ensures UniqueIds(NextState(Some(previous), x).inbounds)
    ensures IsMember(NextState(Some(previous), x), inboundId, userId) <==>
            IsMember(previous, inboundId, userId) && IsMember(x.desired.value, inboundId, userId)
  {
    var desired := x.desired.value;
    var d := if OverThreshold(desired) then desired.(mode := "draining") else desired;
    DrainStepUnique(previous, d, ContextOf(x));
    DrainStep(previous, d, ContextOf(x), inboundId, userId);
    assert d.inbounds == desired.inbounds;
    assert IsMember(d, inboundId, userId) <==> IsMember(desired, inboundId, userId);
  }

  /** A draining synchronisation, whether it fails on the way or not, leaves no member in the persisted state that was not
      there before. */
  lemma DrainingSyncShrinks(v: View, x: Inputs, inboundId: string, userId: string)
    requires v.persisted.Some? && UniqueIds(v.persisted.value.inbounds) && Drains(x)
    requires x.desired.Some? ==> UniqueIds(x.desired.value.inbounds)
    ensures var p := Synced(v, x).persisted;
            && p.Some? && UniqueIds(p.value.inbounds)
            && (IsMember(p.value, inboundId, userId) ==> IsMember(v.persisted.value, inboundId, userId))
  {
    SyncedPersisted(v, x);
    if Accepted(x) {
      DrainingStateShrinks(v.persisted.value, x, inboundId, userId);
    }
  }

  /** A run of synchronisations: `views[i]` before number `i`. */
  ghost predicate IsRun(views: seq<View>, inputs: seq<Inputs>)
  {
    |views| == |inputs| + 1 && forall i :: 0 <= i < |inputs| ==> StepsAt(views, inputs, i)
  }

  ghost predicate StepsAt(views: seq<View>, inputs: seq<Inputs>, i: nat)
    requires i < |inputs| && |views| == |inputs| + 1
  {
    views[i + 1] == Synced(views[i], inputs[i])
  }

  ghost predicate DrainsAt(inputs: seq<Inputs>, i: nat)
    requires i < |inputs|
  {
    Drains(inputs[i]) && (inputs[i].desired.Some? ==> UniqueIds(inputs[i].desired.value.inbounds))
  }

  /** Over any run of draining synchronisations, with failures anywhere, membership never grows. */
  lemma {:induction false} DrainingRunShrinks(views: seq<View>, inputs: seq<Inputs>, n: nat, inboundId: string, userId: string)
    requires IsRun(views, inputs) && n <= |inputs| && forall i :: 0 <= i < |inputs| ==> DrainsAt(inputs, i)
    requires views[0].persisted.Some? && UniqueIds(views[0].persisted.value.inbounds)
    ensures views[n].persisted.Some? && UniqueIds(views[n].persisted.value.inbounds)
    ensures IsMember(views[n].persisted.value, inboundId, userId) ==> IsMember(views[0].persisted.value, inboundId, userId)
  {
    if n > 0 {
      DrainingRunShrinks(views, inputs, n - 1, inboundId, userId);
      assert StepsAt(views, inputs, n - 1) && DrainsAt(inputs, n - 1);
      DrainingSyncShrinks(views[n - 1], inputs[n - 1], inboundId, userId);
    }
  }
}
