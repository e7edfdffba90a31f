/** Runs of whole synchronisations: the traffic invariant holds along every run, and so quota is enforced in every one of its
    synchronisations. */
module AgentRuns {
  import opened Model
  import opened Text
  import opened Order
  import opened Accounting
  import opened Policy
  import opened PolicyFile
  import opened Process
  import Limiter
  import Traffic
  import A = Agent

  /** The agent, the spool with its panel, and everything ever enqueued. */
  datatype World = World(view: A.View, traffic: Traffic.State, log: seq<TrafficBatch>)

  /** A synchronisation with the listings of the spool before its retry pass and after its exchange, and with what the panel bills
      late between the reading of the pending usage and its answer; or late billing between synchronisations. */
  datatype Step =
    | SyncStep(r: A.Readings, before: seq<TrafficBatch>, left: seq<TrafficBatch>, late: seq<TrafficBatch>, x: A.Inputs)
    | LateBilling(batch: TrafficBatch)

  predicate Collects(w: World, r: A.Readings)
  {
    w.view.node.live.Some? && r.batch.Some?
  }

  function Exchanged(w: World, step: Step): Traffic.State
    requires step.SyncStep?
  {
    A.TrafficAfter(w.traffic, step.before, w.view.node.live.Some?, step.r)
  }

  function LogExchanged(w: World, r: A.Readings): seq<TrafficBatch>
  {
    if Collects(w, r) && r.stored && r.batch.value.eventId != "" then w.log + [r.batch.value] else w.log
  }

  ghost predicate NewEvent(w: World, id: string)
  {
    id !in w.traffic.seen && forall j :: 0 <= j < |w.log| ==> w.log[j].eventId != id
  }

  /** Event IDs are new, the panel bills nothing that was never enqueued, and the pending usage is that of the spool after the
      exchange, which is what `Agent.Sync` ensures. */
  ghost predicate Legal(w: World, step: Step)
  {
    match step
    case SyncStep(r, before, left, late, x) =>
      && Traffic.IsListing(before, w.traffic.spool) && (Collects(w, r) ==> NewEvent(w, r.batch.value.eventId))
      && Traffic.IsListing(left, Exchanged(w, step).spool)
      && (forall k :: Get(x.pending, k) == Traffic.TotalUsage(left, |left|, k))
      && AllLogged(LogExchanged(w, r), late)
    case LateBilling(batch) => Traffic.InLog(w.log, batch.eventId, batch)
  }

  ghost predicate AllLogged(log: seq<TrafficBatch>, batches: seq<TrafficBatch>)
  {
    forall b :: b in batches ==> Traffic.InLog(log, b.eventId, b)
  }

  function After(w: World, step: Step): World
  {
    match step
    case SyncStep(r, before, left, late, x) =>
      World(A.Synced(w.view, x), Traffic.LateCommits(Exchanged(w, step), late, |late|), LogExchanged(w, r))
    case LateBilling(batch) => w.(traffic := Traffic.Committed(w.traffic, batch))
  }

  /* ---------- The traffic invariant ---------- */

  lemma ListingIsLogged(t: Traffic.State, log: seq<TrafficBatch>, list: seq<TrafficBatch>)
    requires Traffic.Inv(t, log) && Traffic.IsListing(list, t.spool)
    ensures AllLogged(log, list)
  {
    forall b | b in list ensures Traffic.InLog(log, b.eventId, b) {
      assert Traffic.InLog(log, b.eventId, t.spool[b.eventId]);
    }
  }

  /** A retry pass makes the panel claim nothing but what it posts. */
  lemma {:induction false} RetryClaims(t: Traffic.State, list: seq<TrafficBatch>, env: Traffic.Env, i: nat, id: string)
    requires i <= |list| && id in Traffic.RetryPass(t, list, env, i).seen
    ensures id in t.seen || exists k :: i <= k < |list| && list[k].eventId == id
    decreases |list| - i
  {
    if i < |list| {
      var posted := Traffic.Posted(t, list[i], env.replies(i));
      if env.replies(i).Accepted? && env.deletes(i) && id !in posted.seen {
        RetryClaims(posted.(spool := posted.spool - {list[i].eventId}), list, env, i + 1, id);
      }
    }
  }

  lemma StillNew(w: World, before: seq<TrafficBatch>, env: Traffic.Env, id: string)
    requires Traffic.Inv(w.traffic, w.log) && Traffic.IsListing(before, w.traffic.spool) && NewEvent(w, id)
    ensures id !in Traffic.RetryPass(w.traffic, before, env, 0).seen
  {
    ListingIsLogged(w.traffic, w.log, before);
    forall k | 0 <= k < |before| ensures before[k].eventId != id {
      assert before[k] in before && Traffic.InLog(w.log, before[k].eventId, before[k]);
    }
    if id in Traffic.RetryPass(w.traffic, before, env, 0).seen {
      RetryClaims(w.traffic, before, env, 0, id);
    }
  }

  /** The traffic exchange of a synchronisation is a retry event and then perhaps a collection. */
  lemma ExchangeKeepsInv(w: World, step: Step)
    requires step.SyncStep? && Legal(w, step) && Traffic.Inv(w.traffic, w.log)
    ensures Traffic.Inv(Exchanged(w, step), LogExchanged(w, step.r))
  {
    var r, retry := step.r, Traffic.Retry(step.before, step.r.retry);
    Traffic.EventKeepsInv(w.traffic, w.log, retry);
    var retried := Traffic.After(w.traffic, retry);
    if Collects(w, r) {
      StillNew(w, step.before, r.retry, r.batch.value.eventId);
      Traffic.EventKeepsInv(retried, w.log, Traffic.Collect(r.batch.value, r.stored, r.reply, r.removed));
    }
  }

  lemma {:induction false} LateCommitsKeepInv(t: Traffic.State, log: seq<TrafficBatch>, late: seq<TrafficBatch>, n: nat)
    requires Traffic.Inv(t, log) && AllLogged(log, late) && n <= |late|
    ensures Traffic.Inv(Traffic.LateCommits(t, late, n), log)
  {
    if n > 0 {
      LateCommitsKeepInv(t, log, late, n - 1);
      assert late[n - 1] in late;
      Traffic.CommitKeepsInv(Traffic.LateCommits(t, late, n - 1), log, late[n - 1]);
    }
  }

  lemma StepKeepsInv(w: World, step: Step)
    requires Legal(w, step) && Traffic.Inv(w.traffic, w.log)
    ensures Traffic.Inv(After(w, step).traffic, After(w, step).log)
  {
    match step
    case SyncStep(r, before, left, late, x) =>
      ExchangeKeepsInv(w, step);
      LateCommitsKeepInv(Exchanged(w, step), LogExchanged(w, r), late, |late|);
    case LateBilling(batch) =>
      Traffic.CommitKeepsInv(w.traffic, w.log, batch);
  }

  /** A run from an empty spool: `worlds[i]` before step `i`. */
  ghost predicate IsRun(worlds: seq<World>, steps: seq<Step>)
  {
    && |worlds| == |steps| + 1
    && worlds[0].traffic == Traffic.State(map[], {}, map[]) && worlds[0].log == []
    && forall i :: 0 <= i < |steps| ==> StepsAt(worlds, steps, i)
  }

  ghost predicate StepsAt(worlds: seq<World>, steps: seq<Step>, i: nat)
    requires i < |steps| && |worlds| == |steps| + 1
  {
    Legal(worlds[i], steps[i]) && worlds[i + 1] == After(worlds[i], steps[i])
  }

  /** Along every run of synchronisations, with any failures, nothing enqueued is lost and nothing is billed twice. */
  lemma {:induction false} RunKeepsTraffic(worlds: seq<World>, steps: seq<Step>, n: nat)
    requires IsRun(worlds, steps) && n < |worlds|
    ensures Traffic.Inv(worlds[n].traffic, worlds[n].log)
  {
    if n > 0 {
      RunKeepsTraffic(worlds, steps, n - 1);
      assert StepsAt(worlds, steps, n - 1);
      StepKeepsInv(worlds[n - 1], steps[n - 1]);
    }
  }

  lemma RunConservesTraffic(worlds: seq<World>, steps: seq<Step>, n: nat, k: UsageKey)
    requires IsRun(worlds, steps) && n < |worlds|
    ensures var t, log := worlds[n].traffic, worlds[n].log;
            Get(t.ledger, k) + Traffic.UsageIn(log, t.spool.Keys - t.seen, |log|, k) == Traffic.TotalUsage(log, |log|, k)
  {
    RunKeepsTraffic(worlds, steps, n);
    Traffic.TrafficIsConserved(worlds[n].traffic, worlds[n].log, k);
  }

  /* ---------- Quota along a run ---------- */

  /** User `j` of inbound `i` of the state this synchronisation evaluates has a positive quota, the panel reports what it has billed
      by then, and everything ever enqueued for the user reaches the quota. */
  ghost predicate ReachesQuota(w: World, after: World, x: A.Inputs, i: nat, j: nat)
    requires A.Accepted(x)
  {
    var d := A.Effective(w.view.persisted, x.desired.value);
    && A.Names(d, i, j)
    && var u, k := d.inbounds[i].users[j], UsageKey(d.inbounds[i].users[j].id, d.inbounds[i].id);
       && u.limits.trafficUsedBytes == Get(after.traffic.ledger, k)
       && 0 < u.limits.trafficBytes <= Traffic.TotalUsage(after.log, |after.log|, k)
  }

  lemma QuotaInStep(w: World, step: Step, i: nat, j: nat)
    requires step.SyncStep? && Legal(w, step) && Traffic.Inv(w.traffic, w.log) && A.Accepted(step.x)
    requires ReachesQuota(w, After(w, step), step.x, i, j)
    ensures A.OverQuota(A.Effective(w.view.persisted, step.x.desired.value).inbounds[i], j, step.x, Exchanged(w, step),
                        LogExchanged(w, step.r), step.left, step.late)
  {
    ExchangeKeepsInv(w, step);
  }

  /** In every synchronisation of every run, a user whose enqueued bytes have reached a positive quota is blocked by the policy document
      it writes, whatever was lost, retried, billed late or failed before. */
  lemma QuotaHoldsInEveryRun(worlds: seq<World>, steps: seq<Step>, n: nat, i: nat, j: nat, e: string, second: int)
    requires IsRun(worlds, steps) && n < |steps| && steps[n].SyncStep?
    requires A.Accepted(steps[n].x) && steps[n].x.policyWritten && ReachesQuota(worlds[n], worlds[n + 1], steps[n].x, i, j)
    requires LastUser(A.NextState(worlds[n].view.persisted, steps[n].x).inbounds, i, j, e)
    ensures Limiter.PolicyFor(OldUsers(worlds[n + 1].view.policy), e, second).blocked
  {
    RunKeepsTraffic(worlds, steps, n);
    assert StepsAt(worlds, steps, n);
    var w, step := worlds[n], steps[n];
    QuotaInStep(w, step, i, j);
    A.OverQuotaIsBlocked(w.view, step.x, Exchanged(w, step), LogExchanged(w, step.r), step.left, step.late, i, j, e, second);
  }
}
