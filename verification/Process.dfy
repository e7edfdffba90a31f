/** The process manager (internal/xray/process.go): the configuration on disk, the last-good backup and the running
    Xray.  Everything the outside decides (validation, writes, starts) is an argument. */
module Process {
  import opened Model
  import opened Text
  import opened Builder
  import opened Runtime

  /** A running Xray: the handlers can change while it runs, the rest is what it was started with. */
  datatype Instance = Instance(levels: set<int>, table: Table, outbounds: seq<Json>, routing: Option<Routing>, dns: Option<Json>)

  function Boot(cfg: Config): Instance
  {
    Instance(cfg.levels, LoadTable(cfg.inbounds, |cfg.inbounds|), cfg.outbounds, cfg.routing, cfg.dns)
  }

  /** An empty file counts as no file, as in the source. */
  datatype Node = Node(config: Option<Config>, backup: Option<Config>, live: Option<Instance>)

  /** Which writes and starts succeed during one call, in the order the code tries them. */
  datatype Faults = Faults(
    backupOld: bool, writeConfig: bool, start: bool, writeRollback: bool, startRollback: bool, backupNew: bool)

  datatype Outcome = Unchanged | Changed | Failed

  ghost predicate WritesSucceed(f: Faults)
  {
    f.backupOld && f.writeConfig && f.writeRollback && f.backupNew
  }

  /* ---------- The operations on values ---------- */

  /** `restartLocked`: whatever ran is gone, and the process on disk runs if it survives the grace period. */
  function Restarted(n: Node, starts: bool): Node
  {
    n.(live := if starts && n.config.Some? then Some(Boot(n.config.value)) else None)
  }

  function RolledBack(n: Node, f: Faults): Node
  {
    if n.backup.None? || !f.writeRollback then n else Restarted(n.(config := n.backup), f.startRollback)
  }

  /** The common tail of `Apply` and `ForceApply`. */
  function Switched(n: Node, content: Config, f: Faults): (Node, Outcome)
  {
    if !f.writeConfig then (n, Failed) else
    var n1 := Restarted(n.(config := Some(content)), f.start);
    if n1.live.None? then (RolledBack(n1, f), Failed)
    else (if f.backupNew then n1.(backup := Some(content)) else n1, Changed)
  }

  function Applied(n: Node, content: Config, valid: bool, f: Faults): (Node, Outcome)
  {
    if n.config == Some(content) then (n, Unchanged)
    else if !valid then (n, Failed)
    else Switched(if n.config.Some? && f.backupOld then n.(backup := n.config) else n, content, f)
  }

  function ForceApplied(n: Node, content: Config, valid: bool, f: Faults): (Node, Outcome)
  {
    if !valid then (n, Failed)
    else Switched(if n.config.Some? && n.config.value != content && f.backupOld then n.(backup := n.config) else n, content, f)
  }

  function Stored(n: Node, content: Config, valid: bool, f: Faults): (Node, Outcome)
  {
    if n.config == Some(content) then (n, Unchanged)
    else if !valid || !f.writeConfig then (n, Failed)
    else (n.(config := Some(content), backup := if f.backupNew then Some(content) else n.backup), Changed)
  }

  function Recovered(n: Node, f: Faults): (Node, Outcome)
  {
    var n1 := Restarted(n, f.start);
    if n1.live.Some? then (n1, Changed)
    else if n1.backup.None? || !f.writeRollback then (n1, Failed)
    else
      var n2 := Restarted(n1.(config := n1.backup), f.startRollback);
      (n2, if n2.live.Some? then Changed else Failed)
  }

  /** The commands of a plan up to the first refused one, or until something outside fails after `budget` commands. */
  function Executed(t: Table, commands: seq<Command>, budget: nat): (Table, bool)
    decreases |commands|
  {
    if commands == [] then (t, true)
    else if budget == 0 || Step(t, commands[0]).None? then (t, false)
    else Executed(Step(t, commands[0]).value, commands[1..], budget - 1)
  }

  function HotPatched(n: Node, plan: RuntimePlan, budget: nat): (Node, bool)
  {
    if plan.requiresRestart || n.live.None? then (n, false) else
    var (t, done) := Executed(n.live.value.table, Commands(plan.operations), budget);
    (n.(live := Some(n.live.value.(table := t))), done)
  }

  /* ---------- The manager ---------- */

  class Manager {
    var config: Option<Config>
    var backup: Option<Config>
    var live: Option<Instance>

    function Abs(): Node
      reads this
    {
      Node(config, backup, live)
    }

    constructor ()
      ensures Abs() == Node(None, None, None)
    {
      config, backup, live := None, None, None;
    }

    method Restart(starts: bool) returns (ok: bool)
      modifies this`live
      ensures Abs() == Restarted(old(Abs()), starts) && ok == live.Some?
    {
      live := None;
      if starts && config.Some? {
        live := Some(Boot(config.value));
      }
      ok := live.Some?;
    }

    method Rollback(f: Faults)
      modifies this
      ensures Abs() == RolledBack(old(Abs()), f)
    {
      if backup.None? || !f.writeRollback {
        return;
      }
      config := backup;
      var _ := Restart(f.startRollback);
    }

    method Apply(content: Config, valid: bool, f: Faults) returns (outcome: Outcome)
      modifies this
      ensures (Abs(), outcome) == Applied(old(Abs()), content, valid, f)
    {
      if config == Some(content) {
        return Unchanged;
      }
      if !valid {
        return Failed;
      }
      if config.Some? && f.backupOld {
        backup := config;
      }
      if !f.writeConfig {
        return Failed;
      }
      config := Some(content);
      var ok := Restart(f.start);
      if !ok {
        Rollback(f);
        return Failed;
      }
      if f.backupNew {
        backup := Some(content);
      }
      outcome := Changed;
    }

    method ForceApply(content: Config, valid: bool, f: Faults) returns (outcome: Outcome)
      modifies this
      ensures (Abs(), outcome) == ForceApplied(old(Abs()), content, valid, f)
    {
      if !valid {
        return Failed;
      }
      if config.Some? && config.value != content && f.backupOld {
        backup := config;
      }
      if !f.writeConfig {
        return Failed;
      }
      config := Some(content);
      var ok := Restart(f.start);
      if !ok {
        Rollback(f);
        return Failed;
      }
      if f.backupNew {
        backup := Some(content);
      }
      outcome := Changed;
    }

    method Store(content: Config, valid: bool, f: Faults) returns (outcome: Outcome)
      modifies this
      ensures (Abs(), outcome) == Stored(old(Abs()), content, valid, f)
    {
      if config == Some(content) {
        return Unchanged;
      }
      if !valid || !f.writeConfig {
        return Failed;
      }
      config := Some(content);
      if f.backupNew {
        backup := Some(content);
      }
      outcome := Changed;
    }

    method Recover(f: Faults) returns (outcome: Outcome)
      modifies this
      ensures (Abs(), outcome) == Recovered(old(Abs()), f)
    {
      var ok := Restart(f.start);
      if ok {
        return Changed;
      }
      if backup.None? || !f.writeRollback {
        return Failed;
      }
      config := backup;
      ok := Restart(f.startRollback);
      outcome := if ok then Changed else Failed;
    }

    method Start(starts: bool) returns (ok: bool)
      modifies this`live
      ensures Abs() == if old(live).Some? then old(Abs()) else Restarted(old(Abs()), starts)
      ensures ok == live.Some?
    {
      if live.Some? {
        return true;
      }
      ok := Restart(starts);
    }

    method Stop()
      modifies this`live
      ensures Abs() == old(Abs()).(live := None)
    {
      live := None;
    }

    method RunCommand(c: Command) returns (ok: bool)
      requires live.Some?
      modifies this`live
      ensures ok == Step(old(live.value.table), c).Some?
      ensures live == if ok then Some(old(live.value).(table := Step(old(live.value.table), c).value)) else old(live)
    {
      var r := Step(live.value.table, c);
      ok := r.Some?;
      if ok {
        live := Some(live.value.(table := r.value));
      }
    }

    /** The loop of `ApplyRuntime`; a replace is two commands. */
    method ApplyRuntime(plan: RuntimePlan, budget: nat) returns (done: bool)
      requires live.Some?
      modifies this`live
      ensures (Abs(), done) == HotPatched(old(Abs()), plan, budget)
    {
      if plan.requiresRestart {
        return false;
      }
      var commands := Commands(plan.operations);
      ghost var t0 := live.value.table;
      var left := budget;
      for i := 0 to |commands|
        invariant live.Some? && live == Some(old(live.value).(table := live.value.table))
        invariant Executed(t0, commands, budget) == Executed(live.value.table, commands[i..], left)
      {
        assert commands[i..][1..] == commands[i + 1..] && commands[i..][0] == commands[i];
        if left == 0 {
          return false;
        }
        var ok := RunCommand(commands[i]);
        if !ok {
          return false;
        }
        left := left - 1;
      }
      done := true;
    }
  }

  /* ---------- Transactions ---------- */

  /** New content that validates but does not start puts the old configuration back, on disk and in the backup, and runs
      it again if it still starts; content that does not validate, or that cannot be written, changes nothing on disk. */
  lemma FailedSwitchRestoresOld(n: Node, content: Config, valid: bool, f: Faults)
    requires n.config.Some? && n.config.value != content && f.backupOld && f.writeRollback
    ensures var (a, outcome) := Applied(n, content, valid, f);
            && (a, outcome) == ForceApplied(n, content, valid, f)
            && (outcome.Failed? <==> !valid || !f.writeConfig || !f.start)
            && (outcome.Failed? ==> a.config == n.config)
            && (outcome.Failed? && (!valid || !f.writeConfig) ==> a.live == n.live)
            && (outcome.Failed? && valid && f.writeConfig ==>
                  a.backup == n.config && a.live == if f.startRollback then Some(Boot(n.config.value)) else None)
            && (outcome.Changed? ==> a.config == Some(content) && a.live == Some(Boot(content)))
  {
  }

  /** The five ways a change ends, forced or not.  `spare` is what the node can fall back on: the old configuration, if it differs and could
      be set aside, and the old backup otherwise. */
  lemma SwitchMeaning(n: Node, content: Config, valid: bool, f: Faults, force: bool)
    requires force || n.config != Some(content)
    ensures var (m, outcome) := if force then ForceApplied(n, content, valid, f) else Applied(n, content, valid, f);
            var spare := if n.config.Some? && n.config != Some(content) && f.backupOld then n.config else n.backup;
            && (outcome == if valid && f.writeConfig && f.start then Changed else Failed)
            && m == if !valid then n
                    else if !f.writeConfig then Node(n.config, spare, n.live)
                    else if f.start then Node(Some(content), if f.backupNew then Some(content) else spare, Some(Boot(content)))
                    else if spare.None? || !f.writeRollback then Node(Some(content), spare, None)
                    else Node(spare, spare, if f.startRollback then Some(Boot(spare.value)) else None)
  {
  }

  /** An ordinary change to what is on disk already does nothing, and neither does storing it; storing anything else changes the files
      alone, and only if it is valid and can be written. */
  lemma UnchangedMeaning(n: Node, content: Config, valid: bool, f: Faults)
    ensures n.config == Some(content) ==> Applied(n, content, valid, f) == Stored(n, content, valid, f) == (n, Unchanged)
    ensures n.config != Some(content) ==>
              Stored(n, content, valid, f) ==
              if valid && f.writeConfig then (Node(Some(content), if f.backupNew then Some(content) else n.backup, n.live), Changed)
              else (n, Failed)
  {
  }

  /** A recovery runs what is on disk if that starts; if not, the backup takes its place, if there is one and it can be written, and runs
      if it starts; and a recovery that leaves nothing running has failed. */
  lemma RecoveryMeaning(n: Node, f: Faults)
    ensures var (m, outcome) := Recovered(n, f);
            && (outcome == if m.live.Some? then Changed else Failed)
            && m == if n.config.Some? && f.start then Node(n.config, n.backup, Some(Boot(n.config.value)))
                    else if n.backup.None? || !f.writeRollback then Node(n.config, n.backup, None)
                    else Node(n.backup, n.backup, if f.startRollback then Some(Boot(n.backup.value)) else None)
  {
  }

  /** Both files hold configurations from `good`. */
  ghost predicate KnownGood(n: Node, good: set<Config>)
  {
    n.config.Some? && n.config.value in good && (n.backup.Some? ==> n.backup.value in good)
  }

  /** Whatever file there is holds a configuration from `good`. */
  ghost predicate GoodFiles(n: Node, good: set<Config>)
  {
    (n.config.Some? ==> n.config.value in good) && (n.backup.Some? ==> n.backup.value in good)
  }

  /** With any faults, and whatever files there are, switching to unproven content leaves an unproven file on disk exactly when
      the content was written, did not start, and could not be rolled back: the rollback write failed, or there was neither a
      backup nor an old configuration to make one of. */
  lemma DiskStaysGood(n: Node, content: Config, valid: bool, f: Faults, good: set<Config>, force: bool)
    requires GoodFiles(n, good) && content !in good
    ensures var (a, outcome) := if force then ForceApplied(n, content, valid, f) else Applied(n, content, valid, f);
            GoodFiles(a, if outcome.Changed? then good + {content} else good) <==>
            !(valid && f.writeConfig && !f.start &&
              (!f.writeRollback || ((n.config.None? || !f.backupOld) && n.backup.None?)))
  {
  }

  /** A fresh node has nothing to roll back to: a first configuration that does not start stays on disk, and becomes the
      backup of the next attempt. */
  lemma FreshNodeKeepsBadConfig(bad: Config, next: Config, f: Faults, g: Faults)
    requires WritesSucceed(f) && WritesSucceed(g) && !f.start && !g.start && next != bad
    ensures var empty := Node(None, None, None);
            var (a, first) := Applied(empty, bad, true, f);
            var (b, second) := Applied(a, next, true, g);
            && GoodFiles(empty, {}) && !GoodFiles(a, {})
            && first.Failed? && a == Node(Some(bad), None, None) && second.Failed? && b.config == Some(bad) && b.backup == Some(bad)
  {
    DiskStaysGood(Node(None, None, None), bad, true, f, {}, false);
  }

  datatype Event =
    | ApplyEvent(content: Config, valid: bool, faults: Faults)
    | ForceApplyEvent(content: Config, valid: bool, faults: Faults)
    | HotEvent(content: Config, valid: bool, faults: Faults)   // a completed hot reload, then Store
    | RecoverEvent(faults: Faults)
    | StartEvent(starts: bool)
    | StopEvent
    | CrashEvent

  function After(n: Node, e: Event): Node
  {
    match e
    case ApplyEvent(content, valid, f) => Applied(n, content, valid, f).0
    case ForceApplyEvent(content, valid, f) => ForceApplied(n, content, valid, f).0
    case HotEvent(content, valid, f) =>
      if n.live.None? then n else Stored(n.(live := Some(Boot(content))), content, valid, f).0
    case RecoverEvent(f) => Recovered(n, f).0
    case StartEvent(starts) => if n.live.Some? then n else Restarted(n, starts)
    case StopEvent => n.(live := None)
    case CrashEvent => n.(live := None)
  }

  ghost predicate EventWritesSucceed(e: Event)
  {
    match e
    case ApplyEvent(_, _, f) => WritesSucceed(f)
    case ForceApplyEvent(_, _, f) => WritesSucceed(f)
    case HotEvent(_, _, f) => WritesSucceed(f)
    case RecoverEvent(f) => WritesSucceed(f)
    case _ => true
  }

  function RunEvents(n: Node, events: seq<Event>, k: nat): Node
    requires k <= |events|
  {
    if k == 0 then n else After(RunEvents(n, events, k - 1), events[k - 1])
  }

  /** The configuration on disk, if the process was booted from it. */
  function Ran(m: Node): set<Config>
  {
    if m.config.Some? && m.live == Some(Boot(m.config.value)) then {m.config.value} else {}
  }

  /** `good` and the configurations that ran, up to event `k`. */
  function HaveRun(n: Node, good: set<Config>, events: seq<Event>, k: nat): set<Config>
    requires k <= |events|
  {
    if k == 0 then good else HaveRun(n, good, events, k - 1) + Ran(RunEvents(n, events, k))
  }

  lemma EventStaysGood(n: Node, e: Event, good: set<Config>)
    requires KnownGood(n, good) && EventWritesSucceed(e)
    ensures KnownGood(After(n, e), good + Ran(After(n, e)))
  {
  }

  /** Last-good stays good over every run that starts from configurations known to be good. */
  lemma {:induction false} LastGoodStaysGood(n: Node, good: set<Config>, events: seq<Event>, k: nat)
    requires k <= |events| && forall i :: 0 <= i < |events| ==> EventWritesSucceed(events[i])
    requires KnownGood(n, good)
    ensures KnownGood(RunEvents(n, events, k), HaveRun(n, good, events, k))
  {
    if k > 0 {
      LastGoodStaysGood(n, good, events, k - 1);
      EventStaysGood(RunEvents(n, events, k - 1), events[k - 1], HaveRun(n, good, events, k - 1));
    }
  }

  /** How far a plan gets: some prefix of its commands, and all of them exactly when none is refused in time. */
  lemma {:induction false} ExecutedIsPrefix(t: Table, commands: seq<Command>, budget: nat) returns (n: nat)
    ensures n <= |commands| && Run(t, commands[..n]) == Some(Executed(t, commands, budget).0)
    ensures Executed(t, commands, budget).1 <==> n == |commands|
    ensures Executed(t, commands, budget).1 <==> |commands| <= budget && Run(t, commands).Some?
    ensures Executed(t, commands, budget).1 ==> Run(t, commands) == Some(Executed(t, commands, budget).0)
    decreases |commands|
  {
    if commands == [] || budget == 0 || Step(t, commands[0]).None? {
      n := 0;
    } else {
      var m := ExecutedIsPrefix(Step(t, commands[0]).value, commands[1..], budget - 1);
      n := m + 1;
      assert commands[..n][1..] == commands[1..][..m];
    }
    if n == |commands| {
      assert commands[..n] == commands;
    }
  }

  /** A plan that asks for a restart, or a node without a process, is left alone.  Otherwise the files and all but the table of the process
      stay, the table is the one after some prefix of the commands, and the patch is complete exactly when no command is refused and
      nothing fails in time. */
  lemma PatchMeaning(n: Node, plan: RuntimePlan, budget: nat) returns (k: nat)
    ensures plan.requiresRestart || n.live.None? ==> HotPatched(n, plan, budget) == (n, false)
    ensures !plan.requiresRestart && n.live.Some? ==>
              var (m, done), commands := HotPatched(n, plan, budget), Commands(plan.operations);
              && m.config == n.config && m.backup == n.backup && m.live.Some? && m.live.value.(table := n.live.value.table) == n.live.value
              && k <= |commands| && Run(n.live.value.table, commands[..k]) == Some(m.live.value.table)
              && (done <==> k == |commands|)
              && (done <==> |commands| <= budget && Run(n.live.value.table, commands).Some?)
  {
    k := 0;
    if !plan.requiresRestart && n.live.Some? {
      k := ExecutedIsPrefix(n.live.value.table, Commands(plan.operations), budget);
    }
  }
}
