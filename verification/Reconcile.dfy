/** The reconcile loop from the evaluated state on (internal/agent/agent.go): hot reload, restart, recovery, persisting.

    The source declares a second `err` inside the hot-reload branch, so the fallback to a forced restart, which its
    documentation promises, is never taken.  Both forms are modelled. */
module Reconcile {
  import opened Model
  import opened Text
  import opened Accounting
  import opened Builder
  import opened Runtime
  import opened HotUsers
  import opened Refinement
  import opened RuntimeSafety
  import opened Process

  datatype Variant = AsWritten | AsDocumented

  datatype State = State(persisted: Option<DesiredState>, node: Node)

  /** What the outside decides in one round.  Validation of one content gives one answer per round. */
  datatype Env = Env(
    valid: bool, budget: nat, store: Faults, force: Faults, apply: Faults, starts: bool,
    dies: bool, healthy: bool, recover: Faults)

  ghost predicate EnvWritesSucceed(env: Env)
  {
    WritesSucceed(env.store) && WritesSucceed(env.force) && WritesSucceed(env.apply) && WritesSucceed(env.recover)
  }

  /** Whether a state asks for a running process. */
  predicate Serving(s: DesiredState)
  {
    s.enabled && s.mode != "disabled" && s.mode != "maintenance"
  }

  /** The hot-reload branch, ended by the fallback where the variant has one. */
  function Hot(variant: Variant, n: Node, plan: RuntimePlan, cfg: Config, env: Env): (Node, Outcome)
  {
    var (m, hot) :=
      if !env.valid then (n, false) else
      var (patched, done) := HotPatched(n, plan, env.budget);
      if !done then (patched, false) else
      var (stored, outcome) := Stored(patched, cfg, env.valid, env.store);
      (stored, !outcome.Failed?);
    if hot || variant.AsWritten? then (m, Changed) else ForceApplied(m, cfg, env.valid, env.force)
  }

  function Converged(variant: Variant, s: State, state: DesiredState, cfg: Config, env: Env): (Node, Outcome)
  {
    if s.node.live.Some? && s.persisted.Some? && Serving(s.persisted.value) then
      var plan := PlanOf(s.persisted.value, state);
      if plan.requiresRestart then ForceApplied(s.node, cfg, env.valid, env.force)
      else Hot(variant, s.node, plan, cfg, env)
    else
      var (n, outcome) := Applied(s.node, cfg, env.valid, env.apply);
      if outcome.Unchanged? && n.live.None? then
        var m := Restarted(n, env.starts);
        (m, if m.live.Some? then Changed else Failed)
      else (n, outcome)
  }

  /** The health check: an unhealthy process is restarted, on the backup if need be. */
  function Checked(n: Node, env: Env): (Node, Outcome)
  {
    var m := if env.dies then n.(live := None) else n;
    if m.live.Some? && !env.healthy then Recovered(m, env.recover) else (m, Changed)
  }

  /** One round; a round that returns an error early does not persist its state. */
  function Round(variant: Variant, s: State, state: DesiredState, env: Env): State
  {
    if !Serving(state) then State(Some(state), s.node.(live := None)) else
    match ConfigOf(state)
    case Err(_) => s
    case Ok(cfg) =>
      var (n, outcome) := Converged(variant, s, state, cfg, env);
      if outcome.Failed? then s.(node := n) else
      var (m, checked) := Checked(n, env);
      if checked.Failed? then s.(node := m) else State(Some(state), m)
  }

  /** The health check: a process that has died stays down, one that runs without answering is recovered, and the round fails exactly
      when that leaves nothing running. */
  lemma CheckMeaning(n: Node, env: Env)
    ensures var (m, outcome) := Checked(n, env);
            && (n.live.None? || env.dies ==> m == n.(live := None) && outcome.Changed?)
            && (n.live.Some? && !env.dies && env.healthy ==> m == n && outcome.Changed?)
            && (n.live.Some? && !env.dies && !env.healthy ==> m == Recovered(n, env.recover).0 && (outcome.Failed? <==> m.live.None?))
  {
    RecoveryMeaning(n, env.recover);
  }

  /* ---------- What a process serves ---------- */

  function ManagedOf(routing: Option<Routing>): seq<UserRule>
  {
    if routing.Some? && routing.value.rules.Prepended? then routing.value.rules.managed else []
  }

  /** Same panel-supplied routing, and the same first managed rule for every email. */
  ghost predicate SameRouting(a: Option<Routing>, b: Option<Routing>)
  {
    && (a.Some? <==> b.Some?)
    && (a.Some? ==>
          && a.value.other == b.value.other
          && match (a.value.rules, b.value.rules)
             case (Untouched(x), Untouched(y)) => x == y
             case (Prepended(_, x), Prepended(_, y)) => x == y
             case _ => false)
    && forall email :: FirstMatch(ManagedOf(a), email) == FirstMatch(ManagedOf(b), email)
  }

  /** The process behaves like one started from `cfg`: same handlers, outbounds, DNS and routing decisions, and
      statistics for at least its levels. */
  ghost predicate ServesConfig(live: Instance, cfg: Config)
  {
    && live.table == Boot(cfg).table && cfg.levels <= live.levels
    && live.outbounds == cfg.outbounds && live.dns == cfg.dns && SameRouting(live.routing, cfg.routing)
  }

  /** What the planner needs of a state: keys that tell inbounds, users and rules apart. */
  ghost predicate WellKeyed(s: DesiredState)
  {
    GoodState(s) && UniqueRuleEmails(ManagedRules(s.inbounds, |s.inbounds|))
  }

  /** Lists of raw messages the planner takes as equal decode to the same outbounds. */
  lemma EqualRawsDecodeEqual(a: seq<Raw>, b: seq<Raw>)
    requires RawMessagesEqual(a, b) && OutboundsOf(a).Ok? && OutboundsOf(b).Ok?
    ensures OutboundsOf(a) == OutboundsOf(b)
  {
    if a != [] {
      DecodeAllMeaning(a, |a|);
      DecodeAllMeaning(b, |b|);
      forall i | 0 <= i < |a| ensures OutboundsOf(a).value[i] == OutboundsOf(b).value[i] {
        assert BytesJsonEqual(a[i], b[i]);
      }
      assert OutboundsOf(a).value == OutboundsOf(b).value;
    }
  }

  lemma ConfigParts(s: DesiredState)
    requires ConfigOf(s).Ok?
    ensures AllBuildable(s) && OutboundsOf(s.outbounds) == Ok(ConfigOf(s).value.outbounds) && DnsOf(s.dns) == Ok(ConfigOf(s).value.dns)
    ensures RoutingOf(s.routing, ManagedRules(s.inbounds, |s.inbounds|)) == Ok(ConfigOf(s).value.routing)
    ensures ConfigOf(s).value.levels == Levels(s) && Boot(ConfigOf(s).value).table == TableOf(s)
  {
  }

  lemma {:induction false} NoRuleNoMatch(rules: seq<UserRule>)
    ensures (forall email :: FirstMatch(rules, email).None?) <==> rules == []
  {
    if rules != [] {
      assert FirstMatch(rules, rules[0].email).Some?;
    }
  }

  lemma RoutingShape(a: Raw, ma: seq<UserRule>, b: Raw, mb: seq<UserRule>)
    requires BytesJsonEqual(a, b) && (ma == [] <==> mb == [])
    requires RoutingOf(a, ma).Ok? && RoutingOf(b, mb).Ok?
    requires forall email :: FirstMatch(ma, email) == FirstMatch(mb, email)
    ensures SameRouting(RoutingOf(a, ma).value, RoutingOf(b, mb).value)
  {
    assert ManagedOf(RoutingOf(a, ma).value) == ma && ManagedOf(RoutingOf(b, mb).value) == mb;
  }

  /** States with equal global parts have the same routing decisions in their configurations. */
  lemma EqualGlobalsSameRouting(a: DesiredState, b: DesiredState)
    requires RuntimeGlobalEqual(a, b) && WellKeyed(a) && WellKeyed(b) && ConfigOf(a).Ok? && ConfigOf(b).Ok?
    ensures SameRouting(ConfigOf(a).value.routing, ConfigOf(b).value.routing)
  {
    ConfigParts(a);
    ConfigParts(b);
    var ma, mb := ManagedRules(a.inbounds, |a.inbounds|), ManagedRules(b.inbounds, |b.inbounds|);
    SameFirstMatches(a, b);
    NoRuleNoMatch(ma);
    NoRuleNoMatch(mb);
    RoutingShape(a.routing, ma, b.routing, mb);
  }

  lemma SameFirstMatches(a: DesiredState, b: DesiredState)
    requires RuntimeGlobalEqual(a, b) && WellKeyed(a) && WellKeyed(b)
    ensures forall email :: FirstMatch(ManagedRules(a.inbounds, |a.inbounds|), email) ==
                            FirstMatch(ManagedRules(b.inbounds, |b.inbounds|), email)
  {
    forall email ensures FirstMatch(ManagedRules(a.inbounds, |a.inbounds|), email) ==
                         FirstMatch(ManagedRules(b.inbounds, |b.inbounds|), email) {
      HotReloadKeepsRouting(a, b, email);
    }
  }

  /** A completed hot reload turns a process that serves the previous configuration into one that serves the new one. */
  lemma HotReloadServes(live: Instance, previous: DesiredState, desired: DesiredState, table: Table)
    requires WellKeyed(previous) && WellKeyed(desired) && ConfigOf(previous).Ok? && ConfigOf(desired).Ok?
    requires !PlanOf(previous, desired).requiresRestart && ServesConfig(live, ConfigOf(previous).value)
    requires Run(live.table, Commands(Operations(previous, desired))) == Some(table)
    ensures ServesConfig(live.(table := table), ConfigOf(desired).value)
  {
    ConfigParts(previous);
    ConfigParts(desired);
    RestartMeaning(previous, desired);
    HotReloadRefinesRebuild(previous, desired);
    EqualRawsDecodeEqual(previous.outbounds, desired.outbounds);
    EqualGlobalsSameRouting(previous, desired);
  }

  /* ---------- The run invariant ---------- */

  /** The file on disk holds the configuration of `state`. */
  predicate OnDisk(n: Node, state: DesiredState)
  {
    n.config.Some? && ConfigOf(state) == Ok(n.config.value)
  }

  /** The persisted state asks for a process, but another configuration (or none) is on disk. */
  predicate Stale(s: State)
  {
    s.persisted.Some? && Serving(s.persisted.value) && !OnDisk(s.node, s.persisted.value)
  }

  /** Between rounds: what runs is what is on disk, the backup is no other file, and a stale persisted state has no
      process beside it. */
  ghost predicate Inv(s: State)
  {
    && (s.node.live.Some? ==> s.node.config.Some? && ServesConfig(s.node.live.value, s.node.config.value))
    && (s.node.backup.Some? ==> s.node.backup == s.node.config)
    && (s.persisted.Some? && Serving(s.persisted.value) ==> WellKeyed(s.persisted.value))
    && (s.node.live.Some? ==> !Stale(s))
  }

  /** The invariant is what the next plan relies on: a running process serves the persisted state. */
  lemma PersistedStateIsTrue(s: State)
    requires Inv(s) && s.node.live.Some? && s.persisted.Some? && Serving(s.persisted.value)
    ensures ConfigOf(s.persisted.value).Ok? && ServesConfig(s.node.live.value, ConfigOf(s.persisted.value).value)
    ensures s.node.live.value.table == TableOf(s.persisted.value)
  {
    ConfigParts(s.persisted.value);
  }

  /** The one way a round breaks the invariant: the persisted state was stale, the new configuration did not start, and
      the rollback did. */
  ghost predicate RollsBackStale(s: State, state: DesiredState, env: Env)
  {
    && Stale(s) && s.node.live.None? && s.node.config.Some?
    && Serving(state) && ConfigOf(state).Ok? && !OnDisk(s.node, state)
    && env.valid && !env.apply.start && env.apply.startRollback
  }

  lemma SameRoutingReflexive(r: Option<Routing>)
    ensures SameRouting(r, r)
  {
  }

  lemma BootServes(cfg: Config)
    ensures ServesConfig(Boot(cfg), cfg)
  {
    SameRoutingReflexive(cfg.routing);
  }

  /** The file and the process that belong together after a step. */
  ghost predicate Coherent(n: Node)
  {
    && (n.live.Some? ==> n.config.Some? && ServesConfig(n.live.value, n.config.value))
    && (n.backup.Some? ==> n.backup == n.config)
  }

  lemma ForceApplyCoherent(n: Node, cfg: Config, valid: bool, f: Faults)
    requires WritesSucceed(f) && (n.backup.Some? ==> n.backup == n.config)
    requires n.live.Some? ==> n.config.Some?
    ensures var (m, outcome) := ForceApplied(n, cfg, valid, f);
            && (outcome.Changed? ==> m == Node(Some(cfg), Some(cfg), Some(Boot(cfg))))
            && (outcome.Failed? ==> (m == n && !valid) || (valid && Coherent(m) && (n.config.Some? ==> m.config == n.config)))
            && !outcome.Unchanged?
  {
    BootServes(cfg);
    if n.config.Some? { BootServes(n.config.value); }
  }

  lemma ApplyCoherent(n: Node, cfg: Config, valid: bool, f: Faults)
    requires WritesSucceed(f) && Coherent(n)
    ensures var (m, outcome) := Applied(n, cfg, valid, f);
            && Coherent(m)
            && (outcome.Changed? ==> m == Node(Some(cfg), Some(cfg), Some(Boot(cfg))))
            && (outcome.Unchanged? ==> m == n && n.config == Some(cfg))
            && (outcome.Failed? && n.config.Some? ==> m.config == n.config)
            && (outcome.Failed? && n.config.None? ==> m.live.None?)
            && (outcome.Failed? && n.live.None? ==>
                  (m.live.Some? <==> valid && n.config.Some? && n.config.value != cfg && !f.start && f.startRollback))
  {
    BootServes(cfg);
    if n.config.Some? { BootServes(n.config.value); }
  }

  /** A hot patch that ran to the end leaves a process that serves the new configuration. */
  lemma PatchedServes(s: State, state: DesiredState, cfg: Config, budget: nat)
    requires Inv(s) && WellKeyed(state) && ConfigOf(state) == Ok(cfg)
    requires s.node.live.Some? && s.persisted.Some? && Serving(s.persisted.value)
    requires !PlanOf(s.persisted.value, state).requiresRestart
    ensures var (patched, done) := HotPatched(s.node, PlanOf(s.persisted.value, state), budget);
            && patched.live.Some? && patched.config == s.node.config && patched.backup == s.node.backup
            && (done ==> ServesConfig(patched.live.value, cfg))
  {
    PersistedStateIsTrue(s);
    ExecutedServes(s.node.live.value, s.persisted.value, state, budget);
  }

  lemma ExecutedServes(live: Instance, previous: DesiredState, desired: DesiredState, budget: nat)
    requires WellKeyed(previous) && WellKeyed(desired) && ConfigOf(previous).Ok? && ConfigOf(desired).Ok?
    requires !PlanOf(previous, desired).requiresRestart && ServesConfig(live, ConfigOf(previous).value)
    ensures var (t, done) := Executed(live.table, Commands(PlanOf(previous, desired).operations), budget);
            done ==> ServesConfig(live.(table := t), ConfigOf(desired).value)
  {
    var commands := Commands(Operations(previous, desired));
    CompletedRuns(live.table, commands, budget);
    var (t, done) := Executed(live.table, commands, budget);
    if done {
      HotReloadServes(live, previous, desired, t);
    }
  }

  lemma CompletedRuns(t: Table, commands: seq<Command>, budget: nat)
    ensures Executed(t, commands, budget).1 ==> Run(t, commands) == Some(Executed(t, commands, budget).0)
  {
    var _ := ExecutedIsPrefix(t, commands, budget);
  }

  lemma StoreCoherent(n: Node, cfg: Config, f: Faults)
    requires WritesSucceed(f) && n.live.Some? && ServesConfig(n.live.value, cfg) && (n.backup.Some? ==> n.backup == n.config)
    ensures var (m, outcome) := Stored(n, cfg, true, f);
            !outcome.Failed? && Coherent(m) && m.live == n.live && m.config == Some(cfg)
  {
  }

  /** Hot reload with its fallback: it ends with the new configuration, or with the old one on disk. */
  lemma HotCoherent(s: State, state: DesiredState, cfg: Config, env: Env)
    requires Inv(s) && EnvWritesSucceed(env) && WellKeyed(state) && ConfigOf(state) == Ok(cfg)
    requires s.node.live.Some? && s.persisted.Some? && Serving(s.persisted.value)
    requires !PlanOf(s.persisted.value, state).requiresRestart
    ensures var (m, outcome) := Hot(AsDocumented, s.node, PlanOf(s.persisted.value, state), cfg, env);
            && Coherent(m)
            && (outcome.Failed? ==> m.config == s.node.config)
            && (!outcome.Failed? ==> m.live.Some? && m.config == Some(cfg))
  {
    var plan := PlanOf(s.persisted.value, state);
    PatchedServes(s, state, cfg, env.budget);
    var (patched, done) := HotPatched(s.node, plan, env.budget);
    if !env.valid {
    } else if done {
      StoreCoherent(patched, cfg, env.store);
    } else {
      ForceApplyCoherent(patched, cfg, env.valid, env.force);
      BootServes(cfg);
    }
  }

  lemma ConvergedCoherent(s: State, state: DesiredState, cfg: Config, env: Env)
    requires Inv(s) && EnvWritesSucceed(env) && WellKeyed(state) && ConfigOf(state) == Ok(cfg)
    ensures var (m, outcome) := Converged(AsDocumented, s, state, cfg, env);
            && Coherent(m)
            && (!outcome.Failed? ==> m.live.Some? && m.config == Some(cfg))
            && (outcome.Failed? && s.node.config.Some? ==> m.config == s.node.config)
            && (outcome.Failed? && s.node.config.None? ==> m.live.None?)
            && (outcome.Failed? && s.node.live.None? ==>
                  (m.live.Some? <==> env.valid && s.node.config.Some? && s.node.config.value != cfg &&
                                     !env.apply.start && env.apply.startRollback))
  {
    if s.node.live.Some? && s.persisted.Some? && Serving(s.persisted.value) {
      if PlanOf(s.persisted.value, state).requiresRestart {
        ForceApplyCoherent(s.node, cfg, env.valid, env.force);
        BootServes(cfg);
      } else {
        HotCoherent(s, state, cfg, env);
      }
    } else {
      ApplyCoherent(s.node, cfg, env.valid, env.apply);
      BootServes(cfg);
    }
  }

  lemma CheckedCoherent(n: Node, env: Env)
    requires Coherent(n) && WritesSucceed(env.recover)
    ensures var (m, outcome) := Checked(n, env);
            Coherent(m) && (outcome.Failed? ==> m.live.None?) && m.config == n.config
  {
    if n.config.Some? { BootServes(n.config.value); }
  }

  /** The health check ends the round with an error. */
  predicate RecoveryFails(s: State, state: DesiredState, env: Env)
  {
    Serving(state) && ConfigOf(state).Ok? &&
    var (n, outcome) := Converged(AsDocumented, s, state, ConfigOf(state).value, env);
    !outcome.Failed? && Checked(n, env).1.Failed?
  }

  /** One round with the documented fallback keeps the invariant exactly when it does not roll back a stale state; and it
      leaves a stale state behind exactly when it found one and failed, or its recovery failed over another configuration
      than the persisted one. */
  lemma RoundKeepsTruth(s: State, state: DesiredState, env: Env)
    requires Inv(s) && EnvWritesSucceed(env) && (Serving(state) ==> WellKeyed(state))
    ensures Inv(Round(AsDocumented, s, state, env)) <==> !RollsBackStale(s, state, env)
    ensures !Stale(s) ==>
              (Stale(Round(AsDocumented, s, state, env)) <==>
                 RecoveryFails(s, state, env) && s.persisted.Some? && Serving(s.persisted.value) &&
                 ConfigOf(s.persisted.value) != ConfigOf(state))
  {
    if Serving(state) && ConfigOf(state).Ok? {
      var cfg := ConfigOf(state).value;
      ConvergedCoherent(s, state, cfg, env);
      var (n, outcome) := Converged(AsDocumented, s, state, cfg, env);
      if !outcome.Failed? {
        CheckedCoherent(n, env);
      }
    }
  }

  datatype Input = Sync(state: DesiredState, env: Env) | Crash

  function Next(variant: Variant, s: State, input: Input): State
  {
    match input
    case Sync(state, env) => Round(variant, s, state, env)
    case Crash => s.(node := s.node.(live := None))
  }

  function RunRounds(variant: Variant, s: State, inputs: seq<Input>, k: nat): State
    requires k <= |inputs|
  {
    if k == 0 then s else Next(variant, RunRounds(variant, s, inputs, k - 1), inputs[k - 1])
  }

  ghost predicate GoodInputs(inputs: seq<Input>)
  {
    forall i :: 0 <= i < |inputs| && inputs[i].Sync? ==>
                  EnvWritesSucceed(inputs[i].env) && (Serving(inputs[i].state) ==> WellKeyed(inputs[i].state))
  }

  ghost predicate RollsBackStaleAt(s: State, inputs: seq<Input>, i: nat)
    requires i < |inputs|
  {
    inputs[i].Sync? && RollsBackStale(RunRounds(AsDocumented, s, inputs, i), inputs[i].state, inputs[i].env)
  }

  lemma StepKeepsTruth(s: State, inputs: seq<Input>, i: nat)
    requires GoodInputs(inputs) && i < |inputs| && Inv(RunRounds(AsDocumented, s, inputs, i))
    ensures Inv(RunRounds(AsDocumented, s, inputs, i + 1)) <==> !RollsBackStaleAt(s, inputs, i)
  {
    if inputs[i].Sync? {
      RoundKeepsTruth(RunRounds(AsDocumented, s, inputs, i), inputs[i].state, inputs[i].env);
    }
  }

  ghost predicate TrueAt(s: State, inputs: seq<Input>, i: nat)
    requires i <= |inputs|
  {
    Inv(RunRounds(AsDocumented, s, inputs, i))
  }

  lemma NoBreakMeansTrue(s: State, inputs: seq<Input>)
    requires Inv(s) && GoodInputs(inputs)
    requires forall i :: 0 <= i < |inputs| ==> !RollsBackStaleAt(s, inputs, i)
    ensures forall i :: 0 <= i <= |inputs| ==> TrueAt(s, inputs, i)
  {
    var k := 0;
    while k < |inputs|
      invariant 0 <= k <= |inputs| && forall i :: 0 <= i <= k ==> TrueAt(s, inputs, i)
    {
      assert TrueAt(s, inputs, k) && !RollsBackStaleAt(s, inputs, k);
      StepKeepsTruth(s, inputs, k);
      k := k + 1;
    }
  }

  /** Over every run of the documented loop, with crashes between rounds: the invariant holds throughout exactly when no
      round rolls back a stale state. */
  lemma RunKeepsTruth(s: State, inputs: seq<Input>)
    requires Inv(s) && GoodInputs(inputs)
    ensures (forall i :: 0 <= i <= |inputs| ==> TrueAt(s, inputs, i)) <==>
            (forall i :: 0 <= i < |inputs| ==> !RollsBackStaleAt(s, inputs, i))
  {
    if forall i :: 0 <= i < |inputs| ==> !RollsBackStaleAt(s, inputs, i) {
      NoBreakMeansTrue(s, inputs);
    }
    if forall i :: 0 <= i <= |inputs| ==> TrueAt(s, inputs, i) {
      forall i | 0 <= i < |inputs| ensures !RollsBackStaleAt(s, inputs, i) {
        assert TrueAt(s, inputs, i) && TrueAt(s, inputs, i + 1);
        StepKeepsTruth(s, inputs, i);
      }
    }
  }

  ghost predicate HealthyAt(s: State, inputs: seq<Input>, i: nat)
    requires i < |inputs|
  {
    inputs[i].Sync? ==> !RecoveryFails(RunRounds(AsDocumented, s, inputs, i), inputs[i].state, inputs[i].env)
  }

  lemma HealthyStep(s: State, inputs: seq<Input>, i: nat)
    requires GoodInputs(inputs) && i < |inputs| && HealthyAt(s, inputs, i)
    requires Inv(RunRounds(AsDocumented, s, inputs, i)) && !Stale(RunRounds(AsDocumented, s, inputs, i))
    ensures Inv(RunRounds(AsDocumented, s, inputs, i + 1)) && !Stale(RunRounds(AsDocumented, s, inputs, i + 1))
  {
    var t := RunRounds(AsDocumented, s, inputs, i);
    assert RunRounds(AsDocumented, s, inputs, i + 1) == Next(AsDocumented, t, inputs[i]);
    if inputs[i].Sync? {
      RoundKeepsTruth(t, inputs[i].state, inputs[i].env);
    }
  }

  /** As long as no recovery fails, every plan of a run from an honest start begins from the truth. */
  lemma HealthyRunKeepsTruth(s: State, inputs: seq<Input>, k: nat)
    requires Inv(s) && !Stale(s) && GoodInputs(inputs) && k <= |inputs|
    requires forall i :: 0 <= i < k ==> HealthyAt(s, inputs, i)
    ensures Inv(RunRounds(AsDocumented, s, inputs, k)) && !Stale(RunRounds(AsDocumented, s, inputs, k))
  {
    var i := 0;
    while i < k
      invariant 0 <= i <= k && Inv(RunRounds(AsDocumented, s, inputs, i)) && !Stale(RunRounds(AsDocumented, s, inputs, i))
    {
      HealthyStep(s, inputs, i);
      i := i + 1;
    }
  }

  /** A fresh node starts honest. */
  lemma FreshNodeIsHonest()
    ensures Inv(State(None, Node(None, None, None))) && !Stale(State(None, Node(None, None, None)))
  {
  }

  /* ---------- The failing runs ---------- */

  const AllGood := Faults(true, true, true, true, true, true)
  const NothingStarts := Faults(true, true, false, true, false, true)
  const OnlyRollbackStarts := Faults(true, true, false, true, true, true)

  function Calm(): Env
  {
    Env(true, 0, AllGood, AllGood, AllGood, true, false, true, AllGood)
  }

  lemma FirstRound(s1: DesiredState)
    requires Serving(s1) && ConfigOf(s1).Ok?
    ensures var c1 := ConfigOf(s1).value;
            Round(AsDocumented, State(None, Node(None, None, None)), s1, Calm()) ==
            State(Some(s1), Node(Some(c1), Some(c1), Some(Boot(c1))))
  {
  }

  /** A round over a running process that switches the configuration and then cannot recover. */
  lemma FailedRecoveryRound(s: State, s2: DesiredState, c1: Config)
    requires Serving(s2) && ConfigOf(s2).Ok? && ConfigOf(s2).value != c1
    requires s.node == Node(Some(c1), Some(c1), Some(Boot(c1)))
    ensures var c2 := ConfigOf(s2).value;
            Round(AsDocumented, s, s2, Calm().(healthy := false, recover := NothingStarts)) == s.(node := Node(Some(c2), Some(c2), None))
  {
    var env := Calm().(healthy := false, recover := NothingStarts);
    SwitchingRound(s, s2, c1, env);
    UnhealthyEnds(Converged(AsDocumented, s, s2, ConfigOf(s2).value, env).0, env);
  }

  lemma ForcedSwitch(n: Node, cfg: Config)
    ensures ForceApplied(n, cfg, true, AllGood) == (Node(Some(cfg), Some(cfg), Some(Boot(cfg))), Changed)
  {
  }

  lemma HotSwitch(n: Node, plan: RuntimePlan, cfg: Config, env: Env)
    requires n.live.Some? && n.config != Some(cfg) && env.valid && env.force == env.store == AllGood
    ensures var (m, outcome) := Hot(AsDocumented, n, plan, cfg, env);
            outcome.Changed? && m.config == Some(cfg) && m.backup == Some(cfg) && m.live.Some?
  {
    var (patched, done) := HotPatched(n, plan, env.budget);
    ForcedSwitch(patched, cfg);
  }

  lemma AppliedSwitch(n: Node, cfg: Config)
    requires n.config != Some(cfg)
    ensures var (m, outcome) := Applied(n, cfg, true, AllGood); outcome.Changed? && m == Node(Some(cfg), Some(cfg), Some(Boot(cfg)))
  {
  }

  lemma SwitchingRound(s: State, s2: DesiredState, c1: Config, env: Env)
    requires ConfigOf(s2).Ok? && ConfigOf(s2).value != c1 && s.node == Node(Some(c1), Some(c1), Some(Boot(c1)))
    requires env.valid && env.force == env.store == env.apply == AllGood
    ensures var c2 := ConfigOf(s2).value;
            var (n, outcome) := Converged(AsDocumented, s, s2, c2, env);
            !outcome.Failed? && n.config == Some(c2) && n.backup == Some(c2) && n.live.Some?
  {
    var c2 := ConfigOf(s2).value;
    if s.persisted.Some? && Serving(s.persisted.value) {
      ForcedSwitch(s.node, c2);
      HotSwitch(s.node, PlanOf(s.persisted.value, s2), c2, env);
    } else {
      AppliedSwitch(s.node, c2);
    }
  }

  lemma UnhealthyEnds(n: Node, env: Env)
    requires n.live.Some? && n.config.Some? && n.backup == n.config && !env.dies && !env.healthy && env.recover == NothingStarts
    ensures Checked(n, env) == (n.(live := None), Failed)
  {
  }

  lemma RolledBackRound(s: State, s3: DesiredState, c2: Config)
    requires Serving(s3) && ConfigOf(s3).Ok? && ConfigOf(s3).value != c2 && s.node == Node(Some(c2), Some(c2), None)
    ensures Round(AsDocumented, s, s3, Calm().(apply := OnlyRollbackStarts)) == s.(node := Node(Some(c2), Some(c2), Some(Boot(c2))))
  {
  }

  /** Three rounds on a fresh node, the second failing its recovery and the third its start, leave a process that runs
      the second state while the first is persisted; whatever the three states are. */
  lemma FailedRecoveryMisleadsThePlanner(s1: DesiredState, s2: DesiredState, s3: DesiredState)
    requires Serving(s1) && Serving(s2) && Serving(s3) && ConfigOf(s1).Ok? && ConfigOf(s2).Ok? && ConfigOf(s3).Ok?
    requires ConfigOf(s2) != ConfigOf(s3) && ConfigOf(s1) != ConfigOf(s2)
    ensures var inputs := [Sync(s1, Calm()), Sync(s2, Calm().(healthy := false, recover := NothingStarts)),
                           Sync(s3, Calm().(apply := OnlyRollbackStarts))];
            var end := RunRounds(AsDocumented, State(None, Node(None, None, None)), inputs, 3);
            end.persisted == Some(s1) && end.node.live == Some(Boot(ConfigOf(s2).value)) && end.node.config == Some(ConfigOf(s2).value)
  {
    FirstRound(s1);
    var r1 := Round(AsDocumented, State(None, Node(None, None, None)), s1, Calm());
    FailedRecoveryRound(r1, s2, ConfigOf(s1).value);
    var r2 := Round(AsDocumented, r1, s2, Calm().(healthy := false, recover := NothingStarts));
    RolledBackRound(r2, s3, ConfigOf(s2).value);
    ThreeRounds(State(None, Node(None, None, None)), s1, s2, s3, Calm(),
                Calm().(healthy := false, recover := NothingStarts), Calm().(apply := OnlyRollbackStarts));
  }

  lemma ThreeRounds(s: State, s1: DesiredState, s2: DesiredState, s3: DesiredState, e1: Env, e2: Env, e3: Env)
    ensures RunRounds(AsDocumented, s, [Sync(s1, e1), Sync(s2, e2), Sync(s3, e3)], 3) ==
            Round(AsDocumented, Round(AsDocumented, Round(AsDocumented, s, s1, e1), s2, e2), s3, e3)
  {
    var inputs := [Sync(s1, e1), Sync(s2, e2), Sync(s3, e3)];
    assert RunRounds(AsDocumented, s, inputs, 1) == Next(AsDocumented, s, inputs[0]);
    assert RunRounds(AsDocumented, s, inputs, 2) == Next(AsDocumented, RunRounds(AsDocumented, s, inputs, 1), inputs[1]);
  }
}
