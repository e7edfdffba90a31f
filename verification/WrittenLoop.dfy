/** Runs of the reconcile loop as written (internal/agent/agent.go), without its unreachable fallback.  The table that the next plan
    starts from stays true over every run exactly when no run reaches a hot reload that has something to do, or a change over a
    stale configuration. */
module WrittenLoop {
  import opened Model
  import opened Text
  import opened Builder
  import opened Runtime
  import opened HotUsers
  import opened Refinement
  import opened Process
  import opened Reconcile
  import opened ShadowedError

  /** The handlers that run are those of the configuration on disk, and the backup is no other file. */
  ghost predicate TableCoherent(n: Node)
  {
    && (n.live.Some? ==> n.config.Some? && n.live.value.table == Boot(n.config.value).table)
    && (n.backup.Some? ==> n.backup == n.config)
  }

  /** The configuration on disk has the handlers of `state`. */
  ghost predicate TableOnDisk(n: Node, state: DesiredState)
  {
    n.config.Some? && Boot(n.config.value).table == TableOf(state)
  }

  /** Between rounds: while a process runs, the configuration on disk is that of the persisted state. */
  ghost predicate Sound(s: State)
  {
    && TableCoherent(s.node)
    && (s.persisted.Some? && Serving(s.persisted.value) ==>
          WellKeyed(s.persisted.value) && (s.node.live.Some? ==> TableOnDisk(s.node, s.persisted.value)))
  }

  /** What the planner relies on: a running process serves the table of the persisted state. */
  ghost predicate Truth(s: State)
  {
    s.persisted.Some? && Serving(s.persisted.value) && s.node.live.Some? ==> s.node.live.value.table == TableOf(s.persisted.value)
  }

  lemma FreshNodeIsSound()
    ensures Sound(State(None, Node(None, None, None)))
  {
  }

  lemma SoundIsTrue(s: State)
    requires Sound(s)
    ensures Truth(s)
  {
  }

  /** A hot reload that has something to do. */
  ghost predicate Risky(s: State, state: DesiredState)
  {
    && s.node.live.Some? && s.persisted.Some? && Serving(s.persisted.value) && Serving(state) && ConfigOf(state).Ok?
    && !PlanOf(s.persisted.value, state).requiresRestart && Operations(s.persisted.value, state) != []
  }

  /** A change without a running process, over a configuration that is neither the new one nor that of the persisted state: a
      recovery has failed before. */
  ghost predicate OverStale(s: State, state: DesiredState)
  {
    && s.node.live.None? && s.persisted.Some? && Serving(s.persisted.value) && s.node.config.Some?
    && !TableOnDisk(s.node, s.persisted.value) && Serving(state) && ConfigOf(state).Ok? && Ok(s.node.config.value) != ConfigOf(state)
  }

  ghost predicate Misleading(s: State, state: DesiredState)
  {
    Risky(s, state) || OverStale(s, state)
  }

  /* ---------- One round ---------- */

  /** A step leaves coherent tables and, unless it switched to `cfg`, the old configuration if there was one and no process if
      there was nothing. */
  ghost predicate Switches(n: Node, m: Node, outcome: Outcome, cfg: Config)
  {
    && TableCoherent(m)
    && (outcome.Failed? ==> n.config.Some? ==> m.config == n.config)
    && (outcome.Failed? ==> n.config.None? ==> m.live.None?)
    && (!outcome.Failed? ==> m.config == Some(cfg))
    && (outcome.Unchanged? ==> m == n)
  }

  lemma ForceApplySwitches(n: Node, cfg: Config, valid: bool, f: Faults)
    requires WritesSucceed(f) && TableCoherent(n)
    ensures var (m, outcome) := ForceApplied(n, cfg, valid, f); Switches(n, m, outcome, cfg)
  {
  }

  lemma ApplySwitches(n: Node, cfg: Config, valid: bool, f: Faults)
    requires WritesSucceed(f) && TableCoherent(n)
    ensures var (m, outcome) := Applied(n, cfg, valid, f);
            Switches(n, m, outcome, cfg) && (outcome.Failed? ==> n.config != Some(cfg))
  {
  }

  lemma RestartSwitches(n: Node, starts: bool)
    requires TableCoherent(n)
    ensures TableCoherent(Restarted(n, starts)) && Restarted(n, starts).config == n.config
  {
  }

  /** A hot reload with nothing to do leaves the table alone, and stores the new configuration or not. */
  lemma IdleHotReload(n: Node, plan: RuntimePlan, cfg: Config, env: Env)
    requires EnvWritesSucceed(env) && TableCoherent(n) && n.live.Some? && !plan.requiresRestart && plan.operations == []
    requires Boot(cfg).table == n.live.value.table
    ensures var (m, outcome) := Hot(AsWritten, n, plan, cfg, env);
            && outcome.Changed? && TableCoherent(m) && m.config.Some? && Boot(m.config.value).table == Boot(cfg).table
  {
  }

  lemma CheckKeepsTables(n: Node, env: Env)
    requires EnvWritesSucceed(env) && TableCoherent(n)
    ensures var (m, outcome) := Checked(n, env); TableCoherent(m) && m.config == n.config && (outcome.Failed? ==> m.live.None?)
  {
  }

  lemma IdleTables(previous: DesiredState, state: DesiredState)
    requires WellKeyed(previous) && WellKeyed(state) && ConfigOf(state).Ok? && Operations(previous, state) == []
    ensures TableOf(previous) == TableOf(state)
  {
    ConfigParts(state);
    HotReloadRefinesRebuild(previous, state);
  }

  /** Where a round that is not misleading gets before its health check. */
  lemma ConvergedSound(s: State, state: DesiredState, cfg: Config, env: Env)
    requires Sound(s) && WellKeyed(state) && Serving(state) && ConfigOf(state) == Ok(cfg) && EnvWritesSucceed(env) && !Misleading(s, state)
    ensures var (m, outcome) := Converged(AsWritten, s, state, cfg, env);
            && TableCoherent(m)
            && (outcome.Failed? ==> Sound(s.(node := m)))
            && (!outcome.Failed? ==> TableOnDisk(m, state))
  {
    ConfigParts(state);
    if s.node.live.Some? && s.persisted.Some? && Serving(s.persisted.value) {
      if PlanOf(s.persisted.value, state).requiresRestart {
        ForceApplySwitches(s.node, cfg, env.valid, env.force);
      } else {
        IdleRound(s, state, cfg, env);
      }
    } else {
      ApplySwitches(s.node, cfg, env.valid, env.apply);
      RestartSwitches(Applied(s.node, cfg, env.valid, env.apply).0, env.starts);
    }
  }

  lemma IdleRound(s: State, state: DesiredState, cfg: Config, env: Env)
    requires Sound(s) && WellKeyed(state) && Serving(state) && ConfigOf(state) == Ok(cfg) && EnvWritesSucceed(env) && !Risky(s, state)
    requires s.node.live.Some? && s.persisted.Some? && Serving(s.persisted.value) && !PlanOf(s.persisted.value, state).requiresRestart
    ensures var (m, outcome) := Hot(AsWritten, s.node, PlanOf(s.persisted.value, state), cfg, env);
            outcome.Changed? && TableCoherent(m) && TableOnDisk(m, state)
  {
    ConfigParts(state);
    IdleTables(s.persisted.value, state);
    IdleHotReload(s.node, PlanOf(s.persisted.value, state), cfg, env);
  }

  lemma RoundStaysSound(s: State, state: DesiredState, env: Env)
    requires Sound(s) && (Serving(state) ==> WellKeyed(state)) && EnvWritesSucceed(env) && !Misleading(s, state)
    ensures Sound(Round(AsWritten, s, state, env))
  {
    if Serving(state) && ConfigOf(state).Ok? {
      var cfg := ConfigOf(state).value;
      ConvergedSound(s, state, cfg, env);
      var (n, outcome) := Converged(AsWritten, s, state, cfg, env);
      CheckKeepsTables(n, env);
    }
  }

  lemma RiskyBreaks(s: State, state: DesiredState) returns (env: Env)
    requires Sound(s) && WellKeyed(state) && Risky(s, state)
    ensures EnvWritesSucceed(env) && !Truth(Round(AsWritten, s, state, env))
  {
    SomeFailureShows(s, state);
    env := if EndsTrue(s, state, Stopping(0)) then Stopping(1) else Stopping(0);
    RoundLeavesPrefix(s, state, env);
  }

  /** A failing start over a stale configuration rolls back to it. */
  lemma OverStaleBreaks(s: State, state: DesiredState) returns (env: Env)
    requires Sound(s) && OverStale(s, state)
    ensures EnvWritesSucceed(env) && !Truth(Round(AsWritten, s, state, env))
  {
    env := Stopping(0).(apply := OnlyRollbackStarts);
    var (m, outcome) := Applied(s.node, ConfigOf(state).value, true, OnlyRollbackStarts);
    assert outcome.Failed? && m.live == Some(Boot(s.node.config.value));
    assert Converged(AsWritten, s, state, ConfigOf(state).value, env) == (m, outcome);
  }

  /** A misleading round can be made to break the truth. */
  lemma MisleadingBreaks(s: State, state: DesiredState) returns (env: Env)
    requires Sound(s) && (Serving(state) ==> WellKeyed(state)) && Misleading(s, state)
    ensures EnvWritesSucceed(env) && !Truth(Round(AsWritten, s, state, env))
  {
    if Risky(s, state) {
      env := RiskyBreaks(s, state);
    } else {
      env := OverStaleBreaks(s, state);
    }
  }

  /* ---------- Runs ---------- */

  /** What the panel sends, round by round; None is a crash of the process between rounds. */
  type Feed = seq<Option<DesiredState>>

  function NextWritten(s: State, input: Option<DesiredState>, env: Env): State
  {
    match input
    case Some(state) => Round(AsWritten, s, state, env)
    case None => s.(node := s.node.(live := None))
  }

  function Written(s: State, feed: Feed, envs: seq<Env>, k: nat): State
    requires k <= |feed| && k <= |envs|
  {
    if k == 0 then s else NextWritten(Written(s, feed, envs, k - 1), feed[k - 1], envs[k - 1])
  }

  ghost predicate GoodFeed(feed: Feed)
  {
    forall i :: 0 <= i < |feed| && feed[i].Some? && Serving(feed[i].value) ==> WellKeyed(feed[i].value)
  }

  ghost predicate WritingEnvs(feed: Feed, envs: seq<Env>)
  {
    |envs| == |feed| && forall i :: 0 <= i < |envs| ==> EnvWritesSucceed(envs[i])
  }

  ghost predicate MisleadingAt(s: State, feed: Feed, envs: seq<Env>, i: nat)
    requires i < |feed| && i < |envs|
  {
    feed[i].Some? && Misleading(Written(s, feed, envs, i), feed[i].value)
  }

  lemma {:induction false} RunStaysSound(s: State, feed: Feed, envs: seq<Env>, k: nat)
    requires Sound(s) && GoodFeed(feed) && WritingEnvs(feed, envs) && k <= |feed|
    requires forall i :: 0 <= i < k ==> !MisleadingAt(s, feed, envs, i)
    ensures Sound(Written(s, feed, envs, k))
  {
    if k > 0 {
      RunStaysSound(s, feed, envs, k - 1);
      assert !MisleadingAt(s, feed, envs, k - 1);
      if feed[k - 1].Some? {
        RoundStaysSound(Written(s, feed, envs, k - 1), feed[k - 1].value, envs[k - 1]);
      }
    }
  }

  lemma {:induction false} SamePrefixSameRun(s: State, feed: Feed, envs: seq<Env>, others: seq<Env>, k: nat)
    requires k <= |feed| && k <= |envs| && k <= |others| && forall i :: 0 <= i < k ==> envs[i] == others[i]
    ensures Written(s, feed, envs, k) == Written(s, feed, others, k)
  {
    if k > 0 {
      SamePrefixSameRun(s, feed, envs, others, k - 1);
    }
  }

  lemma FirstOf(flags: seq<bool>, m: nat) returns (i: nat)
    requires m < |flags| && flags[m]
    ensures i <= m && flags[i] && forall k :: 0 <= k < i ==> !flags[k]
  {
    i := 0;
    while !flags[i]
      invariant i <= m && forall k :: 0 <= k < i ==> !flags[k]
      decreases m - i
    {
      i := i + 1;
    }
  }

  lemma FirstMisleading(s: State, feed: Feed, envs: seq<Env>, m: nat) returns (i: nat)
    requires |envs| == |feed| && m < |feed| && MisleadingAt(s, feed, envs, m)
    ensures i <= m && MisleadingAt(s, feed, envs, i) && forall k :: 0 <= k < i ==> !MisleadingAt(s, feed, envs, k)
  {
    var flags := seq(|feed|, k requires 0 <= k < |feed| => MisleadingAt(s, feed, envs, k));
    i := FirstOf(flags, m);
    forall k | 0 <= k < i ensures !MisleadingAt(s, feed, envs, k) {
      assert !flags[k];
    }
  }

  /** Bending one environment changes the run from there on only. */
  lemma BentRun(s: State, feed: Feed, envs: seq<Env>, i: nat, env: Env)
    requires |envs| == |feed| && i < |feed|
    ensures Written(s, feed, envs[i := env], i + 1) == NextWritten(Written(s, feed, envs, i), feed[i], env)
  {
    SamePrefixSameRun(s, feed, envs, envs[i := env], i);
  }

  /** With these environments the truth is broken after `k` rounds. */
  ghost predicate BreaksTruth(s: State, feed: Feed, envs: seq<Env>, k: nat)
  {
    WritingEnvs(feed, envs) && k <= |feed| && !Truth(Written(s, feed, envs, k))
  }

  lemma FirstSound(s: State, feed: Feed, envs: seq<Env>, m: nat) returns (i: nat)
    requires Sound(s) && GoodFeed(feed) && WritingEnvs(feed, envs) && m < |feed| && MisleadingAt(s, feed, envs, m)
    ensures i < |feed| && MisleadingAt(s, feed, envs, i) && Sound(Written(s, feed, envs, i))
  {
    i := FirstMisleading(s, feed, envs, m);
    RunStaysSound(s, feed, envs, i);
  }

  /** A run that reaches a misleading round from a sound state can be bent into one that breaks the truth there. */
  lemma BreakAt(s: State, feed: Feed, envs: seq<Env>, i: nat) returns (bent: seq<Env>)
    requires GoodFeed(feed) && WritingEnvs(feed, envs) && i < |feed| && MisleadingAt(s, feed, envs, i) && Sound(Written(s, feed, envs, i))
    ensures BreaksTruth(s, feed, bent, i + 1)
  {
    var env := BreakHere(Written(s, feed, envs, i), feed, i);
    bent := envs[i := env];
    BentRun(s, feed, envs, i, env);
  }

  lemma BreakHere(now: State, feed: Feed, i: nat) returns (env: Env)
    requires Sound(now) && GoodFeed(feed) && i < |feed| && feed[i].Some? && Misleading(now, feed[i].value)
    ensures EnvWritesSucceed(env) && !Truth(NextWritten(now, feed[i], env))
  {
    env := MisleadingBreaks(now, feed[i].value);
  }

  /** Every way the outside can behave keeps the truth throughout. */
  ghost predicate AlwaysTrue(s: State, feed: Feed)
  {
    forall envs, k :: WritingEnvs(feed, envs) && 0 <= k <= |feed| ==> Truth(Written(s, feed, envs, k))
  }

  /** No way the outside can behave leads to a misleading round. */
  ghost predicate NeverMisleading(s: State, feed: Feed)
  {
    forall envs, i :: WritingEnvs(feed, envs) && 0 <= i < |feed| ==> !MisleadingAt(s, feed, envs, i)
  }

  /** For the loop as written, and whatever the panel sends: however hot reloads, restarts, starts, recoveries and the process itself
      fail, the planner always starts from the truth, if and only if no run reaches a hot reload with something to do or a change
      over a stale configuration. */
  lemma WrittenLoopIsExact(s: State, feed: Feed)
    requires Sound(s) && GoodFeed(feed)
    ensures AlwaysTrue(s, feed) <==> NeverMisleading(s, feed)
  {
    if NeverMisleading(s, feed) {
      forall envs, k | WritingEnvs(feed, envs) && 0 <= k <= |feed| ensures Truth(Written(s, feed, envs, k)) {
        RunStaysSound(s, feed, envs, k);
        SoundIsTrue(Written(s, feed, envs, k));
      }
    } else {
      var envs, m :| WritingEnvs(feed, envs) && 0 <= m < |feed| && MisleadingAt(s, feed, envs, m);
      var i := FirstSound(s, feed, envs, m);
      var bent := BreakAt(s, feed, envs, i);
    }
  }
}
