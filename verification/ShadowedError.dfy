/** What the missing fallback of the hot-reload branch costs.  The fallback to a forced restart tests an outer `err` that is
    always nil there (internal/agent/agent.go:191 and 206), so a hot reload that stops half-way is accepted and its state is
    persisted.  The next plan then starts from the truth, whatever goes wrong, exactly when the plan had nothing to do. */
module ShadowedError {
  import opened Model
  import opened Text
  import opened Order
  import opened Builder
  import opened Runtime
  import opened HotUsers
  import opened Refinement
  import opened Process
  import opened Reconcile

  /* ---------- An accepted command always shows ---------- */

  lemma AcceptedChangesTable(t: Table, c: Command)
    requires Step(t, c).Some?
    ensures Step(t, c).value != t
  {
    match c
    case Adi(Ok(doc)) =>
      assert doc.tag in Step(t, c).value;
    case Rmi(tag) =>
      assert tag !in Step(t, c).value;
    case Adu(Ok(doc)) =>
      assert doc.accounts.clients[0].email in Step(t, c).value[doc.tag].accounts;
    case Rmu(tag, email) =>
      assert email !in Step(t, c).value[tag].accounts;
  }

  /* ---------- The first command of a plan ---------- */

  lemma FirstCommand(ops: seq<RuntimeOp>)
    requires ops != []
    ensures Commands(ops) != [] && Commands(ops)[0] == CommandsOf(ops[0])[0]
  {
  }

  lemma {:induction false} FirstRemoval(previous: seq<ManagedInbound>, nextById: LiveInbounds, n: nat)
    requires n <= |previous|
    ensures var ops := RemovalOps(previous, nextById, n);
            && (ops == [] ==> forall i :: 0 <= i < n ==> previous[i].id in nextById)
            && (ops != [] ==> exists i :: 0 <= i < n && ops[0] == RemoveInbound(previous[i].tag))
  {
    if n > 0 {
      FirstRemoval(previous, nextById, n - 1);
    }
  }

  lemma FirstRemovalAccepted(t: Table, previous: seq<ManagedInbound>, nextById: LiveInbounds)
    requires UniqueIds(previous) && Serves(t, InboundsById(previous, |previous|))
    requires RemovalOps(previous, nextById, |previous|) != []
    ensures Step(t, CommandsOf(RemovalOps(previous, nextById, |previous|)[0])[0]).Some?
  {
    FirstRemoval(previous, nextById, |previous|);
    var i :| 0 <= i < |previous| && RemovalOps(previous, nextById, |previous|)[0] == RemoveInbound(previous[i].tag);
    ServedTag(t, previous, i);
  }

  lemma ServedTag(t: Table, previous: seq<ManagedInbound>, i: nat)
    requires UniqueIds(previous) && Serves(t, InboundsById(previous, |previous|)) && i < |previous|
    ensures previous[i].tag in t
  {
    InboundsByIdKeys(previous, |previous|);
    assert InboundsById(previous, |previous|)[previous[i].id] == previous[i];
  }

  lemma {:induction false} FirstOfFlat(parts: seq<seq<RuntimeOp>>, n: nat) returns (m: nat)
    requires n <= |parts| && Flat(parts, n) != []
    ensures m < n && parts[m] != [] && Flat(parts, n)[0] == parts[m][0]
  {
    if Flat(parts, n - 1) == [] {
      m := n - 1;
    } else {
      m := FirstOfFlat(parts, n - 1);
    }
  }

  /** The first operation of the update loop is the first one of some inbound. */
  lemma FirstUpdate(prevById: LiveInbounds, desired: seq<ManagedInbound>) returns (m: nat)
    requires UpdateOps(prevById, desired, |desired|) != []
    ensures m < |desired| && InboundOps(prevById, desired[m]) != []
    ensures UpdateOps(prevById, desired, |desired|)[0] == InboundOps(prevById, desired[m])[0]
  {
    var parts := RoundOps(prevById, desired);
    UpdateOpsAreFlat(prevById, desired, parts, |desired|);
    m := FirstOfFlat(parts, |desired|);
  }

  /** The first command for an inbound that already runs is accepted. */
  lemma FirstOfRoundAccepted(t: Table, prevById: LiveInbounds, next: ManagedInbound)
    requires Serves(t, prevById) && next.id in prevById && prevById[next.id].id == next.id
    requires GoodInbound(prevById[next.id]) && GoodInbound(next) && Buildable(next)
    requires InboundOps(prevById, next) != []
    ensures Step(t, CommandsOf(InboundOps(prevById, next)[0])[0]).Some?
  {
    var ops, prior := InboundOps(prevById, next), prevById[next.id];
    if InboundBaseEqual(prior, next) && SupportsHotUsers(next.protocol) {
      UserPatch(t, prior, next);
      FirstCommand(ops);
      assert Run(t, Commands(ops)).Some?;
    }
  }

  /** The first command is refused only when it adds an inbound; then nothing was removed, and there are more inbounds. */
  lemma RefusedAtOnceGrows(previous: DesiredState, desired: DesiredState)
    requires PlannerInputs(previous, desired) && Operations(previous, desired) != []
    requires Step(TableOf(previous), Commands(Operations(previous, desired))[0]).None?
    ensures InboundsById(previous.inbounds, |previous.inbounds|).Keys < InboundsById(desired.inbounds, |desired.inbounds|).Keys
  {
    var t := TableOf(previous);
    var prevById, nextById := InboundsById(previous.inbounds, |previous.inbounds|), InboundsById(desired.inbounds, |desired.inbounds|);
    var removals := RemovalOps(previous.inbounds, nextById, |previous.inbounds|);
    FirstCommand(Operations(previous, desired));
    TableServes(previous);
    InboundsByIdKeys(previous.inbounds, |previous.inbounds|);
    InboundsByIdKeys(desired.inbounds, |desired.inbounds|);
    FirstRemoval(previous.inbounds, nextById, |previous.inbounds|);
    if removals != [] {
      FirstRemovalAccepted(t, previous.inbounds, nextById);
    }
    assert removals == [];
    var m := FirstUpdate(prevById, desired.inbounds);
    if desired.inbounds[m].id in prevById {
      FirstOfRoundAccepted(t, prevById, desired.inbounds[m]);
    }
    assert desired.inbounds[m].id in nextById;
  }

  /** A table has as many handlers as it serves inbounds. */
  lemma {:induction false} ServedSize(t: Table, live: LiveInbounds)
    requires Serves(t, live)
    ensures |t| == |live|
    decreases |live|
  {
    if live == map[] {
      assert t.Keys == {};
    } else {
      var id :| id in live;
      ServesRemoved(t, live, id);
      Smaller(live, id);
      Smaller(t, live[id].tag);
      ServedSize(t - {live[id].tag}, live - {id});
    }
  }

  lemma Smaller<V>(m: map<string, V>, k: string)
    requires k in m
    ensures |m - {k}| == |m| - 1
  {
    assert (m - {k}).Keys == m.Keys - {k};
    assert |m.Keys - {k}| == |m.Keys| - 1;
  }

  lemma TableOfSize(s: DesiredState)
    requires UniqueIds(s.inbounds) && UniqueTags(s.inbounds)
    ensures |TableOf(s)| == |InboundsById(s.inbounds, |s.inbounds|)|
  {
    TableServes(s);
    ServedSize(TableOf(s), InboundsById(s.inbounds, |s.inbounds|));
  }

  lemma ProperSubsetIsSmaller(a: set<string>, b: set<string>)
    requires a < b
    ensures |a| < |b|
  {
    assert b == a + (b - a);
    assert |b| == |a| + |b - a|;
  }

  /** Between states with equal tables, a plan that does anything at all begins with a command that is accepted. */
  lemma FirstCommandAccepted(previous: DesiredState, desired: DesiredState)
    requires PlannerInputs(previous, desired) && Operations(previous, desired) != [] && TableOf(previous) == TableOf(desired)
    ensures Commands(Operations(previous, desired)) != []
    ensures Step(TableOf(previous), Commands(Operations(previous, desired))[0]).Some?
  {
    FirstCommand(Operations(previous, desired));
    if Step(TableOf(previous), Commands(Operations(previous, desired))[0]).None? {
      RefusedAtOnceGrows(previous, desired);
      TableOfSize(previous);
      TableOfSize(desired);
      ProperSubsetIsSmaller(InboundsById(previous.inbounds, |previous.inbounds|).Keys,
                            InboundsById(desired.inbounds, |desired.inbounds|).Keys);
    }
  }

  /* ---------- The round as written ---------- */

  ghost predicate HealthyEnv(env: Env)
  {
    EnvWritesSucceed(env) && !env.dies && env.healthy
  }

  /** The round persisted `state`, and the process serves its handlers: the next plan starts from the truth. */
  ghost predicate EndsTrue(s: State, state: DesiredState, env: Env)
  {
    var r := Round(AsWritten, s, state, env);
    r.persisted == Some(state) && r.node.live.Some? && r.node.live.value.table == TableOf(state)
  }

  ghost predicate HotRound(s: State, state: DesiredState)
  {
    && s.node.live.Some? && s.persisted.Some? && Serving(s.persisted.value) && WellKeyed(s.persisted.value)
    && s.node.live.value.table == TableOf(s.persisted.value)
    && Serving(state) && ConfigOf(state).Ok? && WellKeyed(state)
    && !PlanOf(s.persisted.value, state).requiresRestart
  }

  function TableLeft(t: Table, commands: seq<Command>, env: Env): Table
  {
    if env.valid then Executed(t, commands, env.budget).0 else t
  }

  lemma HotLeavesPrefix(n: Node, plan: RuntimePlan, cfg: Config, env: Env)
    requires n.live.Some? && !plan.requiresRestart
    ensures var (m, outcome) := Hot(AsWritten, n, plan, cfg, env);
            outcome.Changed? && m.live.Some? && m.live.value.table == TableLeft(n.live.value.table, Commands(plan.operations), env)
  {
  }

  lemma HealthyIsUntouched(n: Node, env: Env)
    requires !env.dies && env.healthy
    ensures Checked(n, env) == (n, Changed)
  {
  }

  /** Whatever fails in the hot-reload branch, the round ends without an error, with the table the commands left. */
  lemma RoundLeavesPrefix(s: State, state: DesiredState, env: Env)
    requires HotRound(s, state) && HealthyEnv(env)
    ensures var r := Round(AsWritten, s, state, env);
            && r.persisted == Some(state) && r.node.live.Some?
            && r.node.live.value.table == TableLeft(TableOf(s.persisted.value), Commands(Operations(s.persisted.value, state)), env)
  {
    var cfg, plan := ConfigOf(state).value, PlanOf(s.persisted.value, state);
    HotLeavesPrefix(s.node, plan, cfg, env);
    assert Converged(AsWritten, s, state, cfg, env) == Hot(AsWritten, s.node, plan, cfg, env);
    HealthyIsUntouched(Hot(AsWritten, s.node, plan, cfg, env).0, env);
  }

  function Stopping(budget: nat): Env
  {
    Env(true, budget, AllGood, AllGood, AllGood, true, false, true, AllGood)
  }

  lemma StopsAtOnce(t: Table, commands: seq<Command>)
    ensures Executed(t, commands, 0).0 == t
    ensures commands != [] && Step(t, commands[0]).Some? ==> Executed(t, commands, 1).0 == Step(t, commands[0]).value
  {
  }

  lemma SomeFailureShows(s: State, state: DesiredState)
    requires HotRound(s, state) && Operations(s.persisted.value, state) != []
    ensures !EndsTrue(s, state, Stopping(0)) || !EndsTrue(s, state, Stopping(1))
  {
    var previous := s.persisted.value;
    var commands := Commands(Operations(previous, state));
    RoundLeavesPrefix(s, state, Stopping(0));
    RoundLeavesPrefix(s, state, Stopping(1));
    StopsAtOnce(TableOf(previous), commands);
    if TableOf(previous) == TableOf(state) {
      ConfigParts(state);
      FirstCommandAccepted(previous, state);
      AcceptedChangesTable(TableOf(previous), commands[0]);
    }
  }

  lemma NothingToDoEndsTrue(s: State, state: DesiredState, env: Env)
    requires HotRound(s, state) && HealthyEnv(env) && Operations(s.persisted.value, state) == []
    ensures EndsTrue(s, state, env)
  {
    ConfigParts(state);
    HotReloadRefinesRebuild(s.persisted.value, state);
    RoundLeavesPrefix(s, state, env);
  }

  /** The code as written keeps the planner's starting point true under every failure of a hot reload exactly when the plan
      is empty. */
  lemma ShadowedErrorIsHarmlessWithoutOperations(s: State, state: DesiredState)
    requires HotRound(s, state)
    ensures (forall env :: HealthyEnv(env) ==> EndsTrue(s, state, env)) <==> Operations(s.persisted.value, state) == []
  {
    if Operations(s.persisted.value, state) == [] {
      forall env | HealthyEnv(env) ensures EndsTrue(s, state, env) {
        NothingToDoEndsTrue(s, state, env);
      }
    } else {
      SomeFailureShows(s, state);
      assert HealthyEnv(Stopping(0)) && HealthyEnv(Stopping(1));
    }
  }

  /** With the fallback as documented, a round over the same situation either reports an error or ends true. */
  lemma FallbackRepairs(s: State, state: DesiredState, env: Env)
    requires Inv(s) && HotRound(s, state) && HealthyEnv(env)
    ensures var r := Round(AsDocumented, s, state, env);
            Inv(r) && (r.persisted == s.persisted || (r.persisted == Some(state) && r.node.live.Some? && r.node.live.value.table == TableOf(state)))
  {
    RoundKeepsTruth(s, state, env);
    ConvergedCoherent(s, state, ConfigOf(state).value, env);
    if Round(AsDocumented, s, state, env).persisted == Some(state) && s.persisted != Some(state) {
      PersistedStateIsTrue(Round(AsDocumented, s, state, env));
    }
  }
}
