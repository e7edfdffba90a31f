/** Which users a plan interrupts.  A plan leaves a user alone exactly when its inbound keeps its base and the planner finds the
    users equal, or can patch them and does not retire this one; and then the user is served after every prefix of the plan. */
module NonDisruption {
  import opened Model
  import opened Text
  import opened Order
  import opened Accounting
  import opened Builder
  import opened Runtime
  import opened HotUsers
  import opened Refinement

  /** The command takes neither the inbound nor the user away. */
  predicate CommandSpares(c: Command, tag: string, email: string)
  {
    c != Rmi(tag) && c != Rmu(tag, email)
  }

  predicate OpSpares(op: RuntimeOp, tag: string, email: string)
  {
    match op
    case RemoveInbound(x) => x != tag
    case ReplaceInbound(x, _) => x != tag
    case RemoveUser(x, e) => x != tag || e != email
    case _ => true
  }

  ghost predicate OpsSpare(ops: seq<RuntimeOp>, tag: string, email: string)
  {
    forall op :: op in ops ==> OpSpares(op, tag, email)
  }

  ghost predicate CommandsSpare(commands: seq<Command>, tag: string, email: string)
  {
    forall c :: c in commands ==> CommandSpares(c, tag, email)
  }

  lemma OpCommandsSpare(op: RuntimeOp, tag: string, email: string)
    ensures CommandsSpare(CommandsOf(op), tag, email) <==> OpSpares(op, tag, email)
  {
    match op
    case RemoveInbound(x) => assert CommandsOf(op)[0] in CommandsOf(op);
    case ReplaceInbound(x, _) => assert CommandsOf(op)[0] in CommandsOf(op);
    case RemoveUser(x, e) => assert CommandsOf(op)[0] in CommandsOf(op);
    case _ =>
  }

  lemma {:induction false} AllCommandsSpare(ops: seq<RuntimeOp>, tag: string, email: string)
    ensures CommandsSpare(Commands(ops), tag, email) <==> OpsSpare(ops, tag, email)
  {
    if ops != [] {
      AllCommandsSpare(ops[1..], tag, email);
      OpCommandsSpare(ops[0], tag, email);
      assert ops == [ops[0]] + ops[1..];
      SpareBoth([ops[0]], ops[1..], tag, email);
      assert forall c :: c in Commands(ops) <==> c in CommandsOf(ops[0]) || c in Commands(ops[1..]);
    }
  }

  lemma SpareBoth(a: seq<RuntimeOp>, b: seq<RuntimeOp>, tag: string, email: string)
    ensures OpsSpare(a + b, tag, email) <==> OpsSpare(a, tag, email) && OpsSpare(b, tag, email)
  {
    assert forall op :: op in a + b <==> op in a || op in b;
  }

  /* ---------- What a plan spares ---------- */

  /** The planner leaves user `i` of the old version alone. */
  predicate SparedBy(prior: ManagedInbound, next: ManagedInbound, i: nat)
    requires i < |prior.users|
  {
    InboundBaseEqual(prior, next) &&
    (UsersRuntimeEqual(prior.users, next.users) ||
     (SupportsHotUsers(next.protocol) && !Retired(prior.users[i], UsersById(next.users, |next.users|))))
  }

  ghost predicate Names(s: DesiredState, p: nat, i: nat)
  {
    p < |s.inbounds| && i < |s.inbounds[p].users|
  }

  /** The inbound of the user is still wanted, and its new version spares the user. */
  ghost predicate Undisturbed(previous: DesiredState, desired: DesiredState, p: nat, i: nat)
    requires Names(previous, p, i)
  {
    exists q :: 0 <= q < |desired.inbounds| && desired.inbounds[q].id == previous.inbounds[p].id &&
                SparedBy(previous.inbounds[p], desired.inbounds[q], i)
  }

  lemma {:induction false} UserRemovalsSpare(prior: ManagedInbound, newUsers: map<string, ManagedUser>, n: nat, i: nat)
    requires n <= |prior.users| && i < |prior.users| && DistinctEmails(prior) && prior.users[i].enabled
    ensures OpsSpare(UserRemovals(prior, newUsers, n), prior.tag, EmailOf(prior, i)) <==> (i < n ==> !Retired(prior.users[i], newUsers))
  {
    if n > 0 {
      UserRemovalsSpare(prior, newUsers, n - 1, i);
      var before, op := UserRemovals(prior, newUsers, n - 1), RemoveUser(prior.tag, EmailOf(prior, n - 1));
      if Retired(prior.users[n - 1], newUsers) {
        SpareBoth(before, [op], prior.tag, EmailOf(prior, i));
        assert op in [op];
        assert OpSpares(op, prior.tag, EmailOf(prior, i)) <==> i != n - 1;
      } else {
        assert before + [] == before;
      }
    }
  }

  lemma {:induction false} OtherTagSpared(prior: ManagedInbound, newUsers: map<string, ManagedUser>, n: nat, tag: string, email: string)
    requires n <= |prior.users| && prior.tag != tag
    ensures OpsSpare(UserRemovals(prior, newUsers, n), tag, email)
  {
    if n > 0 {
      OtherTagSpared(prior, newUsers, n - 1, tag, email);
    }
  }

  lemma {:induction false} UserAdditionsSpare(next: ManagedInbound, oldUsers: map<string, ManagedUser>, n: nat, tag: string, email: string)
    requires n <= |next.users|
    ensures OpsSpare(UserAdditions(next, oldUsers, n), tag, email)
  {
    if n > 0 {
      UserAdditionsSpare(next, oldUsers, n - 1, tag, email);
    }
  }

  /** The round of another inbound never touches the user. */
  lemma OtherRoundSpares(prevById: LiveInbounds, next: ManagedInbound, tag: string, email: string)
    requires next.id in prevById ==> prevById[next.id].tag != tag
    ensures OpsSpare(InboundOps(prevById, next), tag, email)
  {
    if next.id in prevById {
      var prior := prevById[next.id];
      var newUsers, oldUsers := UsersById(next.users, |next.users|), UsersById(prior.users, |prior.users|);
      OtherTagSpared(prior, newUsers, |prior.users|, tag, email);
      UserAdditionsSpare(next, oldUsers, |next.users|, tag, email);
      SpareBoth(UserRemovals(prior, newUsers, |prior.users|), UserAdditions(next, oldUsers, |next.users|), tag, email);
    }
  }

  /** The round of its own inbound spares the user exactly when the new version does. */
  lemma OwnRoundSpares(prevById: LiveInbounds, next: ManagedInbound, i: nat)
    requires next.id in prevById && i < |prevById[next.id].users|
    requires DistinctEmails(prevById[next.id]) && prevById[next.id].users[i].enabled
    ensures var prior := prevById[next.id];
            OpsSpare(InboundOps(prevById, next), prior.tag, EmailOf(prior, i)) <==> SparedBy(prior, next, i)
  {
    var prior := prevById[next.id];
    var newUsers, oldUsers := UsersById(next.users, |next.users|), UsersById(prior.users, |prior.users|);
    var ops := InboundOps(prevById, next);
    if InboundBaseEqual(prior, next) && !UsersRuntimeEqual(prior.users, next.users) && SupportsHotUsers(next.protocol) {
      UserRemovalsSpare(prior, newUsers, |prior.users|, i);
      UserAdditionsSpare(next, oldUsers, |next.users|, prior.tag, EmailOf(prior, i));
      SpareBoth(UserRemovals(prior, newUsers, |prior.users|), UserAdditions(next, oldUsers, |next.users|), prior.tag, EmailOf(prior, i));
    } else if ops != [] {
      assert ops[0] in ops && !OpSpares(ops[0], prior.tag, EmailOf(prior, i));
    }
  }

  lemma RoundSpares(previous: DesiredState, prevById: LiveInbounds, next: ManagedInbound, p: nat, i: nat)
    requires KeyedState(previous) && Names(previous, p, i) && previous.inbounds[p].users[i].enabled
    requires prevById == InboundsById(previous.inbounds, |previous.inbounds|)
    ensures var prior := previous.inbounds[p];
            OpsSpare(InboundOps(prevById, next), prior.tag, EmailOf(prior, i)) <==> (next.id == prior.id ==> SparedBy(prior, next, i))
  {
    var prior := previous.inbounds[p];
    InboundsByIdKeys(previous.inbounds, |previous.inbounds|);
    assert prevById[prior.id] == prior;
    if next.id == prior.id {
      OwnRoundSpares(prevById, next, i);
    } else {
      OtherRoundSpares(prevById, next, prior.tag, EmailOf(prior, i));
    }
  }

  /** No desired inbound among the first `n` disturbs the user. */
  ghost predicate SparedUpTo(prior: ManagedInbound, desired: seq<ManagedInbound>, i: nat, n: nat)
    requires i < |prior.users| && n <= |desired|
  {
    forall m :: 0 <= m < n && desired[m].id == prior.id ==> SparedBy(prior, desired[m], i)
  }

  lemma {:induction false} FlatSpares(parts: seq<seq<RuntimeOp>>, n: nat, tag: string, email: string)
    requires n <= |parts|
    ensures OpsSpare(Flat(parts, n), tag, email) <==> forall m :: 0 <= m < n ==> OpsSpare(parts[m], tag, email)
  {
    if n > 0 {
      FlatSpares(parts, n - 1, tag, email);
      SpareBoth(Flat(parts, n - 1), parts[n - 1], tag, email);
    }
  }

  lemma UpdatesSpare(previous: DesiredState, prevById: LiveInbounds, desired: seq<ManagedInbound>, p: nat, i: nat)
    requires KeyedState(previous) && Names(previous, p, i) && previous.inbounds[p].users[i].enabled
    requires prevById == InboundsById(previous.inbounds, |previous.inbounds|)
    ensures var prior := previous.inbounds[p];
            OpsSpare(UpdateOps(prevById, desired, |desired|), prior.tag, EmailOf(prior, i)) <==> SparedUpTo(prior, desired, i, |desired|)
  {
    var prior := previous.inbounds[p];
    var parts := RoundOps(prevById, desired);
    UpdateOpsAreFlat(prevById, desired, parts, |desired|);
    FlatSpares(parts, |desired|, prior.tag, EmailOf(prior, i));
    forall m | 0 <= m < |desired|
      ensures OpsSpare(parts[m], prior.tag, EmailOf(prior, i)) <==> (desired[m].id == prior.id ==> SparedBy(prior, desired[m], i))
    {
      RoundSpares(previous, prevById, desired[m], p, i);
    }
  }

  lemma {:induction false} RemovalOpsSpare(previous: seq<ManagedInbound>, nextById: LiveInbounds, n: nat, p: nat, email: string)
    requires n <= |previous| && p < |previous| && UniqueTags(previous)
    ensures OpsSpare(RemovalOps(previous, nextById, n), previous[p].tag, email) <==> (p < n ==> previous[p].id in nextById)
  {
    if n > 0 {
      RemovalOpsSpare(previous, nextById, n - 1, p, email);
      var before, op := RemovalOps(previous, nextById, n - 1), RemoveInbound(previous[n - 1].tag);
      if previous[n - 1].id in nextById {
        assert before + [] == before;
      } else {
        SpareBoth(before, [op], previous[p].tag, email);
        assert op in [op];
        assert OpSpares(op, previous[p].tag, email) <==> p != n - 1;
      }
    }
  }

  /** A plan has no command against the user exactly when the user is undisturbed. */
  lemma PlanSpares(previous: DesiredState, desired: DesiredState, p: nat, i: nat)
    requires KeyedState(previous) && UniqueIds(desired.inbounds) && Names(previous, p, i) && previous.inbounds[p].users[i].enabled
    ensures CommandsSpare(Commands(Operations(previous, desired)), previous.inbounds[p].tag, EmailOf(previous.inbounds[p], i)) <==>
            Undisturbed(previous, desired, p, i)
  {
    var prior := previous.inbounds[p];
    var tag, email := prior.tag, EmailOf(prior, i);
    var prevById := InboundsById(previous.inbounds, |previous.inbounds|);
    var nextById := InboundsById(desired.inbounds, |desired.inbounds|);
    var removals, updates := RemovalOps(previous.inbounds, nextById, |previous.inbounds|), UpdateOps(prevById, desired.inbounds, |desired.inbounds|);
    AllCommandsSpare(Operations(previous, desired), tag, email);
    SpareBoth(removals, updates, tag, email);
    RemovalOpsSpare(previous.inbounds, nextById, |previous.inbounds|, p, email);
    UpdatesSpare(previous, prevById, desired.inbounds, p, i);
    UndisturbedById(previous, desired, p, i);
  }

  lemma UndisturbedById(previous: DesiredState, desired: DesiredState, p: nat, i: nat)
    requires UniqueIds(desired.inbounds) && Names(previous, p, i)
    ensures var prior := previous.inbounds[p];
            Undisturbed(previous, desired, p, i) <==>
            prior.id in InboundsById(desired.inbounds, |desired.inbounds|) && SparedUpTo(prior, desired.inbounds, i, |desired.inbounds|)
  {
    var prior := previous.inbounds[p];
    InboundsByIdKeys(desired.inbounds, |desired.inbounds|);
    if prior.id in InboundsById(desired.inbounds, |desired.inbounds|) {
      var q :| 0 <= q < |desired.inbounds| && desired.inbounds[q].id == prior.id;
      assert forall m :: 0 <= m < |desired.inbounds| && desired.inbounds[m].id == prior.id ==> m == q;
    }
  }

  /* ---------- What the live table shows ---------- */

  ghost predicate Present(t: Table, tag: string, email: string, account: Account)
  {
    tag in t && email in t[tag].accounts && t[tag].accounts[email] == account
  }

  /** After the first `n` commands, if they go through, the user is served with its account. */
  ghost predicate PresentAfter(t: Table, commands: seq<Command>, n: nat, tag: string, email: string, account: Account)
    requires n <= |commands|
  {
    var r := Run(t, commands[..n]);
    r.Some? ==> Present(r.value, tag, email, account)
  }

  lemma {:induction false} RunSpares(t: Table, commands: seq<Command>, tag: string, email: string, account: Account)
    requires Present(t, tag, email, account) && Run(t, commands).Some? && CommandsSpare(commands, tag, email)
    ensures Present(Run(t, commands).value, tag, email, account)
    decreases |commands|
  {
    if commands != [] {
      assert commands[0] in commands && CommandSpares(commands[0], tag, email);
      StepSpares(t, commands[0], tag, email, account);
      forall c | c in commands[1..] ensures CommandSpares(c, tag, email) {
        assert c in commands;
      }
      RunSpares(Step(t, commands[0]).value, commands[1..], tag, email, account);
    }
  }

  lemma StepSpares(t: Table, c: Command, tag: string, email: string, account: Account)
    requires Present(t, tag, email, account) && CommandSpares(c, tag, email)
    ensures Step(t, c).Some? ==> Present(Step(t, c).value, tag, email, account)
  {
  }

  lemma StepTakesAway(t: Table, c: Command, tag: string, email: string, account: Account)
    requires !CommandSpares(c, tag, email) && Step(t, c).Some?
    ensures !Present(Step(t, c).value, tag, email, account)
  {
  }

  lemma PrefixSnoc(t: Table, commands: seq<Command>, n: nat)
    requires n < |commands|
    ensures Run(t, commands[..n + 1]) == match Run(t, commands[..n]) case None => None case Some(t') => Step(t', commands[n])
  {
    assert commands[..n + 1] == commands[..n] + [commands[n]];
    RunConcat(t, commands[..n], [commands[n]]);
    if Run(t, commands[..n]).Some? {
      RunSingle(Run(t, commands[..n]).value, commands[n]);
    }
  }

  lemma PrefixRuns(t: Table, commands: seq<Command>, k: nat, n: nat)
    requires k <= n <= |commands| && Run(t, commands[..n]).Some?
    ensures Run(t, commands[..k]).Some?
  {
    assert commands[..n] == commands[..k] + commands[k..n];
    RunConcat(t, commands[..k], commands[k..n]);
  }

  /** A command against the user is never reached. */
  ghost predicate Unreached(t: Table, commands: seq<Command>, m: nat)
    requires m < |commands|
  {
    Run(t, commands[..m + 1]).None?
  }

  /** The user is served throughout exactly when every command against it comes too late to be carried out. */
  lemma PresenceIsExact(t: Table, commands: seq<Command>, tag: string, email: string, account: Account)
    requires Present(t, tag, email, account)
    ensures (forall n :: 0 <= n <= |commands| ==> PresentAfter(t, commands, n, tag, email, account)) <==>
            (forall m :: 0 <= m < |commands| && !CommandSpares(commands[m], tag, email) ==> Unreached(t, commands, m))
  {
    if forall n :: 0 <= n <= |commands| ==> PresentAfter(t, commands, n, tag, email, account) {
      forall m | 0 <= m < |commands| && !CommandSpares(commands[m], tag, email) ensures Unreached(t, commands, m) {
        PrefixSnoc(t, commands, m);
        assert PresentAfter(t, commands, m + 1, tag, email, account);
        if Run(t, commands[..m + 1]).Some? {
          StepTakesAway(Run(t, commands[..m]).value, commands[m], tag, email, account);
        }
      }
    }
    if forall m :: 0 <= m < |commands| && !CommandSpares(commands[m], tag, email) ==> Unreached(t, commands, m) {
      forall n | 0 <= n <= |commands| ensures PresentAfter(t, commands, n, tag, email, account) {
        ReachedSpare(t, commands, tag, email, account, n);
      }
    }
  }

  lemma ReachedSpare(t: Table, commands: seq<Command>, tag: string, email: string, account: Account, n: nat)
    requires Present(t, tag, email, account) && n <= |commands|
    requires forall m :: 0 <= m < |commands| && !CommandSpares(commands[m], tag, email) ==> Unreached(t, commands, m)
    ensures PresentAfter(t, commands, n, tag, email, account)
  {
    if Run(t, commands[..n]).Some? {
      forall c | c in commands[..n] ensures CommandSpares(c, tag, email) {
        var k :| 0 <= k < n && commands[..n][k] == c;
        PrefixRuns(t, commands, k + 1, n);
        assert !Unreached(t, commands, k) && commands[k] == c;
      }
      RunSpares(t, commands[..n], tag, email, account);
    }
  }

  /** An enabled user of the previous state is served by a process started from it. */
  lemma ServedBefore(previous: DesiredState, p: nat, i: nat)
    requires KeyedState(previous) && Names(previous, p, i) && previous.inbounds[p].users[i].enabled
    requires CarriesUsers(previous.inbounds[p].protocol)
    ensures Present(TableOf(previous), previous.inbounds[p].tag, EmailOf(previous.inbounds[p], i), AccountOf(previous.inbounds[p].users[i]))
  {
    var prior := previous.inbounds[p];
    TableServes(previous);
    InboundsByIdKeys(previous.inbounds, |previous.inbounds|);
    assert InboundsById(previous.inbounds, |previous.inbounds|)[prior.id] == prior;
    CarriedAccounts(prior);
    UserAccountsMeaning(prior, |prior.users|);
  }

  /** The user is served, with its account, after every prefix of the plan that goes through. */
  ghost predicate NeverInterrupted(previous: DesiredState, desired: DesiredState, p: nat, i: nat)
    requires Names(previous, p, i)
  {
    var prior, commands := previous.inbounds[p], Commands(Operations(previous, desired));
    forall n :: 0 <= n <= |commands| ==>
                  PresentAfter(TableOf(previous), commands, n, prior.tag, EmailOf(prior, i), AccountOf(prior.users[i]))
  }

  /** An undisturbed user is never interrupted; and when the plan runs to the end, nobody else is left uninterrupted. */
  lemma PrefixIsNonDisruptive(previous: DesiredState, desired: DesiredState, p: nat, i: nat)
    requires KeyedState(previous) && UniqueIds(desired.inbounds) && Names(previous, p, i) && previous.inbounds[p].users[i].enabled
    requires CarriesUsers(previous.inbounds[p].protocol)
    ensures Undisturbed(previous, desired, p, i) ==> NeverInterrupted(previous, desired, p, i)
    ensures Run(TableOf(previous), Commands(Operations(previous, desired))).Some? ==>
              (NeverInterrupted(previous, desired, p, i) <==> Undisturbed(previous, desired, p, i))
  {
    var prior, commands := previous.inbounds[p], Commands(Operations(previous, desired));
    var tag, email, account := prior.tag, EmailOf(prior, i), AccountOf(prior.users[i]);
    ServedBefore(previous, p, i);
    PlanSpares(previous, desired, p, i);
    PresenceIsExact(TableOf(previous), commands, tag, email, account);
    if !CommandsSpare(commands, tag, email) && Run(TableOf(previous), commands).Some? {
      var c :| c in commands && !CommandSpares(c, tag, email);
      var m :| 0 <= m < |commands| && commands[m] == c;
      assert commands[..|commands|] == commands;
      PrefixRuns(TableOf(previous), commands, m + 1, |commands|);
      assert !Unreached(TableOf(previous), commands, m);
    }
  }
}
