/** What holds while a plan runs and after any chain of plans: no stray users, no needless disconnection, covered
    statistics levels, unchanged routing.  Two concrete states show where the planner's assumptions are needed. */
module RuntimeSafety {
  import opened Model
  import opened Text
  import opened Order
  import opened Accounting
  import opened Builder
  import opened Runtime
  import opened HotUsers
  import opened Refinement

  /* ---------- No stray users at any prefix ---------- */

  ghost predicate Granted(s: DesiredState, tag: string, email: string, account: Account)
  {
    exists i, j :: 0 <= i < |s.inbounds| && 0 <= j < |s.inbounds[i].users| && GrantedBy(s.inbounds[i], j, tag, email, account)
  }

  ghost predicate GrantedBy(input: ManagedInbound, j: nat, tag: string, email: string, account: Account)
    requires j < |input.users|
  {
    input.tag == tag && input.users[j].enabled && EmailOf(input, j) == email && AccountOf(input.users[j]) == account
  }

  /** Every account of the live table is granted, under its tag and with its level and credential, by one of the states. */
  ghost predicate NoStrangers(t: Table, previous: DesiredState, desired: DesiredState)
  {
    forall tag, email :: tag in t && email in t[tag].accounts ==>
      Granted(previous, tag, email, t[tag].accounts[email]) || Granted(desired, tag, email, t[tag].accounts[email])
  }

  lemma {:induction false} AccountsComeFromUsers(input: ManagedInbound, n: nat, e: string)
    requires n <= |input.users| && e in UserAccounts(input, n)
    ensures exists i :: 0 <= i < n && input.users[i].enabled && EmailOf(input, i) == e && AccountOf(input.users[i]) == UserAccounts(input, n)[e]
  {
    if input.users[n - 1].enabled && EmailOf(input, n - 1) == e {
    } else {
      AccountsComeFromUsers(input, n - 1, e);
      var i :| 0 <= i < n - 1 && input.users[i].enabled && EmailOf(input, i) == e &&
               AccountOf(input.users[i]) == UserAccounts(input, n - 1)[e];
    }
  }

  lemma HandlerGranted(s: DesiredState, k: nat, email: string)
    requires k < |s.inbounds| && email in HandlerFor(s.inbounds[k]).accounts
    ensures Granted(s, s.inbounds[k].tag, email, HandlerFor(s.inbounds[k]).accounts[email])
  {
    var input := s.inbounds[k];
    AccountTableOfClients(input, |input.users|);
    assert HandlerFor(input).accounts == AllAccounts(input);
    AccountsComeFromUsers(input, |input.users|, email);
    var i :| 0 <= i < |input.users| && input.users[i].enabled && EmailOf(input, i) == email &&
             AccountOf(input.users[i]) == AllAccounts(input)[email];
    assert GrantedBy(input, i, input.tag, email, HandlerFor(input).accounts[email]);
  }

  /** An operation that only brings in inbounds and enabled users of `desired`. */
  ghost predicate OpGranted(op: RuntimeOp, desired: DesiredState)
  {
    match op
    case AddInbound(input) => input in desired.inbounds
    case ReplaceInbound(_, input) => input in desired.inbounds
    case AddUser(input, u) => input in desired.inbounds && u in input.users && u.enabled
    case _ => true
  }

  lemma {:induction false} AdditionsGranted(next: ManagedInbound, oldUsers: map<string, ManagedUser>, n: nat, desired: DesiredState)
    requires n <= |next.users| && next in desired.inbounds
    ensures forall op :: op in UserAdditions(next, oldUsers, n) ==> OpGranted(op, desired)
  {
    if n > 0 {
      AdditionsGranted(next, oldUsers, n - 1, desired);
    }
  }

  lemma {:induction false} RemovalsGranted(prior: ManagedInbound, newUsers: map<string, ManagedUser>, n: nat, desired: DesiredState)
    requires n <= |prior.users|
    ensures forall op :: op in UserRemovals(prior, newUsers, n) ==> OpGranted(op, desired)
  {
    if n > 0 {
      RemovalsGranted(prior, newUsers, n - 1, desired);
    }
  }

  lemma {:induction false} UpdatesGranted(prevById: LiveInbounds, desired: DesiredState, n: nat)
    requires n <= |desired.inbounds|
    ensures forall op :: op in UpdateOps(prevById, desired.inbounds, n) ==> OpGranted(op, desired)
  {
    if n > 0 {
      UpdatesGranted(prevById, desired, n - 1);
      var next := desired.inbounds[n - 1];
      if next.id in prevById {
        var prior := prevById[next.id];
        AdditionsGranted(next, UsersById(prior.users, |prior.users|), |next.users|, desired);
        RemovalsGranted(prior, UsersById(next.users, |next.users|), |prior.users|, desired);
      }
    }
  }

  lemma {:induction false} RemovalOpsGranted(previous: seq<ManagedInbound>, nextById: LiveInbounds, n: nat, desired: DesiredState)
    requires n <= |previous|
    ensures forall op :: op in RemovalOps(previous, nextById, n) ==> OpGranted(op, desired)
  {
    if n > 0 {
      RemovalOpsGranted(previous, nextById, n - 1, desired);
    }
  }

  /** A command that can only bring in accounts of `desired`. */
  ghost predicate CommandGranted(c: Command, desired: DesiredState)
  {
    match c
    case Adi(Ok(doc)) => exists k :: 0 <= k < |desired.inbounds| && doc == InboundBody(desired.inbounds[k])
    case Adu(Ok(doc)) =>
      doc.accounts.Clients? && |doc.accounts.clients| == 1 ==>
        var u := doc.accounts.clients[0];
        Granted(desired, doc.tag, u.email, Account(u.level, u.fields))
    case _ => true
  }

  lemma OpCommandsGranted(op: RuntimeOp, desired: DesiredState)
    requires OpGranted(op, desired)
    ensures forall c :: c in CommandsOf(op) ==> CommandGranted(c, desired)
  {
    match op
    case AddInbound(input) =>
      var k :| 0 <= k < |desired.inbounds| && desired.inbounds[k] == input;
    case ReplaceInbound(_, input) =>
      var k :| 0 <= k < |desired.inbounds| && desired.inbounds[k] == input;
    case AddUser(input, u) =>
      if Buildable(input) && SupportsHotUsers(input.protocol) {
        UserDocumentOf(input, u);
        var k :| 0 <= k < |desired.inbounds| && desired.inbounds[k] == input;
        var j :| 0 <= j < |input.users| && input.users[j] == u;
        var client := ClientOf(input.id, u);
        assert GrantedBy(desired.inbounds[k], j, input.tag, client.email, Account(client.level, client.fields));
      }
    case _ =>
  }

  lemma {:induction false} AllCommandsGranted(ops: seq<RuntimeOp>, desired: DesiredState)
    requires forall op :: op in ops ==> OpGranted(op, desired)
    ensures forall c :: c in Commands(ops) ==> CommandGranted(c, desired)
  {
    if ops != [] {
      assert ops[0] in ops;
      OpCommandsGranted(ops[0], desired);
      AllCommandsGranted(ops[1..], desired);
    }
  }

  lemma StepKeepsNoStrangers(t: Table, c: Command, previous: DesiredState, desired: DesiredState)
    requires NoStrangers(t, previous, desired) && CommandGranted(c, desired) && Step(t, c).Some?
    ensures NoStrangers(Step(t, c).value, previous, desired)
  {
    var t' := Step(t, c).value;
    forall tag, email | tag in t' && email in t'[tag].accounts
      ensures Granted(previous, tag, email, t'[tag].accounts[email]) || Granted(desired, tag, email, t'[tag].accounts[email])
    {
      if tag in t && email in t[tag].accounts && t'[tag].accounts[email] == t[tag].accounts[email] {
      } else if c.Adi? {
        var k :| 0 <= k < |desired.inbounds| && c.doc.value == InboundBody(desired.inbounds[k]);
        HandlerGranted(desired, k, email);
      }
    }
  }

  lemma {:induction false} RunKeepsNoStrangers(t: Table, commands: seq<Command>, previous: DesiredState, desired: DesiredState)
    requires NoStrangers(t, previous, desired) && Run(t, commands).Some?
    requires forall c :: c in commands ==> CommandGranted(c, desired)
    ensures NoStrangers(Run(t, commands).value, previous, desired)
    decreases |commands|
  {
    if commands != [] {
      assert commands[0] in commands;
      StepKeepsNoStrangers(t, commands[0], previous, desired);
      RunKeepsNoStrangers(Step(t, commands[0]).value, commands[1..], previous, desired);
    }
  }

  /** However far a plan gets, the table holds only users granted by one of the two states. */
  lemma PrefixHasNoStrangers(previous: DesiredState, desired: DesiredState, n: nat)
    requires UniqueIds(previous.inbounds) && UniqueTags(previous.inbounds)
    requires var commands := Commands(Operations(previous, desired));
             n <= |commands| && Run(TableOf(previous), commands[..n]).Some?
    ensures NoStrangers(Run(TableOf(previous), Commands(Operations(previous, desired))[..n]).value, previous, desired)
  {
    var ops := Operations(previous, desired);
    UpdatesGranted(InboundsById(previous.inbounds, |previous.inbounds|), desired, |desired.inbounds|);
    RemovalOpsGranted(previous.inbounds, InboundsById(desired.inbounds, |desired.inbounds|), |previous.inbounds|, desired);
    AllCommandsGranted(ops, desired);
    var t := TableOf(previous);
    TableServes(previous);
    InboundsByIdKeys(previous.inbounds, |previous.inbounds|);
    forall tag, email | tag in t && email in t[tag].accounts ensures Granted(previous, tag, email, t[tag].accounts[email]) {
      var live := InboundsById(previous.inbounds, |previous.inbounds|);
      var id :| id in live && live[id].tag == tag;
      var k :| 0 <= k < |previous.inbounds| && previous.inbounds[k] == live[id];
      HandlerGranted(previous, k, email);
    }
    RunKeepsNoStrangers(t, Commands(ops)[..n], previous, desired);
  }

  /* ---------- Statistics levels ---------- */

  lemma {:induction false} NoNewLevelAmong(users: seq<ManagedUser>, known: set<int>, n: nat)
    requires n <= |users|
    ensures NewLevelAmong(users, known, n).None? <==> UserLevels(users, n) <= known
  {
    if n > 0 {
      NoNewLevelAmong(users, known, n - 1);
    }
  }

  lemma {:induction false} NoNewLevelIn(inbounds: seq<ManagedInbound>, known: set<int>, n: nat)
    requires n <= |inbounds| && 0 in known
    ensures NewLevelIn(inbounds, known, n).None? <==> InboundLevels(inbounds, n) <= known
  {
    if n > 0 {
      NoNewLevelIn(inbounds, known, n - 1);
      NoNewLevelAmong(inbounds[n - 1].users, known, |inbounds[n - 1].users|);
    }
  }

  /** A restart is asked for exactly when the global parts differ or a level is new. */
  lemma RestartMeaning(previous: DesiredState, desired: DesiredState)
    ensures PlanOf(previous, desired).requiresRestart <==>
            !RuntimeGlobalEqual(previous, desired) || !(Levels(desired) <= Levels(previous))
  {
    InboundLevelsMeaning(previous.inbounds, |previous.inbounds|, 0);
    NoNewLevelIn(desired.inbounds, Levels(previous), |desired.inbounds|);
  }

  ghost predicate HotChain(states: seq<DesiredState>)
  {
    forall i :: 0 < i < |states| ==> !PlanOf(states[i - 1], states[i]).requiresRestart
  }

  /** After any chain of hot reloads every enabled user's level is among those loaded at the restart that began it. */
  lemma {:induction false} LevelsStayCovered(states: seq<DesiredState>, n: nat)
    requires HotChain(states) && n < |states|
    ensures Levels(states[n]) <= Levels(states[0])
    ensures forall level :: HasLevel(states[n].inbounds, level) ==> level in Levels(states[0])
  {
    if n > 0 {
      LevelsStayCovered(states, n - 1);
      RestartMeaning(states[n - 1], states[n]);
    }
    forall level | HasLevel(states[n].inbounds, level) ensures level in Levels(states[0]) {
      InboundLevelsMeaning(states[n].inbounds, |states[n].inbounds|, level);
    }
  }

  /* ---------- Routing ---------- */

  /** Whether the routes of user entries of `s` can be told apart by inbound and user. */
  ghost predicate UniqueRoutes(s: DesiredState)
  {
    Decisive(RouteLess, Routes(s.inbounds, |s.inbounds|)) && NoRepeat(Routes(s.inbounds, |s.inbounds|))
  }

  lemma RouteLessOrder()
    ensures StrictOrder(RouteLess)
  {
    PairLessOrder();
    forall a: Route, b: Route | RouteLess(a, b) ensures !RouteLess(b, a) {
      assert PairLess((a.inboundId, a.userId), (b.inboundId, b.userId));
    }
    forall a: Route, b: Route, c: Route | RouteLess(a, b) && !RouteLess(c, b) ensures RouteLess(a, c) {
      var x, y, z := (a.inboundId, a.userId), (b.inboundId, b.userId), (c.inboundId, c.userId);
      assert PairLess(x, y) && !PairLess(z, y);
      assert PairLess(x, z);
    }
  }

  /** The sorted comparison is the comparison of the route sets. */
  lemma ManagedRoutingMeaning(a: DesiredState, b: DesiredState)
    requires UniqueRoutes(a) && UniqueRoutes(b)
    ensures ManagedRoutingEqual(a, b) <==>
            (forall r :: r in Routes(a.inbounds, |a.inbounds|) <==> r in Routes(b.inbounds, |b.inbounds|))
  {
    var ra, rb := Routes(a.inbounds, |a.inbounds|), Routes(b.inbounds, |b.inbounds|);
    var sa, sb := Sort(RouteLess, ra), Sort(RouteLess, rb);
    if sa == sb {
      SameElements(ra, rb);
    }
    if forall r :: r in ra <==> r in rb {
      forall x ensures multiset(ra)[x] == multiset(rb)[x] {
        NoRepeatMultiset(ra, x);
        NoRepeatMultiset(rb, x);
      }
      assert multiset(sa) == multiset(sb);
      RouteLessOrder();
      SortSorts(RouteLess, ra);
      SortSorts(RouteLess, rb);
      SameElements(sa, ra);
      assert Decisive(RouteLess, sa);
      SortedPermutationsAgree(RouteLess, sa, sb);
    }
  }

  /** The outbound of the first managed rule for an email, which is the one Xray obeys. */
  function FirstMatch(rules: seq<UserRule>, email: string): Option<string>
  {
    if rules == [] then None
    else if rules[0].email == email then Some(rules[0].outboundTag)
    else FirstMatch(rules[1..], email)
  }

  ghost predicate UniqueRuleEmails(rules: seq<UserRule>)
  {
    forall i, j :: 0 <= i < j < |rules| ==> rules[i].email != rules[j].email
  }

  lemma {:induction false} FirstMatchMeaning(rules: seq<UserRule>, email: string, tag: string)
    requires UniqueRuleEmails(rules)
    ensures FirstMatch(rules, email) == Some(tag) <==> exists r :: r in rules && r.email == email && r.outboundTag == tag
  {
    if rules != [] {
      assert rules == [rules[0]] + rules[1..];
      FirstMatchMeaning(rules[1..], email, tag);
      if rules[0].email == email {
        assert forall r :: r in rules[1..] ==> r.email != email;
        assert rules[0] in rules;
      } else {
        assert forall r :: r in rules ==> r == rules[0] || r in rules[1..];
      }
    }
  }

  ghost predicate IsRouteOf(r: Route, email: string, tag: string)
  {
    r.enabled && AccountingEmail(r.userId, r.inboundId) == email && r.outboundTag == tag
  }

  /** A managed rule for an email exists exactly when some enabled route has that email and outbound. */
  lemma {:induction false} RulesOfInbound(input: ManagedInbound, n: nat, email: string, tag: string)
    requires n <= |input.users|
    ensures (exists r :: r in UserRules(input, n) && r.email == email && r.outboundTag == tag) <==>
            (exists r :: r in InboundRoutes(input, n) && IsRouteOf(r, email, tag))
  {
    if n > 0 {
      RulesOfInbound(input, n - 1, email, tag);
      var u := input.users[n - 1];
      var route := Route(input.id, u.id, u.outboundTag, u.enabled);
      if u.outboundTag != "" {
        assert route in InboundRoutes(input, n);
        if u.enabled {
          assert RuleOf(input.id, u) in UserRules(input, n);
          assert IsRouteOf(route, email, tag) <==> RuleOf(input.id, u).email == email && RuleOf(input.id, u).outboundTag == tag;
        }
      }
      assert forall r :: r in InboundRoutes(input, n) <==> r in InboundRoutes(input, n - 1) || (u.outboundTag != "" && r == route);
      assert forall r :: r in UserRules(input, n) <==>
                         r in UserRules(input, n - 1) || (u.enabled && u.outboundTag != "" && r == RuleOf(input.id, u));
    }
  }

  lemma {:induction false} RulesOfState(inbounds: seq<ManagedInbound>, n: nat, email: string, tag: string)
    requires n <= |inbounds|
    ensures (exists r :: r in ManagedRules(inbounds, n) && r.email == email && r.outboundTag == tag) <==>
            (exists r :: r in Routes(inbounds, n) && IsRouteOf(r, email, tag))
  {
    if n > 0 {
      RulesOfState(inbounds, n - 1, email, tag);
      var users := inbounds[n - 1].users;
      RulesOfInbound(inbounds[n - 1], |users|, email, tag);
      assert forall r :: r in Routes(inbounds, n) <==> r in Routes(inbounds, n - 1) || r in InboundRoutes(inbounds[n - 1], |users|);
      assert forall r :: r in ManagedRules(inbounds, n) <==>
                         r in ManagedRules(inbounds, n - 1) || r in UserRules(inbounds[n - 1], |users|);
    }
  }

  /** States the planner takes as equal in routing send every email to the same outbound, whatever the order of
      inbounds and users. */
  lemma HotReloadKeepsRouting(a: DesiredState, b: DesiredState, email: string)
    requires RuntimeGlobalEqual(a, b)
    requires UniqueRuleEmails(ManagedRules(a.inbounds, |a.inbounds|)) && UniqueRuleEmails(ManagedRules(b.inbounds, |b.inbounds|))
    ensures FirstMatch(ManagedRules(a.inbounds, |a.inbounds|), email) == FirstMatch(ManagedRules(b.inbounds, |b.inbounds|), email)
  {
    var ra, rb := Routes(a.inbounds, |a.inbounds|), Routes(b.inbounds, |b.inbounds|);
    var ma, mb := ManagedRules(a.inbounds, |a.inbounds|), ManagedRules(b.inbounds, |b.inbounds|);
    SameElements(ra, rb);
    forall tag ensures FirstMatch(ma, email) == Some(tag) <==> FirstMatch(mb, email) == Some(tag) {
      FirstMatchMeaning(ma, email, tag);
      FirstMatchMeaning(mb, email, tag);
      RulesOfState(a.inbounds, |a.inbounds|, email, tag);
      RulesOfState(b.inbounds, |b.inbounds|, email, tag);
    }
    if FirstMatch(ma, email).Some? {
      assert FirstMatch(mb, email) == Some(FirstMatch(ma, email).value);
    } else if FirstMatch(mb, email).Some? {
      assert false;
    }
  }

  /* ---------- Where the assumptions are needed ---------- */

  function PlainUser(id: string, enabled: bool): ManagedUser
  {
    ManagedUser(id, "", enabled, "", "", 0, 0, Made(map[]), UserLimits(0, 0, 0, 0, 0, 0, 0, 0))
  }

  function PlainInbound(id: string, tag: string, users: seq<ManagedUser>): ManagedInbound
  {
    ManagedInbound(id, tag, "", Scalar("443"), "vless", "", Nil, Nil, Nil, users, Nil)
  }

  function PlainState(inbounds: seq<ManagedInbound>): DesiredState
  {
    DesiredState("1", true, "active", NodePolicy(0, 0, 0), inbounds, [], Empty, Empty)
  }

  const BeforeSwap := PlainState([PlainInbound("A", "a", []), PlainInbound("B", "b", [])])
  const AfterSwap := PlainState([PlainInbound("A", "b", []), PlainInbound("B", "a", [])])

  /** Two inbounds that swap their tags: the plan asks for no restart, and it is refused on the way. */
  lemma SwappedTagsStopThePlan()
    ensures PlannerInputs(BeforeSwap, AfterSwap) && !PlanOf(BeforeSwap, AfterSwap).requiresRestart
    ensures Run(TableOf(BeforeSwap), Commands(Operations(BeforeSwap, AfterSwap))).None?
  {
    SwapIsHot();
    SwapIsGood();
    SwapBreaksTagOrder(BeforeSwap.inbounds, AfterSwap.inbounds);
    HotReloadRefinesRebuild(BeforeSwap, AfterSwap);
  }

  lemma SwapBreaksTagOrder(previous: seq<ManagedInbound>, desired: seq<ManagedInbound>)
    requires |previous| == |desired| == 2 && UniqueIds(previous)
    requires desired[1].id == previous[1].id && desired[0].tag == previous[1].tag
    ensures !TagOrder(InboundsById(previous, 2), desired, 2)
  {
    var prevById := InboundsById(previous, 2);
    InboundsByIdKeys(previous, 2);
    assert desired[1].id in prevById && prevById[desired[1].id] == previous[1];
    assert !ClearOfLater(prevById, desired, 0);
  }

  lemma SwapIsGood()
    ensures PlannerInputs(BeforeSwap, AfterSwap)
  {
    var a, b := BeforeSwap.inbounds, AfterSwap.inbounds;
    assert a[0].users == [] && a[1].users == [] && b[0].users == [] && b[1].users == [];
    assert a[0].tag == "a" && a[1].tag == "b" && b[0].tag == "b" && b[1].tag == "a";
  }

  lemma SwapIsHot()
    ensures !PlanOf(BeforeSwap, AfterSwap).requiresRestart
  {
    NoLevelsWithoutUsers(BeforeSwap.inbounds, 2);
    NoLevelsWithoutUsers(AfterSwap.inbounds, 2);
    NoRoutesWithoutUsers(BeforeSwap.inbounds, 2);
    NoRoutesWithoutUsers(AfterSwap.inbounds, 2);
    RestartMeaning(BeforeSwap, AfterSwap);
  }

  lemma {:induction false} NoLevelsWithoutUsers(inbounds: seq<ManagedInbound>, n: nat)
    requires n <= |inbounds| && forall i :: 0 <= i < |inbounds| ==> inbounds[i].users == []
    ensures InboundLevels(inbounds, n) == {0}
  {
    if n > 0 {
      NoLevelsWithoutUsers(inbounds, n - 1);
    }
  }

  lemma {:induction false} NoRoutesWithoutUsers(inbounds: seq<ManagedInbound>, n: nat)
    requires n <= |inbounds| && forall i :: 0 <= i < |inbounds| ==> inbounds[i].users == []
    ensures Routes(inbounds, n) == []
  {
    if n > 0 {
      NoRoutesWithoutUsers(inbounds, n - 1);
    }
  }

  const BeforeHiding := PlainState([PlainInbound("A", "a", [PlainUser("u", true)])])
  const AfterHiding := PlainState([PlainInbound("A", "a", [PlainUser("u", true), PlainUser("u", false)])])

  lemma HidingOperations()
    ensures Operations(BeforeHiding, AfterHiding) == [RemoveUser("a", AccountingEmail("u", "A"))]
  {
    var prior, next := BeforeHiding.inbounds[0], AfterHiding.inbounds[0];
    var newUsers, oldUsers := UsersById(next.users, 2), UsersById(prior.users, 1);
    var e := AccountingEmail("u", "A");
    ProtocolIsHot();
    assert newUsers == UsersById(next.users, 1)["u" := PlainUser("u", false)];
    assert oldUsers == UsersById(prior.users, 0)["u" := PlainUser("u", true)];
    assert UserRemovals(prior, newUsers, 1) == UserRemovals(prior, newUsers, 0) + [RemoveUser("a", e)];
    assert UserAdditions(next, oldUsers, 1) == UserAdditions(next, oldUsers, 0) + [];
    assert UserAdditions(next, oldUsers, 2) == UserAdditions(next, oldUsers, 1) + [];
    OneInbound(BeforeHiding, AfterHiding);
  }

  /** The plan between two states with the one inbound each, of the same ID. */
  lemma OneInbound(a: DesiredState, b: DesiredState)
    requires |a.inbounds| == |b.inbounds| == 1 && a.inbounds[0].id == b.inbounds[0].id
    ensures Operations(a, b) == InboundOps(map[a.inbounds[0].id := a.inbounds[0]], b.inbounds[0])
  {
    var prevById, nextById := InboundsById(a.inbounds, 1), InboundsById(b.inbounds, 1);
    assert prevById == InboundsById(a.inbounds, 0)[a.inbounds[0].id := a.inbounds[0]];
    assert nextById == InboundsById(b.inbounds, 0)[b.inbounds[0].id := b.inbounds[0]];
    assert RemovalOps(a.inbounds, nextById, 1) == RemovalOps(a.inbounds, nextById, 0) + [];
    assert UpdateOps(prevById, b.inbounds, 1) == UpdateOps(prevById, b.inbounds, 0) + InboundOps(prevById, b.inbounds[0]);
  }

  lemma HidingIsKeyed()
    ensures KeyedState(BeforeHiding) && KeyedState(AfterHiding) && AllBuildable(AfterHiding)
  {
    var a, b := BeforeHiding.inbounds[0], AfterHiding.inbounds[0];
    assert a.users[0].enabled && b.users[0].enabled && !b.users[1].enabled;
    assert DistinctEmails(a) && DistinctEmails(b);
  }

  lemma HidingIsHot()
    ensures !PlanOf(BeforeHiding, AfterHiding).requiresRestart
  {
    ZeroLevels(BeforeHiding.inbounds);
    ZeroLevels(AfterHiding.inbounds);
    NoRoutes(BeforeHiding.inbounds);
    NoRoutes(AfterHiding.inbounds);
    RestartMeaning(BeforeHiding, AfterHiding);
  }

  lemma ZeroLevels(inbounds: seq<ManagedInbound>)
    requires |inbounds| == 1 && forall j :: 0 <= j < |inbounds[0].users| ==> inbounds[0].users[j].level == 0
    ensures InboundLevels(inbounds, 1) == {0}
  {
    forall level | level in InboundLevels(inbounds, 1) ensures level == 0 {
      InboundLevelsMeaning(inbounds, 1, level);
    }
    InboundLevelsMeaning(inbounds, 1, 0);
  }

  lemma NoRoutes(inbounds: seq<ManagedInbound>)
    requires |inbounds| == 1 && forall j :: 0 <= j < |inbounds[0].users| ==> inbounds[0].users[j].outboundTag == ""
    ensures Routes(inbounds, 1) == []
  {
    NoInboundRoutes(inbounds[0], |inbounds[0].users|);
    assert Routes(inbounds, 1) == Routes(inbounds, 0) + InboundRoutes(inbounds[0], |inbounds[0].users|);
  }

  lemma {:induction false} NoInboundRoutes(input: ManagedInbound, n: nat)
    requires n <= |input.users| && forall j :: 0 <= j < |input.users| ==> input.users[j].outboundTag == ""
    ensures InboundRoutes(input, n) == []
  {
    if n > 0 {
      NoInboundRoutes(input, n - 1);
    }
  }

  lemma HidingTables()
    ensures var e := AccountingEmail("u", "A");
            && "a" in TableOf(BeforeHiding) && e in TableOf(BeforeHiding)["a"].accounts
            && "a" in TableOf(AfterHiding) && e in TableOf(AfterHiding)["a"].accounts
  {
    HidingIsKeyed();
    ProtocolIsHot();
    TableServes(BeforeHiding);
    TableServes(AfterHiding);
    InboundsByIdKeys(BeforeHiding.inbounds, 1);
    InboundsByIdKeys(AfterHiding.inbounds, 1);
    CarriedAccounts(BeforeHiding.inbounds[0]);
    CarriedAccounts(AfterHiding.inbounds[0]);
    UserAccountsMeaning(BeforeHiding.inbounds[0], 1);
    UserAccountsMeaning(AfterHiding.inbounds[0], 2);
    assert EmailOf(BeforeHiding.inbounds[0], 0) == EmailOf(AfterHiding.inbounds[0], 0) == AccountingEmail("u", "A");
    assert InboundsById(BeforeHiding.inbounds, 1)["A"] == BeforeHiding.inbounds[0];
    assert InboundsById(AfterHiding.inbounds, 1)["A"] == AfterHiding.inbounds[0];
  }

  /** Distinct emails among the enabled users do not suffice: when a disabled entry repeats the ID of an unchanged user, the
      plan asks for no restart and runs to the end, and the user is gone from the table a rebuild would give it in. */
  lemma HiddenUserIsLost()
    ensures KeyedState(BeforeHiding) && KeyedState(AfterHiding) && AllBuildable(AfterHiding)
    ensures !PlanOf(BeforeHiding, AfterHiding).requiresRestart
    ensures var r, e := Run(TableOf(BeforeHiding), Commands(Operations(BeforeHiding, AfterHiding))), AccountingEmail("u", "A");
            && r.Some? && "a" in r.value && e !in r.value["a"].accounts
            && "a" in TableOf(AfterHiding) && e in TableOf(AfterHiding)["a"].accounts
            && r != Some(TableOf(AfterHiding))
  {
    HidingIsKeyed();
    HidingIsHot();
    HidingOperations();
    HidingTables();
    CommandsSingle(RemoveUser("a", AccountingEmail("u", "A")));
    RunSingle(TableOf(BeforeHiding), Rmu("a", AccountingEmail("u", "A")));
  }

  lemma ProtocolIsHot()
    ensures SupportsHotUsers("vless")
  {
    assert ToLower("vless") == "vless";
  }
}
