/** The hot-reload planner (internal/xray/runtime.go) and the handler table of a running Xray that its commands change. */
module Runtime {
  import opened Model
  import opened Text
  import opened Order
  import opened Accounting
  import opened Builder

  /* ---------- The live process ---------- */

  datatype Account = Account(level: int, fields: Fields)

  datatype Handler = Handler(
    protocol: string, port: Json, listen: string, settings: Fields, streamSettings: Object, sniffing: Object,
    accounts: map<string, Account>)

  /** Inbound handlers by tag. */
  type Table = map<string, Handler>

  function AccountTable(clients: seq<Client>, n: nat): map<string, Account>
    requires n <= |clients|
  {
    if n == 0 then map[] else
    AccountTable(clients, n - 1)[clients[n - 1].email := Account(clients[n - 1].level, clients[n - 1].fields)]
  }

  function HandlerOf(doc: InboundConfig): Handler
  {
    var accounts := if doc.accounts.NoAccounts? then map[] else AccountTable(doc.accounts.clients, |doc.accounts.clients|);
    Handler(doc.protocol, doc.port, doc.listen, doc.settings, doc.streamSettings, doc.sniffing, accounts)
  }

  /** What Xray loads when it starts with these inbounds. */
  function LoadTable(docs: seq<InboundConfig>, n: nat): Table
    requires n <= |docs|
  {
    if n == 0 then map[] else LoadTable(docs, n - 1)[docs[n - 1].tag := HandlerOf(docs[n - 1])]
  }

  /** The table of a process started with the configuration built from `state`. */
  function TableOf(state: DesiredState): Table
  {
    LoadTable(Bodies(state.inbounds, |state.inbounds|), |state.inbounds|)
  }

  /** The four API commands; a document that cannot be built never reaches Xray. */
  datatype Command =
    | Adi(doc: Result<InboundConfig>)
    | Rmi(tag: string)
    | Adu(doc: Result<InboundConfig>)
    | Rmu(tag: string, email: string)

  /** The table after one command, or None when it is refused: a tag or an email that is already there cannot be added,
      one that is missing cannot be removed, and users are added one at a time and only to protocols with a user manager. */
  function Step(t: Table, c: Command): Option<Table>
  {
    match c
    case Adi(Ok(doc)) =>
      if doc.tag in t then None else Some(t[doc.tag := HandlerOf(doc)])
    case Rmi(tag) =>
      if tag in t then Some(t - {tag}) else None
    case Adu(Ok(doc)) =>
      if doc.tag in t && SupportsHotUsers(t[doc.tag].protocol) && doc.accounts.Clients? && |doc.accounts.clients| == 1
         && doc.accounts.clients[0].email !in t[doc.tag].accounts
      then
        var h, u := t[doc.tag], doc.accounts.clients[0];
        Some(t[doc.tag := h.(accounts := h.accounts[u.email := Account(u.level, u.fields)])])
      else None
    case Rmu(tag, email) =>
      if tag in t && email in t[tag].accounts
      then Some(t[tag := t[tag].(accounts := t[tag].accounts - {email})])
      else None
    case _ => None
  }

  function Run(t: Table, commands: seq<Command>): Option<Table>
    decreases |commands|
  {
    if commands == [] then Some(t) else
    match Step(t, commands[0])
    case None => None
    case Some(t') => Run(t', commands[1..])
  }

  /* ---------- Plans ---------- */

  datatype RuntimeOp =
    | AddInbound(inbound: ManagedInbound)
    | RemoveInbound(oldTag: string)
    | ReplaceInbound(oldTag: string, inbound: ManagedInbound)
    | AddUser(inbound: ManagedInbound, user: ManagedUser)
    | RemoveUser(oldTag: string, userEmail: string)

  datatype Reason = NoReason | GlobalsChanged | NewLevel(level: int)

  datatype RuntimePlan = RuntimePlan(operations: seq<RuntimeOp>, requiresRestart: bool, reason: Reason)

  /** The commands `ApplyRuntime` issues for one operation; a replace is a remove and then an add. */
  function CommandsOf(op: RuntimeOp): seq<Command>
  {
    match op
    case AddInbound(input) => [Adi(InboundDocument(input))]
    case RemoveInbound(tag) => [Rmi(tag)]
    case ReplaceInbound(tag, input) => [Rmi(tag), Adi(InboundDocument(input))]
    case AddUser(input, u) => [Adu(UserDocument(input, u))]
    case RemoveUser(tag, email) => [Rmu(tag, email)]
  }

  function Commands(ops: seq<RuntimeOp>): seq<Command>
  {
    if ops == [] then [] else CommandsOf(ops[0]) + Commands(ops[1..])
  }

  /* ---------- Comparisons ---------- */

  predicate BytesJsonEqual(a: Raw, b: Raw)
  {
    match (a, b)
    case (Document(_, x), Document(_, y)) => x == y
    case _ => a == b
  }

  predicate RawMessagesEqual(a: seq<Raw>, b: seq<Raw>)
  {
    |a| == |b| && forall i :: 0 <= i < |a| ==> BytesJsonEqual(a[i], b[i])
  }

  datatype Route = Route(inboundId: string, userId: string, outboundTag: string, enabled: bool)

  predicate RouteLess(a: Route, b: Route)
  {
    PairLess((a.inboundId, a.userId), (b.inboundId, b.userId))
  }

  function InboundRoutes(input: ManagedInbound, n: nat): seq<Route>
    requires n <= |input.users|
  {
    if n == 0 then [] else
    var u := input.users[n - 1];
    InboundRoutes(input, n - 1) + (if u.outboundTag != "" then [Route(input.id, u.id, u.outboundTag, u.enabled)] else [])
  }

  function Routes(inbounds: seq<ManagedInbound>, n: nat): seq<Route>
    requires n <= |inbounds|
  {
    if n == 0 then [] else Routes(inbounds, n - 1) + InboundRoutes(inbounds[n - 1], |inbounds[n - 1].users|)
  }

  predicate ManagedRoutingEqual(a: DesiredState, b: DesiredState)
  {
    Sort(RouteLess, Routes(a.inbounds, |a.inbounds|)) == Sort(RouteLess, Routes(b.inbounds, |b.inbounds|))
  }

  predicate RuntimeGlobalEqual(a: DesiredState, b: DesiredState)
  {
    && RawMessagesEqual(a.outbounds, b.outbounds)
    && BytesJsonEqual(a.routing, b.routing)
    && BytesJsonEqual(a.dns, b.dns)
    && ManagedRoutingEqual(a, b)
  }

  predicate InboundBaseEqual(a: ManagedInbound, b: ManagedInbound)
  {
    a.(users := [], metadata := Nil) == b.(users := [], metadata := Nil)
  }

  predicate UserRuntimeEqual(a: ManagedUser, b: ManagedUser)
  {
    a.level == b.level && a.credential == b.credential
  }

  predicate UsersRuntimeEqual(a: seq<ManagedUser>, b: seq<ManagedUser>)
  {
    var am, bm := UsersById(a, |a|), UsersById(b, |b|);
    && |a| == |b| && |am| == |bm|
    && forall id :: id in am ==> id in bm && UserRuntimeEqual(am[id], bm[id]) && am[id].enabled == bm[id].enabled
  }

  /* ---------- The planner as a function ---------- */

  function NewLevelAmong(users: seq<ManagedUser>, known: set<int>, n: nat): Option<int>
    requires n <= |users|
  {
    if n == 0 then None else
    match NewLevelAmong(users, known, n - 1)
    case Some(level) => Some(level)
    case None => if users[n - 1].enabled && users[n - 1].level !in known then Some(users[n - 1].level) else None
  }

  function NewLevelIn(inbounds: seq<ManagedInbound>, known: set<int>, n: nat): Option<int>
    requires n <= |inbounds|
  {
    if n == 0 then None else
    match NewLevelIn(inbounds, known, n - 1)
    case Some(level) => Some(level)
    case None => NewLevelAmong(inbounds[n - 1].users, known, |inbounds[n - 1].users|)
  }

  function RemovalOps(previous: seq<ManagedInbound>, nextById: map<string, ManagedInbound>, n: nat): seq<RuntimeOp>
    requires n <= |previous|
  {
    if n == 0 then [] else
    RemovalOps(previous, nextById, n - 1) +
    (if previous[n - 1].id in nextById then [] else [RemoveInbound(previous[n - 1].tag)])
  }

  /** A user the running handler must lose: it was enabled and is gone, disabled or changed. */
  predicate Retired(oldUser: ManagedUser, newUsers: map<string, ManagedUser>)
  {
    oldUser.enabled && (oldUser.id !in newUsers || !newUsers[oldUser.id].enabled || !UserRuntimeEqual(oldUser, newUsers[oldUser.id]))
  }

  function UserRemovals(prior: ManagedInbound, newUsers: map<string, ManagedUser>, n: nat): seq<RuntimeOp>
    requires n <= |prior.users|
  {
    if n == 0 then [] else
    UserRemovals(prior, newUsers, n - 1) +
    (if Retired(prior.users[n - 1], newUsers) then [RemoveUser(prior.tag, AccountingEmail(prior.users[n - 1].id, prior.id))] else [])
  }

  function UserAdditions(next: ManagedInbound, oldUsers: map<string, ManagedUser>, n: nat): seq<RuntimeOp>
    requires n <= |next.users|
  {
    if n == 0 then [] else
    UserAdditions(next, oldUsers, n - 1) +
    (if Retired(next.users[n - 1], oldUsers) then [AddUser(next, next.users[n - 1])] else [])
  }

  function InboundOps(prevById: map<string, ManagedInbound>, next: ManagedInbound): seq<RuntimeOp>
  {
    if next.id !in prevById then [AddInbound(next)] else
    var prior := prevById[next.id];
    if !InboundBaseEqual(prior, next) then [ReplaceInbound(prior.tag, next)]
    else if UsersRuntimeEqual(prior.users, next.users) then []
    else if !SupportsHotUsers(next.protocol) then [ReplaceInbound(prior.tag, next)]
    else
      UserRemovals(prior, UsersById(next.users, |next.users|), |prior.users|) +
      UserAdditions(next, UsersById(prior.users, |prior.users|), |next.users|)
  }

  function UpdateOps(prevById: map<string, ManagedInbound>, desired: seq<ManagedInbound>, n: nat): seq<RuntimeOp>
    requires n <= |desired|
  {
    if n == 0 then [] else UpdateOps(prevById, desired, n - 1) + InboundOps(prevById, desired[n - 1])
  }

  function Operations(previous: DesiredState, desired: DesiredState): seq<RuntimeOp>
  {
    RemovalOps(previous.inbounds, InboundsById(desired.inbounds, |desired.inbounds|), |previous.inbounds|) +
    UpdateOps(InboundsById(previous.inbounds, |previous.inbounds|), desired.inbounds, |desired.inbounds|)
  }

  function PlanOf(previous: DesiredState, desired: DesiredState): RuntimePlan
  {
    if !RuntimeGlobalEqual(previous, desired) then RuntimePlan([], true, GlobalsChanged) else
    match NewLevelIn(desired.inbounds, Levels(previous), |desired.inbounds|)
    case Some(level) => RuntimePlan([], true, NewLevel(level))
    case None => RuntimePlan(Operations(previous, desired), false, NoReason)
  }

  /* ---------- The loops ---------- */

  method CollectRoutes(s: DesiredState) returns (out: seq<Route>)
    ensures out == Sort(RouteLess, Routes(s.inbounds, |s.inbounds|))
  {
    out := [];
    for i := 0 to |s.inbounds|
      invariant out == Routes(s.inbounds, i)
    {
      var input := s.inbounds[i];
      ghost var before := out;
      for j := 0 to |input.users|
        invariant out == before + InboundRoutes(input, j)
      {
        var u := input.users[j];
        if u.outboundTag != "" {
          out := out + [Route(input.id, u.id, u.outboundTag, u.enabled)];
        }
      }
    }
    out := Sort(RouteLess, out);
  }

  method CompareUsers(a: seq<ManagedUser>, b: seq<ManagedUser>) returns (equal: bool)
    ensures equal == UsersRuntimeEqual(a, b)
  {
    if |a| != |b| {
      return false;
    }
    var am := CollectUsersById(a);
    var bm := CollectUsersById(b);
    if |am| != |bm| {
      return false;
    }
    var todo := am.Keys;
    while todo != {}
      invariant todo <= am.Keys
      invariant forall id :: id in am && id !in todo ==>
                               id in bm && UserRuntimeEqual(am[id], bm[id]) && am[id].enabled == bm[id].enabled
      decreases |todo|
    {
      var id :| id in todo;
      if id !in bm || !UserRuntimeEqual(am[id], bm[id]) || am[id].enabled != bm[id].enabled {
        return false;
      }
      todo := todo - {id};
    }
    return true;
  }

  method FindNewLevel(desired: DesiredState, known: set<int>) returns (found: Option<int>)
    ensures found == NewLevelIn(desired.inbounds, known, |desired.inbounds|)
  {
    for i := 0 to |desired.inbounds|
      invariant NewLevelIn(desired.inbounds, known, i) == None
    {
      var users := desired.inbounds[i].users;
      for j := 0 to |users|
        invariant NewLevelAmong(users, known, j) == None
      {
        if users[j].enabled && users[j].level !in known {
          NewLevelStays(desired.inbounds, known, i, j);
          return Some(users[j].level);
        }
      }
    }
    return None;
  }

  lemma NewLevelStays(inbounds: seq<ManagedInbound>, known: set<int>, i: nat, j: nat)
    requires i < |inbounds| && j < |inbounds[i].users|
    requires NewLevelIn(inbounds, known, i) == None && NewLevelAmong(inbounds[i].users, known, j) == None
    requires inbounds[i].users[j].enabled && inbounds[i].users[j].level !in known
    ensures NewLevelIn(inbounds, known, |inbounds|) == Some(inbounds[i].users[j].level)
  {
    var users := inbounds[i].users;
    var m := j + 1;
    while m < |users|
      invariant j < m <= |users| && NewLevelAmong(users, known, m) == Some(users[j].level)
    {
      m := m + 1;
    }
    m := i + 1;
    while m < |inbounds|
      invariant i < m <= |inbounds| && NewLevelIn(inbounds, known, m) == Some(users[j].level)
    {
      m := m + 1;
    }
  }

  method PlanUsers(prior: ManagedInbound, next: ManagedInbound) returns (ops: seq<RuntimeOp>)
    ensures ops == UserRemovals(prior, UsersById(next.users, |next.users|), |prior.users|) +
                   UserAdditions(next, UsersById(prior.users, |prior.users|), |next.users|)
  {
    var oldUsers := CollectUsersById(prior.users);
    var newUsers := CollectUsersById(next.users);
    ops := [];
    for i := 0 to |prior.users|
      invariant ops == UserRemovals(prior, newUsers, i)
    {
      var oldUser := prior.users[i];
      if oldUser.enabled
         && (oldUser.id !in newUsers || !newUsers[oldUser.id].enabled || !UserRuntimeEqual(oldUser, newUsers[oldUser.id])) {
        ops := ops + [RemoveUser(prior.tag, AccountingEmail(oldUser.id, prior.id))];
      }
    }
    ghost var removals := ops;
    for i := 0 to |next.users|
      invariant ops == removals + UserAdditions(next, oldUsers, i)
    {
      var newUser := next.users[i];
      if !newUser.enabled {
        continue;
      }
      if newUser.id !in oldUsers || !oldUsers[newUser.id].enabled || !UserRuntimeEqual(oldUsers[newUser.id], newUser) {
        ops := ops + [AddUser(next, newUser)];
      }
    }
  }

  method CompareGlobals(previous: DesiredState, desired: DesiredState) returns (equal: bool)
    ensures equal == RuntimeGlobalEqual(previous, desired)
  {
    var a := CollectRoutes(previous);
    var b := CollectRoutes(desired);
    equal := RawMessagesEqual(previous.outbounds, desired.outbounds) && BytesJsonEqual(previous.routing, desired.routing)
             && BytesJsonEqual(previous.dns, desired.dns) && a == b;
  }

  /** One round of the second loop of the planner. */
  method PlanInbound(prevById: map<string, ManagedInbound>, next: ManagedInbound) returns (ops: seq<RuntimeOp>)
    ensures ops == InboundOps(prevById, next)
  {
    if next.id !in prevById {
      return [AddInbound(next)];
    }
    var prior := prevById[next.id];
    if !InboundBaseEqual(prior, next) {
      return [ReplaceInbound(prior.tag, next)];
    }
    var same := CompareUsers(prior.users, next.users);
    if same {
      return [];
    }
    if !SupportsHotUsers(next.protocol) {
      return [ReplaceInbound(prior.tag, next)];
    }
    ops := PlanUsers(prior, next);
  }

  method PlanRemovals(previous: seq<ManagedInbound>, nextById: map<string, ManagedInbound>) returns (ops: seq<RuntimeOp>)
    ensures ops == RemovalOps(previous, nextById, |previous|)
  {
    ops := [];
    for i := 0 to |previous|
      invariant ops == RemovalOps(previous, nextById, i)
    {
      if previous[i].id !in nextById {
        ops := ops + [RemoveInbound(previous[i].tag)];
      }
    }
  }

  method PlanInbounds(previous: DesiredState, desired: DesiredState) returns (ops: seq<RuntimeOp>)
    ensures ops == Operations(previous, desired)
  {
    var prevById := CollectInboundsById(previous.inbounds);
    var nextById := CollectInboundsById(desired.inbounds);
    var removals := PlanRemovals(previous.inbounds, nextById);
    var updates: seq<RuntimeOp> := [];
    for i := 0 to |desired.inbounds|
      invariant updates == UpdateOps(prevById, desired.inbounds, i)
    {
      var more := PlanInbound(prevById, desired.inbounds[i]);
      updates := updates + more;
    }
    ops := removals + updates;
  }

  method PlanRuntime(previous: DesiredState, desired: DesiredState) returns (plan: RuntimePlan)
    ensures plan == PlanOf(previous, desired)
  {
    var globals := CompareGlobals(previous, desired);
    if !globals {
      return RuntimePlan([], true, GlobalsChanged);
    }
    var previousLevels := CollectLevels(previous);
    var newLevel := FindNewLevel(desired, previousLevels);
    if newLevel.Some? {
      return RuntimePlan([], true, NewLevel(newLevel.value));
    }
    var ops := PlanInbounds(previous, desired);
    plan := RuntimePlan(ops, false, NoReason);
  }
}
