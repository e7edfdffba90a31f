/** Patching the users of one running handler gives the handler a restart would load. */
module HotUsers {
  import opened Model
  import opened Text
  import opened Order
  import opened Accounting
  import opened Builder
  import opened Runtime

  function EmailOf(input: ManagedInbound, i: nat): string
    requires i < |input.users|
  {
    AccountingEmail(input.users[i].id, input.id)
  }

  function AccountOf(u: ManagedUser): Account
  {
    Account(u.level, CloneMap(u.credential) - {"email", "level"})
  }

  function HandlerFor(input: ManagedInbound): Handler
  {
    HandlerOf(InboundBody(input))
  }

  /** The lookup by ID finds an enabled entry for this user: no later, disabled entry with the same ID hides it. */
  predicate Shown(input: ManagedInbound, i: nat)
    requires i < |input.users|
  {
    var byId := UsersById(input.users, |input.users|);
    input.users[i].id in byId && byId[input.users[i].id].enabled
  }

  /** No enabled user is hidden.  Unique IDs are enough (`UniqueIdsAreVisible`). */
  ghost predicate EnabledVisible(input: ManagedInbound)
  {
    forall i :: 0 <= i < |input.users| && input.users[i].enabled ==> Shown(input, i)
  }

  ghost predicate DistinctEmails(input: ManagedInbound)
  {
    forall i, j :: 0 <= i < j < |input.users| && input.users[i].enabled && input.users[j].enabled ==>
                     EmailOf(input, i) != EmailOf(input, j)
  }

  ghost predicate GoodInbound(input: ManagedInbound)
  {
    EnabledVisible(input) && DistinctEmails(input)
  }

  lemma UniqueIdsAreVisible(input: ManagedInbound)
    requires UniqueUserIds(input.users)
    ensures EnabledVisible(input)
  {
    UsersByIdKeys(input.users, |input.users|);
  }

  /** A user that both inbounds have, enabled and unchanged, is hidden in both or in neither. */
  ghost predicate VisibleAlike(prior: ManagedInbound, next: ManagedInbound)
  {
    forall i, j :: 0 <= i < |prior.users| && 0 <= j < |next.users| && Unchanged(prior, next, i, j) ==> (Shown(prior, i) <==> Shown(next, j))
  }

  predicate Unchanged(prior: ManagedInbound, next: ManagedInbound, i: nat, j: nat)
    requires i < |prior.users| && j < |next.users|
  {
    var u, v := prior.users[i], next.users[j];
    u.enabled && v.enabled && u.id == v.id && UserRuntimeEqual(u, v)
  }

  /** Every hidden user of `a` has an enabled namesake in `b` with the same account. */
  ghost predicate HiddenCovered(a: ManagedInbound, b: ManagedInbound)
  {
    forall i :: 0 <= i < |a.users| && a.users[i].enabled && !Shown(a, i) ==> HasNamesake(a, i, b)
  }

  ghost predicate HasNamesake(a: ManagedInbound, i: nat, b: ManagedInbound)
    requires i < |a.users|
  {
    exists j :: 0 <= j < |b.users| && b.users[j].enabled && EmailOf(b, j) == EmailOf(a, i) && AccountOf(b.users[j]) == AccountOf(a.users[i])
  }

  predicate CarriesUsers(protocol: string)
  {
    SupportsHotUsers(protocol) || ToLower(protocol) == "wireguard"
  }

  /** What the planner needs of the duplicate IDs in two versions of an inbound it keeps running; without duplicates it always
      holds (`VisibleIsFaithful`). */
  ghost predicate Faithful(prior: ManagedInbound, next: ManagedInbound)
  {
    InboundBaseEqual(prior, next) && CarriesUsers(next.protocol) ==>
      if UsersRuntimeEqual(prior.users, next.users) then HiddenCovered(prior, next) && HiddenCovered(next, prior)
      else SupportsHotUsers(next.protocol) ==> VisibleAlike(prior, next)
  }

  lemma VisibleIsFaithful(prior: ManagedInbound, next: ManagedInbound)
    requires EnabledVisible(prior) && EnabledVisible(next)
    ensures Faithful(prior, next)
  {
  }

  /** What the lookup finds for a user it shows is that user. */
  lemma ShownMeaning(input: ManagedInbound, i: nat)
    requires DistinctEmails(input) && i < |input.users| && input.users[i].enabled && Shown(input, i)
    ensures UsersById(input.users, |input.users|)[input.users[i].id] == input.users[i]
  {
    UsersByIdKeys(input.users, |input.users|);
    var k :| 0 <= k < |input.users| && input.users[k] == UsersById(input.users, |input.users|)[input.users[i].id]
             && input.users[k].id == input.users[i].id;
    assert EmailOf(input, k) == EmailOf(input, i);
  }

  /* ---------- Commands in sequence ---------- */

  lemma {:induction false} CommandsConcat(a: seq<RuntimeOp>, b: seq<RuntimeOp>)
    ensures Commands(a + b) == Commands(a) + Commands(b)
  {
    if a == [] {
      assert a + b == b;
    } else {
      assert (a + b)[1..] == a[1..] + b;
      CommandsConcat(a[1..], b);
    }
  }

  lemma CommandsSingle(op: RuntimeOp)
    ensures Commands([op]) == CommandsOf(op)
  {
    assert [op][1..] == [];
    assert Commands([op]) == CommandsOf(op) + Commands([]);
  }

  lemma {:induction false} RunConcat(t: Table, a: seq<Command>, b: seq<Command>)
    ensures Run(t, a + b) == match Run(t, a) case None => None case Some(t') => Run(t', b)
    decreases |a|
  {
    if a == [] {
      assert a + b == b;
    } else {
      assert (a + b)[1..] == a[1..] + b;
      match Step(t, a[0])
      case None =>
      case Some(t') => RunConcat(t', a[1..], b);
    }
  }

  lemma RunSingle(t: Table, c: Command)
    ensures Run(t, [c]) == Step(t, c)
  {
    assert [c][1..] == [];
  }

  /** More commands after those that led to `r`. */
  function Then(r: Option<Table>, commands: seq<Command>): Option<Table>
  {
    match r
    case None => None
    case Some(t) => Run(t, commands)
  }

  /** Running one more operation after a list of operations. */
  lemma RunSnoc(t: Table, ops: seq<RuntimeOp>, more: seq<RuntimeOp>)
    ensures Run(t, Commands(ops + more)) == Then(Run(t, Commands(ops)), Commands(more))
  {
    CommandsConcat(ops, more);
    RunConcat(t, Commands(ops), Commands(more));
  }

  /** The same lists run one after the other. */
  function RunParts(t: Table, parts: seq<seq<RuntimeOp>>, n: nat): Option<Table>
    requires n <= |parts|
  {
    if n == 0 then Some(t) else Then(RunParts(t, parts, n - 1), Commands(parts[n - 1]))
  }

  ghost predicate RunsFlat(t: Table, parts: seq<seq<RuntimeOp>>, n: nat)
    requires n <= |parts|
  {
    Run(t, Commands(Flat(parts, n))) == RunParts(t, parts, n)
  }

  lemma FlatRunsOn(t: Table, parts: seq<seq<RuntimeOp>>, n: nat)
    requires n < |parts| && RunsFlat(t, parts, n)
    ensures RunsFlat(t, parts, n + 1)
  {
    RunSnoc(t, Flat(parts, n), parts[n]);
  }

  lemma {:induction false} RunFlat(t: Table, parts: seq<seq<RuntimeOp>>, n: nat)
    requires n <= |parts|
    ensures RunsFlat(t, parts, n)
  {
    if n > 0 {
      RunFlat(t, parts, n - 1);
      FlatRunsOn(t, parts, n - 1);
    }
  }

  lemma {:induction false} UpdateOpsAreFlat(prevById: map<string, ManagedInbound>, desired: seq<ManagedInbound>, parts: seq<seq<RuntimeOp>>, n: nat)
    requires n <= |desired| == |parts| && forall i :: 0 <= i < |parts| ==> parts[i] == InboundOps(prevById, desired[i])
    ensures UpdateOps(prevById, desired, n) == Flat(parts, n)
  {
    if n > 0 {
      UpdateOpsAreFlat(prevById, desired, parts, n - 1);
    }
  }

  /* ---------- The accounts of a handler ---------- */

  function UserAccounts(input: ManagedInbound, n: nat): map<string, Account>
    requires n <= |input.users|
  {
    if n == 0 then map[] else
    var before := UserAccounts(input, n - 1);
    if input.users[n - 1].enabled then before[EmailOf(input, n - 1) := AccountOf(input.users[n - 1])] else before
  }

  function AllAccounts(input: ManagedInbound): map<string, Account>
  {
    UserAccounts(input, |input.users|)
  }

  lemma {:induction false} AccountTablePrefix(clients: seq<Client>, more: seq<Client>, n: nat)
    requires n <= |clients|
    ensures AccountTable(clients + more, n) == AccountTable(clients, n)
  {
    if n > 0 {
      AccountTablePrefix(clients, more, n - 1);
    }
  }

  lemma {:induction false} AccountTableOfClients(input: ManagedInbound, n: nat)
    requires n <= |input.users|
    ensures var clients := ClientsOf(input.id, input.users, n);
            AccountTable(clients, |clients|) == UserAccounts(input, n)
  {
    if n > 0 {
      AccountTableOfClients(input, n - 1);
      var before := ClientsOf(input.id, input.users, n - 1);
      if input.users[n - 1].enabled {
        var c := ClientOf(input.id, input.users[n - 1]);
        AccountTablePrefix(before, [c], |before|);
        assert (before + [c])[|before|] == c;
      } else {
        assert before + [] == before;
      }
    }
  }

  lemma {:induction false} UserAccountsMeaning(input: ManagedInbound, n: nat)
    requires n <= |input.users| && DistinctEmails(input)
    ensures forall i :: 0 <= i < n && input.users[i].enabled ==>
                          EmailOf(input, i) in UserAccounts(input, n) &&
                          UserAccounts(input, n)[EmailOf(input, i)] == AccountOf(input.users[i])
    ensures forall e :: e in UserAccounts(input, n) ==> exists i :: 0 <= i < n && input.users[i].enabled && EmailOf(input, i) == e
  {
    if n > 0 {
      UserAccountsMeaning(input, n - 1);
    }
  }

  lemma HotHandler(input: ManagedInbound)
    requires SupportsHotUsers(input.protocol)
    ensures HandlerFor(input) ==
            Handler(input.protocol, input.port, input.listen, CloneMap(input.settings) - {"clients"},
                    input.streamSettings, input.sniffing, AllAccounts(input))
  {
    AccountTableOfClients(input, |input.users|);
  }

  /** Two inbounds with the same base and the same accounts give the same handler, hot or not. */
  lemma SameHandler(a: ManagedInbound, b: ManagedInbound)
    requires InboundBaseEqual(a, b) && AllAccounts(a) == AllAccounts(b)
    ensures HandlerFor(a) == HandlerFor(b)
  {
    assert a.protocol == b.protocol && a.settings == b.settings;
    AccountTableOfClients(a, |a.users|);
    AccountTableOfClients(b, |b.users|);
    var ca, cb := ClientsOf(a.id, a.users, |a.users|), ClientsOf(b.id, b.users, |b.users|);
    AccountTableEmpty(ca);
    AccountTableEmpty(cb);
  }

  lemma AccountTableEmpty(clients: seq<Client>)
    ensures AccountTable(clients, |clients|) == map[] <==> clients == []
  {
    if clients != [] {
      assert clients[|clients| - 1].email in AccountTable(clients, |clients|);
    }
  }

  /* ---------- Equal users ---------- */

  lemma SubsetOfEqualSize<T>(a: set<T>, b: set<T>)
    requires a <= b && |a| == |b|
    ensures a == b
  {
    assert |b - a| == |b| - |a|;
    assert b == a + (b - a);
  }

  ghost predicate Covered(am: map<string, ManagedUser>, bm: map<string, ManagedUser>)
  {
    forall id :: id in am ==> id in bm && UserRuntimeEqual(am[id], bm[id]) && am[id].enabled == bm[id].enabled
  }

  /** A shown user of `a` has its account in `b`, when `b` holds each looked-up user of `a` unchanged. */
  lemma ShownHasNamesake(a: ManagedInbound, b: ManagedInbound, i: nat)
    requires DistinctEmails(a) && a.id == b.id && i < |a.users| && a.users[i].enabled && Shown(a, i)
    requires Covered(UsersById(a.users, |a.users|), UsersById(b.users, |b.users|))
    ensures HasNamesake(a, i, b)
  {
    ShownMeaning(a, i);
    UsersByIdKeys(b.users, |b.users|);
    var bu := UsersById(b.users, |b.users|)[a.users[i].id];
    var j :| 0 <= j < |b.users| && b.users[j] == bu && b.users[j].id == a.users[i].id;
    assert EmailOf(b, j) == EmailOf(a, i);
  }

  ghost predicate Included(a: map<string, Account>, b: map<string, Account>)
  {
    forall e :: e in a ==> e in b && b[e] == a[e]
  }

  /** The accounts of `a` are among those of `b` exactly when the hidden users of `a` are covered. */
  lemma AccountsIncluded(a: ManagedInbound, b: ManagedInbound)
    requires DistinctEmails(a) && DistinctEmails(b) && a.id == b.id
    requires Covered(UsersById(a.users, |a.users|), UsersById(b.users, |b.users|))
    ensures Included(AllAccounts(a), AllAccounts(b)) <==> HiddenCovered(a, b)
  {
    UserAccountsMeaning(a, |a.users|);
    UserAccountsMeaning(b, |b.users|);
    if HiddenCovered(a, b) {
      forall e | e in AllAccounts(a) ensures e in AllAccounts(b) && AllAccounts(b)[e] == AllAccounts(a)[e] {
        var i :| 0 <= i < |a.users| && a.users[i].enabled && EmailOf(a, i) == e;
        if Shown(a, i) { ShownHasNamesake(a, b, i); }
        assert HasNamesake(a, i, b);
      }
    }
    if Included(AllAccounts(a), AllAccounts(b)) {
      forall i | 0 <= i < |a.users| && a.users[i].enabled && !Shown(a, i) ensures HasNamesake(a, i, b) {
        assert EmailOf(a, i) in AllAccounts(b);
        var j :| 0 <= j < |b.users| && b.users[j].enabled && EmailOf(b, j) == EmailOf(a, i);
      }
    }
  }

  lemma IncludedBothWays(a: map<string, Account>, b: map<string, Account>)
    ensures a == b <==> Included(a, b) && Included(b, a)
  {
    if Included(a, b) && Included(b, a) {
      assert a.Keys == b.Keys;
    }
  }

  /** Users the planner takes as equal have equal accounts exactly when the hidden ones are covered both ways. */
  lemma EqualUsersEqualAccounts(a: ManagedInbound, b: ManagedInbound)
    requires DistinctEmails(a) && DistinctEmails(b) && a.id == b.id && UsersRuntimeEqual(a.users, b.users)
    ensures AllAccounts(a) == AllAccounts(b) <==> HiddenCovered(a, b) && HiddenCovered(b, a)
  {
    var am, bm := UsersById(a.users, |a.users|), UsersById(b.users, |b.users|);
    assert |am.Keys| == |am| && |bm.Keys| == |bm|;
    SubsetOfEqualSize(am.Keys, bm.Keys);
    assert Covered(am, bm);
    forall id | id in bm ensures id in am && UserRuntimeEqual(bm[id], am[id]) && bm[id].enabled == am[id].enabled {
      assert id in bm.Keys;
    }
    assert Covered(bm, am);
    AccountsIncluded(a, b);
    AccountsIncluded(b, a);
    IncludedBothWays(AllAccounts(a), AllAccounts(b));
  }

  /** The accounts of a running handler, for every protocol that has users. */
  lemma CarriedAccounts(input: ManagedInbound)
    requires CarriesUsers(input.protocol)
    ensures HandlerFor(input).accounts == AllAccounts(input)
  {
    AccountTableOfClients(input, |input.users|);
    AccountTableEmpty(ClientsOf(input.id, input.users, |input.users|));
  }

  /** A handler the planner leaves alone is already the new one exactly when the pair is faithful. */
  lemma UntouchedHandler(prior: ManagedInbound, next: ManagedInbound)
    requires DistinctEmails(prior) && DistinctEmails(next) && InboundBaseEqual(prior, next) && prior.id == next.id
    requires UsersRuntimeEqual(prior.users, next.users) && prior.protocol == next.protocol
    ensures HandlerFor(prior) == HandlerFor(next) <==> Faithful(prior, next)
  {
    if CarriesUsers(next.protocol) {
      EqualUsersEqualAccounts(prior, next);
      CarriedAccounts(prior);
      CarriedAccounts(next);
      if AllAccounts(prior) == AllAccounts(next) {
        SameHandler(prior, next);
      }
    } else {
      PlainHandler(prior, next);
    }
  }

  lemma PlainHandler(a: ManagedInbound, b: ManagedInbound)
    requires InboundBaseEqual(a, b) && !CarriesUsers(a.protocol)
    ensures HandlerFor(a) == HandlerFor(b)
  {
    var x, y := a.(users := [], metadata := Nil), b.(users := [], metadata := Nil);
    assert x.protocol == y.protocol && x.settings == y.settings && x.port == y.port && x.listen == y.listen;
    assert x.streamSettings == y.streamSettings && x.sniffing == y.sniffing;
  }

  /* ---------- Removing and adding users ---------- */

  function SetAccounts(t: Table, tag: string, accounts: map<string, Account>): Table
    requires tag in t
  {
    t[tag := t[tag].(accounts := accounts)]
  }

  lemma SetAccountsSame(t: Table, tag: string)
    requires tag in t
    ensures SetAccounts(t, tag, t[tag].accounts) == t
  {
    assert t[tag].(accounts := t[tag].accounts) == t[tag];
  }

  lemma SetAccountsTwice(t: Table, tag: string, a: map<string, Account>, b: map<string, Account>)
    requires tag in t
    ensures SetAccounts(SetAccounts(t, tag, a), tag, b) == SetAccounts(t, tag, b)
  {
  }

  lemma StepRmu(t: Table, tag: string, accounts: map<string, Account>, email: string)
    requires tag in t && email in accounts
    ensures Run(SetAccounts(t, tag, accounts), CommandsOf(RemoveUser(tag, email))) == Some(SetAccounts(t, tag, accounts - {email}))
  {
    SetAccountsTwice(t, tag, accounts, accounts - {email});
    RunSingle(SetAccounts(t, tag, accounts), Rmu(tag, email));
  }

  lemma StepAdu(t: Table, next: ManagedInbound, accounts: map<string, Account>, u: ManagedUser)
    requires Buildable(next) && SupportsHotUsers(next.protocol)
    requires next.tag in t && SupportsHotUsers(t[next.tag].protocol) && AccountingEmail(u.id, next.id) !in accounts
    ensures Run(SetAccounts(t, next.tag, accounts), CommandsOf(AddUser(next, u))) ==
            Some(SetAccounts(t, next.tag, accounts[AccountingEmail(u.id, next.id) := AccountOf(u)]))
  {
    UserDocumentOf(next, u);
    SetAccountsTwice(t, next.tag, accounts, accounts[AccountingEmail(u.id, next.id) := AccountOf(u)]);
    RunSingle(SetAccounts(t, next.tag, accounts), Adu(UserDocument(next, u)));
  }

  function Kept(prior: ManagedInbound, newUsers: map<string, ManagedUser>, n: nat): map<string, Account>
    requires n <= |prior.users|
  {
    if n == 0 then AllAccounts(prior) else
    var before := Kept(prior, newUsers, n - 1);
    if Retired(prior.users[n - 1], newUsers) then before - {EmailOf(prior, n - 1)} else before
  }

  lemma {:induction false} KeptMeaning(prior: ManagedInbound, newUsers: map<string, ManagedUser>, n: nat)
    requires n <= |prior.users| && DistinctEmails(prior)
    ensures forall i :: 0 <= i < |prior.users| && prior.users[i].enabled ==>
                          (EmailOf(prior, i) in Kept(prior, newUsers, n) <==> i >= n || !Retired(prior.users[i], newUsers))
    ensures forall e :: e in Kept(prior, newUsers, n) ==>
                          e in AllAccounts(prior) && Kept(prior, newUsers, n)[e] == AllAccounts(prior)[e]
  {
    if n == 0 {
      UserAccountsMeaning(prior, |prior.users|);
    } else {
      KeptMeaning(prior, newUsers, n - 1);
    }
  }

  lemma NotYetRemoved(prior: ManagedInbound, newUsers: map<string, ManagedUser>, n: nat)
    requires n < |prior.users| && DistinctEmails(prior) && prior.users[n].enabled
    ensures EmailOf(prior, n) in Kept(prior, newUsers, n)
  {
    KeptMeaning(prior, newUsers, n);
  }

  lemma {:induction false} RemovalsRun(t: Table, prior: ManagedInbound, newUsers: map<string, ManagedUser>, n: nat)
    requires n <= |prior.users| && DistinctEmails(prior)
    requires prior.tag in t && t[prior.tag].accounts == AllAccounts(prior)
    ensures Run(t, Commands(UserRemovals(prior, newUsers, n))) ==
            Some(SetAccounts(t, prior.tag, Kept(prior, newUsers, n)))
  {
    if n == 0 {
      SetAccountsSame(t, prior.tag);
    } else {
      RemovalsRun(t, prior, newUsers, n - 1);
      var before := UserRemovals(prior, newUsers, n - 1);
      if Retired(prior.users[n - 1], newUsers) {
        var op := RemoveUser(prior.tag, EmailOf(prior, n - 1));
        NotYetRemoved(prior, newUsers, n - 1);
        RunSnoc(t, before, [op]);
        CommandsSingle(op);
        StepRmu(t, prior.tag, Kept(prior, newUsers, n - 1), EmailOf(prior, n - 1));
      } else {
        assert before + [] == before;
      }
    }
  }

  function Added(next: ManagedInbound, oldUsers: map<string, ManagedUser>, base: map<string, Account>, n: nat): map<string, Account>
    requires n <= |next.users|
  {
    if n == 0 then base else
    var before := Added(next, oldUsers, base, n - 1);
    if Retired(next.users[n - 1], oldUsers) then before[EmailOf(next, n - 1) := AccountOf(next.users[n - 1])] else before
  }

  lemma {:induction false} AddedHit(next: ManagedInbound, oldUsers: map<string, ManagedUser>, base: map<string, Account>, n: nat, i: nat)
    requires i < n <= |next.users| && DistinctEmails(next) && Retired(next.users[i], oldUsers)
    ensures EmailOf(next, i) in Added(next, oldUsers, base, n)
    ensures Added(next, oldUsers, base, n)[EmailOf(next, i)] == AccountOf(next.users[i])
  {
    if i < n - 1 {
      AddedHit(next, oldUsers, base, n - 1, i);
    }
  }

  lemma {:induction false} AddedMiss(next: ManagedInbound, oldUsers: map<string, ManagedUser>, base: map<string, Account>, n: nat, e: string)
    requires n <= |next.users|
    requires forall i :: 0 <= i < n && Retired(next.users[i], oldUsers) ==> EmailOf(next, i) != e
    ensures e in Added(next, oldUsers, base, n) <==> e in base
    ensures e in base ==> Added(next, oldUsers, base, n)[e] == base[e]
  {
    if n > 0 {
      AddedMiss(next, oldUsers, base, n - 1, e);
    }
  }

  /** A user about to be added cannot collide with one that stayed. */
  lemma AddedIsNew(prior: ManagedInbound, next: ManagedInbound, j: nat)
    requires DistinctEmails(prior) && DistinctEmails(next) && VisibleAlike(prior, next) && prior.id == next.id && j < |next.users|
    requires Retired(next.users[j], UsersById(prior.users, |prior.users|))
    ensures EmailOf(next, j) !in Kept(prior, UsersById(next.users, |next.users|), |prior.users|)
  {
    var newUsers := UsersById(next.users, |next.users|);
    var kept := Kept(prior, newUsers, |prior.users|);
    var e := EmailOf(next, j);
    if e in kept {
      var i, m := KeptUser(prior, next, e);
      assert m == j && Unchanged(prior, next, i, j);
      ShownMeaning(prior, i);
    }
  }

  /** The first `n` additions all go through and leave the added accounts. */
  ghost predicate AddsUp(t: Table, next: ManagedInbound, oldUsers: map<string, ManagedUser>, base: map<string, Account>, n: nat)
    requires n <= |next.users| && next.tag in t
  {
    Run(t, Commands(UserAdditions(next, oldUsers, n))) == Some(SetAccounts(t, next.tag, Added(next, oldUsers, base, n)))
  }

  lemma NothingAdded(t: Table, next: ManagedInbound, oldUsers: map<string, ManagedUser>)
    requires next.tag in t
    ensures AddsUp(t, next, oldUsers, t[next.tag].accounts, 0)
  {
    SetAccountsSame(t, next.tag);
  }

  lemma OneMoreAdded(t: Table, next: ManagedInbound, oldUsers: map<string, ManagedUser>, base: map<string, Account>, n: nat)
    requires n < |next.users| && DistinctEmails(next) && Buildable(next) && SupportsHotUsers(next.protocol)
    requires next.tag in t && SupportsHotUsers(t[next.tag].protocol) && AddsUp(t, next, oldUsers, base, n)
    requires Retired(next.users[n], oldUsers) ==> EmailOf(next, n) !in base
    ensures AddsUp(t, next, oldUsers, base, n + 1)
  {
    var before, u := UserAdditions(next, oldUsers, n), next.users[n];
    if Retired(u, oldUsers) {
      AddedMiss(next, oldUsers, base, n, EmailOf(next, n));
      RunSnoc(t, before, [AddUser(next, u)]);
      CommandsSingle(AddUser(next, u));
      StepAdu(t, next, Added(next, oldUsers, base, n), u);
    } else {
      assert before + [] == before;
    }
  }

  lemma {:induction false} AdditionsRun(t: Table, next: ManagedInbound, oldUsers: map<string, ManagedUser>, base: map<string, Account>, n: nat)
    requires n <= |next.users| && DistinctEmails(next) && Buildable(next) && SupportsHotUsers(next.protocol)
    requires next.tag in t && SupportsHotUsers(t[next.tag].protocol) && t[next.tag].accounts == base
    requires forall j :: 0 <= j < n && Retired(next.users[j], oldUsers) ==> EmailOf(next, j) !in base
    ensures AddsUp(t, next, oldUsers, base, n)
  {
    if n == 0 {
      NothingAdded(t, next, oldUsers);
    } else {
      AdditionsRun(t, next, oldUsers, base, n - 1);
      OneMoreAdded(t, next, oldUsers, base, n - 1);
    }
  }

  /** The one-user document carries exactly that user, under the inbound's tag. */
  lemma UserDocumentOf(next: ManagedInbound, u: ManagedUser)
    requires Buildable(next) && SupportsHotUsers(next.protocol)
    ensures UserDocument(next, u).Ok? && UserDocument(next, u).value.tag == next.tag
    ensures UserDocument(next, u).value.accounts == Clients([ClientOf(next.id, u)])
  {
    var one := next.(users := [u.(enabled := true)]);
    assert ClientsOf(one.id, one.users, 1) == ClientsOf(one.id, one.users, 0) + [ClientOf(next.id, u.(enabled := true))];
  }

  /** What is left of the old accounts plus the added ones are exactly the accounts of the new inbound. */
  lemma PatchedAccounts(prior: ManagedInbound, next: ManagedInbound)
    requires DistinctEmails(prior) && DistinctEmails(next) && VisibleAlike(prior, next) && prior.id == next.id
    ensures var kept := Kept(prior, UsersById(next.users, |next.users|), |prior.users|);
            Added(next, UsersById(prior.users, |prior.users|), kept, |next.users|) == AllAccounts(next)
  {
    var newUsers, oldUsers := UsersById(next.users, |next.users|), UsersById(prior.users, |prior.users|);
    var kept := Kept(prior, newUsers, |prior.users|);
    var all := Added(next, oldUsers, kept, |next.users|);
    KeptMeaning(prior, newUsers, |prior.users|);
    UserAccountsMeaning(next, |next.users|);
    forall e | e in kept ensures e in AllAccounts(next) && e in all && all[e] == AllAccounts(next)[e] {
      var i, m := KeptUser(prior, next, e);
      assert EmailOf(next, m) == e;
      forall j | 0 <= j < |next.users| && Retired(next.users[j], oldUsers) ensures EmailOf(next, j) != e {
        AddedIsNew(prior, next, j);
      }
      AddedMiss(next, oldUsers, kept, |next.users|, e);
    }
    forall e | e in AllAccounts(next) && e !in kept ensures e in all && all[e] == AllAccounts(next)[e] {
      var j :| 0 <= j < |next.users| && next.users[j].enabled && EmailOf(next, j) == e;
      if !Retired(next.users[j], oldUsers) {
        StayedUser(prior, next, j);
        assert false;
      } else {
        AddedHit(next, oldUsers, kept, |next.users|, j);
      }
    }
    forall e | e in all ensures e in AllAccounts(next) {
      if e !in kept && forall i :: 0 <= i < |next.users| && Retired(next.users[i], oldUsers) ==> EmailOf(next, i) != e {
        AddedMiss(next, oldUsers, kept, |next.users|, e);
        assert false;
      }
    }
    assert all.Keys == AllAccounts(next).Keys;
  }

  /** A kept account belongs to a user that is enabled and unchanged in the new inbound. */
  lemma KeptUser(prior: ManagedInbound, next: ManagedInbound, e: string) returns (i: nat, m: nat)
    requires DistinctEmails(prior) && prior.id == next.id
    requires e in Kept(prior, UsersById(next.users, |next.users|), |prior.users|)
    ensures i < |prior.users| && prior.users[i].enabled && EmailOf(prior, i) == e
    ensures m < |next.users| && next.users[m].id == prior.users[i].id && next.users[m].enabled
    ensures UserRuntimeEqual(prior.users[i], next.users[m]) && Shown(next, m)
    ensures Kept(prior, UsersById(next.users, |next.users|), |prior.users|)[e] == AccountOf(next.users[m])
  {
    var newUsers := UsersById(next.users, |next.users|);
    KeptMeaning(prior, newUsers, |prior.users|);
    UserAccountsMeaning(prior, |prior.users|);
    UsersByIdKeys(next.users, |next.users|);
    i :| 0 <= i < |prior.users| && prior.users[i].enabled && EmailOf(prior, i) == e;
    m :| 0 <= m < |next.users| && next.users[m] == newUsers[prior.users[i].id] && next.users[m].id == prior.users[i].id;
  }

  /** A user that need not be added kept its account. */
  lemma StayedUser(prior: ManagedInbound, next: ManagedInbound, j: nat)
    requires DistinctEmails(prior) && DistinctEmails(next) && VisibleAlike(prior, next)
    requires prior.id == next.id && j < |next.users| && next.users[j].enabled
    requires !Retired(next.users[j], UsersById(prior.users, |prior.users|))
    ensures EmailOf(next, j) in Kept(prior, UsersById(next.users, |next.users|), |prior.users|)
  {
    var newUsers := UsersById(next.users, |next.users|);
    var i := StayedFrom(prior, next, j);
    assert Unchanged(prior, next, i, j);
    ShownMeaning(next, j);
    KeptMeaning(prior, newUsers, |prior.users|);
    assert EmailOf(prior, i) == EmailOf(next, j);
  }

  /** The old entry because of which a user is not added. */
  lemma StayedFrom(prior: ManagedInbound, next: ManagedInbound, j: nat) returns (i: nat)
    requires prior.id == next.id && j < |next.users| && next.users[j].enabled
    requires !Retired(next.users[j], UsersById(prior.users, |prior.users|))
    ensures i < |prior.users| && Unchanged(prior, next, i, j) && Shown(prior, i)
  {
    var oldUsers := UsersById(prior.users, |prior.users|);
    UsersByIdKeys(prior.users, |prior.users|);
    i :| 0 <= i < |prior.users| && prior.users[i] == oldUsers[next.users[j].id] && prior.users[i].id == next.users[j].id;
  }

  /** The whole user patch: it always runs to the end, and leaves the handler a restart would load. */
  lemma UserPatch(t: Table, prior: ManagedInbound, next: ManagedInbound)
    requires DistinctEmails(prior) && DistinctEmails(next) && VisibleAlike(prior, next) && prior.id == next.id
    requires InboundBaseEqual(prior, next) && SupportsHotUsers(next.protocol) && Buildable(next)
    requires prior.tag in t && t[prior.tag] == HandlerFor(prior)
    ensures var ops := UserRemovals(prior, UsersById(next.users, |next.users|), |prior.users|) +
                       UserAdditions(next, UsersById(prior.users, |prior.users|), |next.users|);
            Run(t, Commands(ops)) == Some(t[next.tag := HandlerFor(next)])
  {
    var newUsers, oldUsers := UsersById(next.users, |next.users|), UsersById(prior.users, |prior.users|);
    SameBase(prior, next);
    var kept := Kept(prior, newUsers, |prior.users|);
    RemovalsRun(t, prior, newUsers, |prior.users|);
    var t1 := SetAccounts(t, prior.tag, kept);
    forall j | 0 <= j < |next.users| && Retired(next.users[j], oldUsers) ensures EmailOf(next, j) !in kept {
      AddedIsNew(prior, next, j);
    }
    AdditionsRun(t1, next, oldUsers, kept, |next.users|);
    PatchedAccounts(prior, next);
    SetAccountsTwice(t, next.tag, kept, AllAccounts(next));
    RunSnoc(t, UserRemovals(prior, newUsers, |prior.users|), UserAdditions(next, oldUsers, |next.users|));
  }

  lemma SameBase(prior: ManagedInbound, next: ManagedInbound)
    requires InboundBaseEqual(prior, next) && SupportsHotUsers(next.protocol)
    ensures prior.tag == next.tag && prior.id == next.id && prior.protocol == next.protocol
    ensures HandlerFor(prior).accounts == AllAccounts(prior) && HandlerFor(prior).protocol == next.protocol
    ensures HandlerFor(prior).(accounts := AllAccounts(next)) == HandlerFor(next)
  {
    var a, b := prior.(users := [], metadata := Nil), next.(users := [], metadata := Nil);
    assert a.tag == b.tag && a.id == b.id && a.protocol == b.protocol && a.settings == b.settings;
    assert a.port == b.port && a.listen == b.listen && a.streamSettings == b.streamSettings && a.sniffing == b.sniffing;
    HotHandler(prior);
    HotHandler(next);
  }
}
