/** What a plan holds, told on the fields of the two states: which operations it has, whom it leaves alone, and when it asks for a
    restart.  The planner's own comparisons do not occur in these statements. */
module PlanMeaning {
  import opened Model
  import opened Text
  import opened Order
  import opened Accounting
  import opened Builder
  import opened Runtime
  import opened HotUsers
  import opened Refinement
  import opened NonDisruption
  import opened RuntimeSafety
  import opened ConfigMeaning

  /* ---------- The comparisons ---------- */

  /** Equal in every field but the users and the metadata. */
  predicate SameFields(a: ManagedInbound, b: ManagedInbound)
  {
    && a.id == b.id && a.tag == b.tag && a.listen == b.listen && a.port == b.port && a.protocol == b.protocol
    && a.ipLimitMode == b.ipLimitMode && a.settings == b.settings && a.streamSettings == b.streamSettings && a.sniffing == b.sniffing
  }

  lemma BaseMeaning(a: ManagedInbound, b: ManagedInbound)
    ensures InboundBaseEqual(a, b) <==> SameFields(a, b)
  {
    var x, y := a.(users := [], metadata := Nil), b.(users := [], metadata := Nil);
    if x == y {
      assert x.id == y.id && x.tag == y.tag && x.listen == y.listen && x.port == y.port && x.protocol == y.protocol;
      assert x.ipLimitMode == y.ipLimitMode && x.settings == y.settings && x.streamSettings == y.streamSettings && x.sniffing == y.sniffing;
    }
  }

  /** Of several entries with one ID the last one counts. */
  ghost predicate IsLast(users: seq<ManagedUser>, j: nat)
  {
    j < |users| && forall k :: j < k < |users| ==> users[k].id != users[j].id
  }

  lemma {:induction false} LastWins(users: seq<ManagedUser>, n: nat, j: nat)
    requires j < n <= |users| && forall k :: j < k < n ==> users[k].id != users[j].id
    ensures users[j].id in UsersById(users, n) && UsersById(users, n)[users[j].id] == users[j]
  {
    if j < n - 1 {
      LastWins(users, n - 1, j);
    }
  }

  lemma {:induction false} LookupIsLast(users: seq<ManagedUser>, n: nat, id: string) returns (j: nat)
    requires n <= |users| && id in UsersById(users, n)
    ensures j < n && users[j].id == id && UsersById(users, n)[id] == users[j] && forall k :: j < k < n ==> users[k].id != id
  {
    if users[n - 1].id == id {
      j := n - 1;
    } else {
      j := LookupIsLast(users, n - 1, id);
    }
  }

  /** The entry that counts for the user's ID is enabled and has its level and credential. */
  ghost predicate KeptAsIs(u: ManagedUser, users: seq<ManagedUser>)
  {
    exists j: nat :: IsLast(users, j) && users[j].id == u.id && users[j].enabled && users[j].level == u.level && users[j].credential == u.credential
  }

  lemma RetiredMeaning(u: ManagedUser, users: seq<ManagedUser>)
    ensures Retired(u, UsersById(users, |users|)) <==> u.enabled && !KeptAsIs(u, users)
  {
    var byId := UsersById(users, |users|);
    if KeptAsIs(u, users) {
      var j: nat :| IsLast(users, j) && users[j].id == u.id && users[j].enabled && users[j].level == u.level && users[j].credential == u.credential;
      LastWins(users, |users|, j);
    }
    if u.enabled && !Retired(u, byId) {
      var j := LookupIsLast(users, |users|, u.id);
      assert IsLast(users, j);
    }
  }

  /** The same entries count, and they agree in level, credential and enabled flag; the lists are equally long. */
  ghost predicate UsersAlike(a: seq<ManagedUser>, b: seq<ManagedUser>)
  {
    && |a| == |b| && UserIds(a) == UserIds(b)
    && forall i: nat, j: nat :: IsLast(a, i) && IsLast(b, j) && a[i].id == b[j].id ==> Alike(a[i], b[j])
  }

  predicate Alike(u: ManagedUser, v: ManagedUser)
  {
    u.level == v.level && u.credential == v.credential && u.enabled == v.enabled
  }

  lemma LookedUpIds(users: seq<ManagedUser>)
    ensures UsersById(users, |users|).Keys == UserIds(users)
  {
    UsersByIdKeys(users, |users|);
    forall id | id in UserIds(users) ensures id in UsersById(users, |users|) {
      var u :| u in users && u.id == id;
      var i :| 0 <= i < |users| && users[i] == u;
    }
    forall id | id in UsersById(users, |users|) ensures id in UserIds(users) {
      var j := LookupIsLast(users, |users|, id);
      assert users[j] in users;
    }
  }

  lemma EqualAreAlike(a: seq<ManagedUser>, b: seq<ManagedUser>)
    requires UsersRuntimeEqual(a, b)
    ensures UsersAlike(a, b)
  {
    var am, bm := UsersById(a, |a|), UsersById(b, |b|);
    LookedUpIds(a);
    LookedUpIds(b);
    assert |am| == |am.Keys| && |bm| == |bm.Keys|;
    SubsetOfEqualSize(am.Keys, bm.Keys);
    forall i: nat, j: nat | IsLast(a, i) && IsLast(b, j) && a[i].id == b[j].id ensures Alike(a[i], b[j]) {
      LastWins(a, |a|, i);
      LastWins(b, |b|, j);
    }
  }

  lemma AlikeAreEqual(a: seq<ManagedUser>, b: seq<ManagedUser>)
    requires UsersAlike(a, b)
    ensures UsersRuntimeEqual(a, b)
  {
    var am, bm := UsersById(a, |a|), UsersById(b, |b|);
    LookedUpIds(a);
    LookedUpIds(b);
    assert |am| == |am.Keys| && |bm| == |bm.Keys|;
    forall id | id in am ensures id in bm && UserRuntimeEqual(am[id], bm[id]) && am[id].enabled == bm[id].enabled {
      assert id in am.Keys && id in bm.Keys;
      var i := LookupIsLast(a, |a|, id);
      var j := LookupIsLast(b, |b|, id);
      assert IsLast(a, i) && IsLast(b, j) && Alike(a[i], b[j]);
    }
  }

  lemma UsersAlikeMeaning(a: seq<ManagedUser>, b: seq<ManagedUser>)
    ensures UsersRuntimeEqual(a, b) <==> UsersAlike(a, b)
  {
    if UsersRuntimeEqual(a, b) { EqualAreAlike(a, b); }
    if UsersAlike(a, b) { AlikeAreEqual(a, b); }
  }

  /* ---------- The operations of a plan ---------- */

  ghost predicate Twins(a: seq<ManagedInbound>, b: seq<ManagedInbound>, p: nat, q: nat)
  {
    p < |a| && q < |b| && a[p].id == b[q].id
  }

  ghost predicate Missing(inbounds: seq<ManagedInbound>, id: string)
  {
    forall i :: 0 <= i < |inbounds| ==> inbounds[i].id != id
  }

  /** The users of the running inbound are changed one by one. */
  ghost predicate IsPatched(a: ManagedInbound, b: ManagedInbound)
  {
    SameFields(a, b) && !UsersAlike(a.users, b.users) && HotProtocol(b.protocol)
  }

  ghost predicate IsReplaced(a: ManagedInbound, b: ManagedInbound)
  {
    !SameFields(a, b) || (!UsersAlike(a.users, b.users) && !HotProtocol(b.protocol))
  }

  ghost predicate MustLose(a: ManagedInbound, b: ManagedInbound, i: nat)
  {
    i < |a.users| && a.users[i].enabled && !KeptAsIs(a.users[i], b.users)
  }

  /** Inbound `b` replaces the running inbound `a`, or its users are patched: those that are not kept go, those that are new come. */
  ghost predicate RoundCallsFor(a: ManagedInbound, b: ManagedInbound, op: RuntimeOp)
  {
    || (IsReplaced(a, b) && op == ReplaceInbound(a.tag, b))
    || (IsPatched(a, b) && exists i: nat :: MustLose(a, b, i) && op == RemoveUser(a.tag, AccountingEmail(a.users[i].id, a.id)))
    || (IsPatched(a, b) && exists j: nat :: MustLose(b, a, j) && op == AddUser(b, b.users[j]))
  }

  /** The difference of two states calls for this operation. */
  ghost predicate CalledFor(a: seq<ManagedInbound>, b: seq<ManagedInbound>, op: RuntimeOp)
  {
    || (exists p: nat :: p < |a| && Missing(b, a[p].id) && op == RemoveInbound(a[p].tag))
    || (exists q: nat :: q < |b| && Missing(a, b[q].id) && op == AddInbound(b[q]))
    || (exists p: nat, q: nat :: Twins(a, b, p, q) && RoundCallsFor(a[p], b[q], op))
  }

  lemma {:induction false} RemovalOpsHave(a: seq<ManagedInbound>, nextById: LiveInbounds, n: nat, op: RuntimeOp)
    requires n <= |a|
    ensures op in RemovalOps(a, nextById, n) <==> exists p :: 0 <= p < n && op == RemoveInbound(a[p].tag) && a[p].id !in nextById
  {
    if n > 0 {
      RemovalOpsHave(a, nextById, n - 1, op);
    }
  }

  lemma {:induction false} FlatHas(parts: seq<seq<RuntimeOp>>, n: nat, op: RuntimeOp)
    requires n <= |parts|
    ensures op in Flat(parts, n) <==> exists m :: 0 <= m < n && op in parts[m]
  {
    if n > 0 {
      FlatHas(parts, n - 1, op);
    }
  }

  /** The operation belongs to the round of some desired inbound. */
  ghost predicate InSomeRound(prevById: LiveInbounds, b: seq<ManagedInbound>, op: RuntimeOp)
  {
    exists q :: 0 <= q < |b| && op in InboundOps(prevById, b[q])
  }

  lemma UpdateOpsHave(prevById: LiveInbounds, b: seq<ManagedInbound>, op: RuntimeOp)
    ensures op in UpdateOps(prevById, b, |b|) <==> InSomeRound(prevById, b, op)
  {
    var parts := RoundOps(prevById, b);
    UpdateOpsAreFlat(prevById, b, parts, |b|);
    FlatHas(parts, |b|, op);
  }

  lemma {:induction false} UserRemovalsHave(a: ManagedInbound, newUsers: map<string, ManagedUser>, n: nat, op: RuntimeOp)
    requires n <= |a.users|
    ensures op in UserRemovals(a, newUsers, n) <==>
            exists i :: 0 <= i < n && Retired(a.users[i], newUsers) && op == RemoveUser(a.tag, AccountingEmail(a.users[i].id, a.id))
  {
    if n > 0 {
      UserRemovalsHave(a, newUsers, n - 1, op);
    }
  }

  lemma {:induction false} UserAdditionsHave(b: ManagedInbound, oldUsers: map<string, ManagedUser>, n: nat, op: RuntimeOp)
    requires n <= |b.users|
    ensures op in UserAdditions(b, oldUsers, n) <==> exists j :: 0 <= j < n && Retired(b.users[j], oldUsers) && op == AddUser(b, b.users[j])
  {
    if n > 0 {
      UserAdditionsHave(b, oldUsers, n - 1, op);
    }
  }

  lemma RoundHas(prevById: LiveInbounds, b: ManagedInbound, op: RuntimeOp)
    requires b.id in prevById
    ensures op in InboundOps(prevById, b) <==> RoundCallsFor(prevById[b.id], b, op)
  {
    var a := prevById[b.id];
    BaseMeaning(a, b);
    UsersAlikeMeaning(a.users, b.users);
    if IsPatched(a, b) {
      PatchHas(a, b, op);
    }
  }

  lemma PatchHas(a: ManagedInbound, b: ManagedInbound, op: RuntimeOp)
    ensures op in UserRemovals(a, UsersById(b.users, |b.users|), |a.users|) + UserAdditions(b, UsersById(a.users, |a.users|), |b.users|) <==>
            || (exists i: nat :: MustLose(a, b, i) && op == RemoveUser(a.tag, AccountingEmail(a.users[i].id, a.id)))
            || (exists j: nat :: MustLose(b, a, j) && op == AddUser(b, b.users[j]))
  {
    UserRemovalsHave(a, UsersById(b.users, |b.users|), |a.users|, op);
    UserAdditionsHave(b, UsersById(a.users, |a.users|), |b.users|, op);
    forall i | 0 <= i < |a.users| ensures Retired(a.users[i], UsersById(b.users, |b.users|)) <==> MustLose(a, b, i) {
      RetiredMeaning(a.users[i], b.users);
    }
    forall j | 0 <= j < |b.users| ensures Retired(b.users[j], UsersById(a.users, |a.users|)) <==> MustLose(b, a, j) {
      RetiredMeaning(b.users[j], a.users);
    }
  }

  lemma LookedUpInbound(inbounds: seq<ManagedInbound>, id: string)
    requires UniqueIds(inbounds)
    ensures id in InboundsById(inbounds, |inbounds|) <==> !Missing(inbounds, id)
    ensures forall p :: 0 <= p < |inbounds| && inbounds[p].id == id ==> InboundsById(inbounds, |inbounds|)[id] == inbounds[p]
  {
    InboundsByIdKeys(inbounds, |inbounds|);
  }

  /** The round of desired inbound `q` holds what is called for by it. */
  ghost predicate CalledForBy(a: seq<ManagedInbound>, b: seq<ManagedInbound>, q: nat, op: RuntimeOp)
  {
    q < |b| &&
    ((Missing(a, b[q].id) && op == AddInbound(b[q])) || exists p: nat :: Twins(a, b, p, q) && RoundCallsFor(a[p], b[q], op))
  }

  lemma UpdateHas(a: seq<ManagedInbound>, b: seq<ManagedInbound>, q: nat, op: RuntimeOp)
    requires UniqueIds(a) && q < |b|
    ensures op in InboundOps(InboundsById(a, |a|), b[q]) <==> CalledForBy(a, b, q, op)
  {
    LookedUpInbound(a, b[q].id);
    if !Missing(a, b[q].id) {
      var p :| 0 <= p < |a| && a[p].id == b[q].id;
      RoundHas(InboundsById(a, |a|), b[q], op);
      assert Twins(a, b, p, q);
    }
  }

  lemma UpdatesHold(a: seq<ManagedInbound>, b: seq<ManagedInbound>, op: RuntimeOp)
    requires UniqueIds(a)
    ensures op in UpdateOps(InboundsById(a, |a|), b, |b|) <==> exists q: nat :: CalledForBy(a, b, q, op)
  {
    UpdateOpsHave(InboundsById(a, |a|), b, op);
    if InSomeRound(InboundsById(a, |a|), b, op) {
      var q :| 0 <= q < |b| && op in InboundOps(InboundsById(a, |a|), b[q]);
      UpdateHas(a, b, q, op);
    }
    if exists q: nat :: CalledForBy(a, b, q, op) {
      var q: nat :| CalledForBy(a, b, q, op);
      UpdateHas(a, b, q, op);
    }
  }

  lemma RemovalsHold(a: seq<ManagedInbound>, b: seq<ManagedInbound>, op: RuntimeOp)
    requires UniqueIds(b)
    ensures op in RemovalOps(a, InboundsById(b, |b|), |a|) <==> exists p: nat :: p < |a| && Missing(b, a[p].id) && op == RemoveInbound(a[p].tag)
  {
    RemovalOpsHave(a, InboundsById(b, |b|), |a|, op);
    forall p | 0 <= p < |a| ensures a[p].id !in InboundsById(b, |b|) <==> Missing(b, a[p].id) {
      LookedUpInbound(b, a[p].id);
    }
  }

  lemma CallersAreTwins(a: seq<ManagedInbound>, b: seq<ManagedInbound>, op: RuntimeOp)
    ensures (exists q: nat :: CalledForBy(a, b, q, op)) <==>
            || (exists q: nat :: q < |b| && Missing(a, b[q].id) && op == AddInbound(b[q]))
            || (exists p: nat, q: nat :: Twins(a, b, p, q) && RoundCallsFor(a[p], b[q], op))
  {
    if exists q: nat :: q < |b| && Missing(a, b[q].id) && op == AddInbound(b[q]) {
      var q: nat :| q < |b| && Missing(a, b[q].id) && op == AddInbound(b[q]);
      assert CalledForBy(a, b, q, op);
    }
    if exists p: nat, q: nat :: Twins(a, b, p, q) && RoundCallsFor(a[p], b[q], op) {
      var p: nat, q: nat :| Twins(a, b, p, q) && RoundCallsFor(a[p], b[q], op);
      assert CalledForBy(a, b, q, op);
    }
  }

  /** A plan holds exactly the operations that the difference of the two states calls for. */
  lemma PlanHolds(previous: DesiredState, desired: DesiredState, op: RuntimeOp)
    requires UniqueIds(previous.inbounds) && UniqueIds(desired.inbounds)
    ensures op in Operations(previous, desired) <==> CalledFor(previous.inbounds, desired.inbounds, op)
  {
    var a, b := previous.inbounds, desired.inbounds;
    RemovalsHold(a, b, op);
    UpdatesHold(a, b, op);
    CallersAreTwins(a, b, op);
  }

  /* ---------- Whom a plan leaves alone ---------- */

  /** The same users in the same order, as far as Xray is concerned: limits, usage, panel emails, accounts, outbounds and
      generations may differ. */
  ghost predicate SameToXray(a: seq<ManagedUser>, b: seq<ManagedUser>)
  {
    |a| == |b| && forall i :: 0 <= i < |a| ==> a[i].id == b[i].id && Alike(a[i], b[i])
  }

  lemma SameToXrayIsAlike(a: seq<ManagedUser>, b: seq<ManagedUser>)
    requires SameToXray(a, b)
    ensures UsersAlike(a, b)
  {
    forall id ensures id in UserIds(a) <==> id in UserIds(b) {
      if id in UserIds(a) {
        var u :| u in a && u.id == id;
        var i :| 0 <= i < |a| && a[i] == u;
        assert b[i] in b;
      }
      if id in UserIds(b) {
        var u :| u in b && u.id == id;
        var i :| 0 <= i < |b| && b[i] == u;
        assert a[i] in a;
      }
    }
    forall i: nat, j: nat | IsLast(a, i) && IsLast(b, j) && a[i].id == b[j].id ensures Alike(a[i], b[j]) {
      assert a[j].id == b[j].id && a[i].id == b[i].id;
    }
  }

  /** When only figures that Xray does not see have changed, such as limits, used traffic or metadata, there is nothing to do. */
  lemma PanelFiguresPlanNothing(previous: DesiredState, desired: DesiredState)
    requires UniqueIds(previous.inbounds) && |previous.inbounds| == |desired.inbounds|
    requires forall p :: 0 <= p < |previous.inbounds| ==>
               SameFields(previous.inbounds[p], desired.inbounds[p]) && SameToXray(previous.inbounds[p].users, desired.inbounds[p].users)
    ensures Operations(previous, desired) == []
  {
    var a, b := previous.inbounds, desired.inbounds;
    forall p: nat, q: nat | Twins(a, b, p, q) ensures SameFields(a[p], b[q]) && UsersAlike(a[p].users, b[q].users) {
      assert a[q].id == b[q].id;
      SameToXrayIsAlike(a[p].users, b[p].users);
    }
    if Operations(previous, desired) != [] {
      var op := Operations(previous, desired)[0];
      assert UniqueIds(b);
      PlanHolds(previous, desired, op);
      forall p | 0 <= p < |a| ensures !Missing(b, a[p].id) && !Missing(a, b[p].id) {
        assert a[p].id == b[p].id;
      }
    }
  }

  /** A user that stays enabled with its ID, level and credential, in an inbound that keeps every field but its users and metadata,
      is served with its account after every prefix of the plan. */
  lemma UnchangedUserIsServed(previous: DesiredState, desired: DesiredState, p: nat, i: nat, q: nat)
    requires KeyedState(previous) && UniqueIds(desired.inbounds) && Names(previous, p, i) && previous.inbounds[p].users[i].enabled
    requires HotProtocol(previous.inbounds[p].protocol)
    requires q < |desired.inbounds| && SameFields(previous.inbounds[p], desired.inbounds[q])
    requires KeptAsIs(previous.inbounds[p].users[i], desired.inbounds[q].users)
    ensures NeverInterrupted(previous, desired, p, i)
  {
    var a, b := previous.inbounds[p], desired.inbounds[q];
    BaseMeaning(a, b);
    RetiredMeaning(a.users[i], b.users);
    assert SparedBy(a, b, i);
    PrefixIsNonDisruptive(previous, desired, p, i);
  }

  /** With unique IDs any entry is the one that counts. */
  lemma UniqueIsLast(users: seq<ManagedUser>, j: nat)
    requires UniqueUserIds(users) && j < |users|
    ensures IsLast(users, j)
  {
  }

  /** Undisturbed users, told on the fields. */
  lemma UndisturbedMeaning(previous: DesiredState, desired: DesiredState, p: nat, i: nat)
    requires Names(previous, p, i) && previous.inbounds[p].users[i].enabled
    ensures Undisturbed(previous, desired, p, i) <==>
            exists q: nat :: Twins(previous.inbounds, desired.inbounds, p, q) && LeavesAlone(previous.inbounds[p], desired.inbounds[q], i)
  {
    var a := previous.inbounds[p];
    forall q | 0 <= q < |desired.inbounds| ensures SparedBy(a, desired.inbounds[q], i) <==> LeavesAlone(a, desired.inbounds[q], i) {
      var b := desired.inbounds[q];
      BaseMeaning(a, b);
      UsersAlikeMeaning(a.users, b.users);
      RetiredMeaning(a.users[i], b.users);
    }
    if Undisturbed(previous, desired, p, i) {
      var q :| 0 <= q < |desired.inbounds| && desired.inbounds[q].id == a.id && SparedBy(a, desired.inbounds[q], i);
      assert Twins(previous.inbounds, desired.inbounds, p, q);
    }
  }

  /** The inbound keeps its fields, and all its users are alike or this one is kept in a patch. */
  ghost predicate LeavesAlone(a: ManagedInbound, b: ManagedInbound, i: nat)
    requires i < |a.users|
  {
    SameFields(a, b) && (UsersAlike(a.users, b.users) || (HotProtocol(b.protocol) && KeptAsIs(a.users[i], b.users)))
  }

  /* ---------- When a plan asks for a restart ---------- */

  /** The same bytes, or two documents that parse to the same value. */
  predicate SameMessage(a: Raw, b: Raw)
  {
    a == b || (a.Document? && b.Document? && a.value == b.value)
  }

  ghost predicate SameMessages(a: seq<Raw>, b: seq<Raw>)
  {
    |a| == |b| && forall i :: 0 <= i < |a| ==> SameMessage(a[i], b[i])
  }

  /** User `j` of inbound `i` has an outbound of its own. */
  ghost predicate Routed(s: DesiredState, i: nat, j: nat)
  {
    i < |s.inbounds| && j < |s.inbounds[i].users| && s.inbounds[i].users[j].outboundTag != ""
  }

  ghost predicate IsRoute(s: DesiredState, i: nat, j: nat, r: Route)
  {
    && Routed(s, i, j)
    && r.inboundId == s.inbounds[i].id && r.userId == s.inbounds[i].users[j].id
    && r.outboundTag == s.inbounds[i].users[j].outboundTag && r.enabled == s.inbounds[i].users[j].enabled
  }

  ghost predicate HasRoute(s: DesiredState, r: Route)
  {
    exists i: nat, j: nat :: IsRoute(s, i, j, r)
  }

  /** No two users with an outbound of their own share inbound and user ID. */
  ghost predicate RoutesApart(s: DesiredState)
  {
    forall i: nat, j: nat, k: nat, l: nat ::
      Routed(s, i, j) && Routed(s, k, l) && s.inbounds[i].id == s.inbounds[k].id && s.inbounds[i].users[j].id == s.inbounds[k].users[l].id ==>
        i == k && j == l
  }

  lemma {:induction false} InboundRoutesAre(s: DesiredState, i: nat, n: nat, r: Route)
    requires i < |s.inbounds| && n <= |s.inbounds[i].users|
    ensures r in InboundRoutes(s.inbounds[i], n) <==> exists j: nat :: j < n && IsRoute(s, i, j, r)
  {
    if n > 0 {
      InboundRoutesAre(s, i, n - 1, r);
      var u := s.inbounds[i].users[n - 1];
      assert IsRoute(s, i, n - 1, r) <==> u.outboundTag != "" && r == Route(s.inbounds[i].id, u.id, u.outboundTag, u.enabled);
    }
  }

  lemma {:induction false} RoutesAre(s: DesiredState, n: nat, r: Route)
    requires n <= |s.inbounds|
    ensures r in Routes(s.inbounds, n) <==> exists i: nat, j: nat :: i < n && IsRoute(s, i, j, r)
  {
    if n > 0 {
      RoutesAre(s, n - 1, r);
      InboundRoutesAre(s, n - 1, |s.inbounds[n - 1].users|, r);
    }
  }

  /** No two routes of the list have the same key. */
  ghost predicate KeysApart(routes: seq<Route>)
  {
    forall x, y :: 0 <= x < y < |routes| ==> (routes[x].inboundId, routes[x].userId) != (routes[y].inboundId, routes[y].userId)
  }

  lemma KeysApartJoin(a: seq<Route>, b: seq<Route>)
    requires KeysApart(a) && KeysApart(b)
    requires forall r, q :: r in a && q in b ==> (r.inboundId, r.userId) != (q.inboundId, q.userId)
    ensures KeysApart(a + b)
  {
    forall x, y | 0 <= x < |a| && 0 <= y < |b| ensures (a[x].inboundId, a[x].userId) != (b[y].inboundId, b[y].userId) {
      assert a[x] in a && b[y] in b;
    }
  }

  lemma {:induction false} InboundKeysApart(s: DesiredState, i: nat, n: nat)
    requires RoutesApart(s) && i < |s.inbounds| && n <= |s.inbounds[i].users|
    ensures KeysApart(InboundRoutes(s.inbounds[i], n))
  {
    if n > 0 {
      InboundKeysApart(s, i, n - 1);
      var before, u := InboundRoutes(s.inbounds[i], n - 1), s.inbounds[i].users[n - 1];
      if u.outboundTag == "" {
        assert before + [] == before;
      } else {
        forall r | r in before ensures (r.inboundId, r.userId) != (s.inbounds[i].id, u.id) {
          InboundRoutesAre(s, i, n - 1, r);
          assert Routed(s, i, n - 1);
        }
        var last := Route(s.inbounds[i].id, u.id, u.outboundTag, u.enabled);
        assert InboundRoutes(s.inbounds[i], n) == before + [last];
        KeysApartJoin(before, [last]);
      }
    }
  }

  lemma {:induction false} StateKeysApart(s: DesiredState, n: nat)
    requires RoutesApart(s) && n <= |s.inbounds|
    ensures KeysApart(Routes(s.inbounds, n))
  {
    if n > 0 {
      StateKeysApart(s, n - 1);
      var users := s.inbounds[n - 1].users;
      InboundKeysApart(s, n - 1, |users|);
      forall r, q | r in Routes(s.inbounds, n - 1) && q in InboundRoutes(s.inbounds[n - 1], |users|)
        ensures (r.inboundId, r.userId) != (q.inboundId, q.userId)
      {
        RoutesAre(s, n - 1, r);
        InboundRoutesAre(s, n - 1, |users|, q);
      }
      KeysApartJoin(Routes(s.inbounds, n - 1), InboundRoutes(s.inbounds[n - 1], |users|));
    }
  }

  lemma ApartIsUnique(s: DesiredState)
    requires RoutesApart(s)
    ensures UniqueRoutes(s)
  {
    var routes := Routes(s.inbounds, |s.inbounds|);
    StateKeysApart(s, |s.inbounds|);
    PairLessOrder();
    forall r, q | r in routes && q in routes && r != q ensures RouteLess(r, q) || RouteLess(q, r) {
      var x :| 0 <= x < |routes| && routes[x] == r;
      var y :| 0 <= y < |routes| && routes[y] == q;
      assert (r.inboundId, r.userId) != (q.inboundId, q.userId);
    }
  }

  /** The same users have outbounds of their own, the same ones, and are enabled alike. */
  ghost predicate SameRoutes(a: DesiredState, b: DesiredState)
  {
    forall r :: HasRoute(a, r) <==> HasRoute(b, r)
  }

  lemma RoutingComparison(a: DesiredState, b: DesiredState)
    requires RoutesApart(a) && RoutesApart(b)
    ensures ManagedRoutingEqual(a, b) <==> SameRoutes(a, b)
  {
    ApartIsUnique(a);
    ApartIsUnique(b);
    ManagedRoutingMeaning(a, b);
    forall r ensures HasRoute(a, r) <==> r in Routes(a.inbounds, |a.inbounds|) {
      RoutesAre(a, |a.inbounds|, r);
    }
    forall r ensures HasRoute(b, r) <==> r in Routes(b.inbounds, |b.inbounds|) {
      RoutesAre(b, |b.inbounds|, r);
    }
  }

  /** Nothing changes for Xray as a whole: outbounds, routing, DNS and the users' own outbounds. */
  ghost predicate SameGlobals(a: DesiredState, b: DesiredState)
  {
    SameMessages(a.outbounds, b.outbounds) && SameMessage(a.routing, b.routing) && SameMessage(a.dns, b.dns) && SameRoutes(a, b)
  }

  /** An enabled user needs a statistics level that was not loaded. */
  ghost predicate NeedsLevel(a: DesiredState, b: DesiredState)
  {
    exists level :: HasLevel(b.inbounds, level) && !HasLevel(a.inbounds, level)
  }

  lemma MessagesAlike(a: seq<Raw>, b: seq<Raw>)
    ensures RawMessagesEqual(a, b) <==> SameMessages(a, b)
  {
    if RawMessagesEqual(a, b) {
      forall i | 0 <= i < |a| ensures SameMessage(a[i], b[i]) {
        assert BytesJsonEqual(a[i], b[i]);
      }
    }
    if SameMessages(a, b) {
      forall i | 0 <= i < |a| ensures BytesJsonEqual(a[i], b[i]) {
        assert SameMessage(a[i], b[i]);
      }
    }
  }

  lemma GlobalsAlike(a: DesiredState, b: DesiredState)
    requires RoutesApart(a) && RoutesApart(b)
    ensures RuntimeGlobalEqual(a, b) <==> SameGlobals(a, b)
  {
    MessagesAlike(a.outbounds, b.outbounds);
    RoutingComparison(a, b);
  }

  lemma LevelsAlike(a: DesiredState, b: DesiredState)
    ensures Levels(b) <= Levels(a) <==> !NeedsLevel(a, b)
  {
    if Levels(b) <= Levels(a) {
      forall level | HasLevel(b.inbounds, level) ensures HasLevel(a.inbounds, level) {
        LevelIsListed(a, level);
        LevelIsListed(b, level);
      }
    }
    if !NeedsLevel(a, b) {
      forall level | level in Levels(b) ensures level in Levels(a) {
        LevelIsListed(a, level);
        LevelIsListed(b, level);
      }
    }
  }

  lemma LevelIsListed(s: DesiredState, level: int)
    ensures level in Levels(s) <==> HasLevel(s.inbounds, level)
  {
    InboundLevelsMeaning(s.inbounds, |s.inbounds|, level);
  }

  /** When a plan asks for a restart, and why. */
  lemma RestartOnFields(previous: DesiredState, desired: DesiredState)
    requires RoutesApart(previous) && RoutesApart(desired)
    ensures var plan := PlanOf(previous, desired);
            && (plan.requiresRestart <==> !SameGlobals(previous, desired) || NeedsLevel(previous, desired))
            && (plan.reason == GlobalsChanged <==> !SameGlobals(previous, desired))
            && (plan.requiresRestart ==> plan.operations == [])
  {
    GlobalsAlike(previous, desired);
    LevelsAlike(previous, desired);
    RestartMeaning(previous, desired);
    PlanShape(previous, desired);
  }

  lemma PlanShape(previous: DesiredState, desired: DesiredState)
    ensures var plan := PlanOf(previous, desired);
            && (plan.reason == GlobalsChanged <==> !RuntimeGlobalEqual(previous, desired))
            && (plan.requiresRestart ==> plan.operations == [])
  {
  }

  /** User `j` of inbound `i` is enabled and has a level that is not among the known ones. */
  ghost predicate IsNew(inbounds: seq<ManagedInbound>, known: set<int>, i: nat, j: nat)
  {
    i < |inbounds| && j < |inbounds[i].users| && inbounds[i].users[j].enabled && inbounds[i].users[j].level !in known
  }

  /** The first such user, in state order, is named in the reason. */
  lemma FirstNewLevel(inbounds: seq<ManagedInbound>, known: set<int>) returns (i: nat, j: nat)
    requires NewLevelIn(inbounds, known, |inbounds|).Some?
    ensures IsNew(inbounds, known, i, j) && NewLevelIn(inbounds, known, |inbounds|) == Some(inbounds[i].users[j].level)
    ensures forall k: nat, l: nat :: IsNew(inbounds, known, k, l) ==> i < k || (i == k && j <= l)
  {
    i := FirstNewInbound(inbounds, known, |inbounds|);
    j := FirstNewUser(inbounds[i].users, known, |inbounds[i].users|);
    forall k: nat, l: nat | IsNew(inbounds, known, k, l) ensures i < k || (i == k && j <= l) {
      if k < i {
        NoneNew(inbounds[k].users, known, |inbounds[k].users|, l);
      }
    }
  }

  lemma {:induction false} FirstNewInbound(inbounds: seq<ManagedInbound>, known: set<int>, n: nat) returns (i: nat)
    requires n <= |inbounds| && NewLevelIn(inbounds, known, n).Some?
    ensures i < n && NewLevelAmong(inbounds[i].users, known, |inbounds[i].users|) == NewLevelIn(inbounds, known, n)
    ensures forall k :: 0 <= k < i ==> NewLevelAmong(inbounds[k].users, known, |inbounds[k].users|).None?
  {
    if NewLevelIn(inbounds, known, n - 1).Some? {
      i := FirstNewInbound(inbounds, known, n - 1);
    } else {
      i := n - 1;
      NoNewInbound(inbounds, known, n - 1);
    }
  }

  lemma {:induction false} NoNewInbound(inbounds: seq<ManagedInbound>, known: set<int>, n: nat)
    requires n <= |inbounds| && NewLevelIn(inbounds, known, n).None?
    ensures forall k :: 0 <= k < n ==> NewLevelAmong(inbounds[k].users, known, |inbounds[k].users|).None?
  {
    if n > 0 {
      NoNewInbound(inbounds, known, n - 1);
    }
  }

  lemma {:induction false} FirstNewUser(users: seq<ManagedUser>, known: set<int>, n: nat) returns (j: nat)
    requires n <= |users| && NewLevelAmong(users, known, n).Some?
    ensures j < n && users[j].enabled && users[j].level !in known && NewLevelAmong(users, known, n) == Some(users[j].level)
    ensures forall l :: 0 <= l < j ==> !(users[l].enabled && users[l].level !in known)
  {
    if NewLevelAmong(users, known, n - 1).Some? {
      j := FirstNewUser(users, known, n - 1);
    } else {
      j := n - 1;
      forall l | 0 <= l < j ensures !(users[l].enabled && users[l].level !in known) {
        NoneNew(users, known, n - 1, l);
      }
    }
  }

  lemma {:induction false} NoneNew(users: seq<ManagedUser>, known: set<int>, n: nat, l: nat)
    requires l < n <= |users| && NewLevelAmong(users, known, n).None?
    ensures !(users[l].enabled && users[l].level !in known)
  {
    if l < n - 1 {
      NoneNew(users, known, n - 1, l);
    }
  }
}
