/** Diff-then-patch refines rebuild: a plan that needs no restart, run on the table of the previous state, gives the table
    of the desired state; and it runs to the end exactly when no inbound wants a tag that is still taken. */
module Refinement {
  import opened Model
  import opened Text
  import opened Order
  import opened Accounting
  import opened Builder
  import opened Runtime
  import opened HotUsers

  type LiveInbounds = map<string, ManagedInbound>

  /** Unique inbound IDs and tags, and users that the planner's lookups by ID and Xray's lookups by email tell apart. */
  ghost predicate GoodState(s: DesiredState)
  {
    && UniqueIds(s.inbounds) && UniqueTags(s.inbounds)
    && forall i :: 0 <= i < |s.inbounds| ==> GoodInbound(s.inbounds[i])
  }

  /** Without the condition on duplicate user IDs. */
  ghost predicate KeyedState(s: DesiredState)
  {
    && UniqueIds(s.inbounds) && UniqueTags(s.inbounds)
    && forall i :: 0 <= i < |s.inbounds| ==> DistinctEmails(s.inbounds[i])
  }

  /** The inbound is new, or the version it replaces is faithful to it. */
  ghost predicate Ready(prevById: LiveInbounds, next: ManagedInbound)
  {
    next.id in prevById ==> Faithful(prevById[next.id], next)
  }

  ghost predicate AllBuildable(s: DesiredState)
  {
    forall i :: 0 <= i < |s.inbounds| ==> Buildable(s.inbounds[i])
  }

  /** The table serves exactly the inbounds of `live` (by ID), each under its own tag. */
  ghost predicate Serves(t: Table, live: LiveInbounds)
  {
    && (forall id :: id in live ==> live[id].tag in t && t[live[id].tag] == HandlerFor(live[id]))
    && (forall tag :: tag in t ==> exists id :: id in live && live[id].tag == tag)
    && (forall a, b :: a in live && b in live && live[a].tag == live[b].tag ==> a == b)
  }

  lemma ServesIsFunctional(t0: Table, t1: Table, live: LiveInbounds)
    requires Serves(t0, live) && Serves(t1, live)
    ensures t0 == t1
  {
    forall tag | tag in t0 ensures tag in t1 && t0[tag] == t1[tag] {
      var id :| id in live && live[id].tag == tag;
    }
    forall tag | tag in t1 ensures tag in t0 {
      var id :| id in live && live[id].tag == tag;
    }
    assert t0.Keys == t1.Keys;
  }

  lemma {:induction false} BodiesAt(inbounds: seq<ManagedInbound>, n: nat, i: nat)
    requires i < n <= |inbounds|
    ensures Bodies(inbounds, n)[i] == InboundBody(inbounds[i])
  {
    if i < n - 1 {
      BodiesAt(inbounds, n - 1, i);
    }
  }

  lemma {:induction false} LoadTableServes(inbounds: seq<ManagedInbound>, docs: seq<InboundConfig>, n: nat)
    requires n <= |inbounds| == |docs| && UniqueIds(inbounds) && UniqueTags(inbounds)
    requires forall i :: 0 <= i < |docs| ==> docs[i] == InboundBody(inbounds[i])
    ensures Serves(LoadTable(docs, n), InboundsById(inbounds, n))
  {
    if n == 0 {
      NothingServesNothing();
    } else {
      LoadTableServes(inbounds, docs, n - 1);
      LoadStep(inbounds, docs, n - 1);
    }
  }

  lemma LoadStep(inbounds: seq<ManagedInbound>, docs: seq<InboundConfig>, n: nat)
    requires n < |inbounds| == |docs| && UniqueIds(inbounds) && UniqueTags(inbounds) && docs[n] == InboundBody(inbounds[n])
    requires Serves(LoadTable(docs, n), InboundsById(inbounds, n))
    ensures Serves(LoadTable(docs, n + 1), InboundsById(inbounds, n + 1))
  {
    NextIsNew(inbounds, n);
    ServesAdded(LoadTable(docs, n), InboundsById(inbounds, n), inbounds[n]);
  }

  lemma NothingServesNothing()
    ensures Serves(map[], map[])
  {
  }

  lemma NextIsNew(inbounds: seq<ManagedInbound>, n: nat)
    requires n < |inbounds| && UniqueIds(inbounds) && UniqueTags(inbounds)
    ensures inbounds[n].id !in InboundsById(inbounds, n)
    ensures forall id :: id in InboundsById(inbounds, n) ==> InboundsById(inbounds, n)[id].tag != inbounds[n].tag
  {
    InboundsByIdKeys(inbounds, n);
  }

  lemma TableServes(s: DesiredState)
    requires UniqueIds(s.inbounds) && UniqueTags(s.inbounds)
    ensures Serves(TableOf(s), InboundsById(s.inbounds, |s.inbounds|))
  {
    var docs := Bodies(s.inbounds, |s.inbounds|);
    forall i | 0 <= i < |docs| ensures docs[i] == InboundBody(s.inbounds[i]) {
      BodiesAt(s.inbounds, |docs|, i);
    }
    LoadTableServes(s.inbounds, docs, |docs|);
  }

  lemma TableHolds(s: DesiredState, n: nat)
    requires UniqueIds(s.inbounds) && UniqueTags(s.inbounds) && n < |s.inbounds|
    ensures s.inbounds[n].tag in TableOf(s) && TableOf(s)[s.inbounds[n].tag] == HandlerFor(s.inbounds[n])
  {
    TableServes(s);
    InboundsByIdKeys(s.inbounds, |s.inbounds|);
    assert InboundsById(s.inbounds, |s.inbounds|)[s.inbounds[n].id] == s.inbounds[n];
  }

  lemma ServesAdded(t: Table, live: LiveInbounds, next: ManagedInbound)
    requires Serves(t, live)
    requires forall id :: id in live && id != next.id ==> live[id].tag != next.tag
    requires next.id !in live
    ensures Serves(t[next.tag := HandlerFor(next)], live[next.id := next])
  {
    var t', live' := t[next.tag := HandlerFor(next)], live[next.id := next];
    forall tag | tag in t' ensures exists id :: id in live' && live'[id].tag == tag {
      if tag == next.tag {
        assert live'[next.id].tag == tag;
      } else {
        var id :| id in live && live[id].tag == tag;
        assert live'[id].tag == tag;
      }
    }
  }

  lemma ServesRemoved(t: Table, live: LiveInbounds, id: string)
    requires Serves(t, live) && id in live
    ensures Serves(t - {live[id].tag}, live - {id})
  {
    var t', live' := t - {live[id].tag}, live - {id};
    forall tag | tag in t' ensures exists a :: a in live' && live'[a].tag == tag {
      var a :| a in live && live[a].tag == tag;
      assert a in live' && live'[a].tag == tag;
    }
  }

  lemma ServesPatched(t: Table, live: LiveInbounds, next: ManagedInbound)
    requires Serves(t, live) && next.id in live && live[next.id].tag == next.tag
    ensures Serves(t[next.tag := HandlerFor(next)], live[next.id := next])
  {
    var t', live' := t[next.tag := HandlerFor(next)], live[next.id := next];
    forall tag | tag in t' ensures exists id :: id in live' && live'[id].tag == tag {
      if tag != next.tag {
        var id :| id in live && live[id].tag == tag;
        assert live'[id].tag == tag;
      } else {
        assert live'[next.id].tag == tag;
      }
    }
    forall a, b | a in live' && b in live' && live'[a].tag == live'[b].tag ensures a == b {
      assert live'[a].tag == live[a].tag && live'[b].tag == live[b].tag;
    }
  }

  /* ---------- The removal loop ---------- */

  function Survivors(previous: seq<ManagedInbound>, nextById: LiveInbounds, n: nat): LiveInbounds
    requires n <= |previous|
  {
    if n == 0 then InboundsById(previous, |previous|) else
    var before := Survivors(previous, nextById, n - 1);
    if previous[n - 1].id in nextById then before else before - {previous[n - 1].id}
  }

  lemma {:induction false} SurvivorsMeaning(previous: seq<ManagedInbound>, nextById: LiveInbounds, n: nat)
    requires n <= |previous| && UniqueIds(previous)
    ensures forall i :: 0 <= i < |previous| ==>
                          (previous[i].id in Survivors(previous, nextById, n) <==> i >= n || previous[i].id in nextById)
    ensures forall id :: id in Survivors(previous, nextById, n) ==>
                           id in InboundsById(previous, |previous|) &&
                           Survivors(previous, nextById, n)[id] == InboundsById(previous, |previous|)[id]
  {
    if n == 0 {
      InboundsByIdKeys(previous, |previous|);
    } else {
      SurvivorsMeaning(previous, nextById, n - 1);
    }
  }

  /** The removal loop round by round. */
  function RemovalRounds(t: Table, previous: seq<ManagedInbound>, nextById: LiveInbounds, n: nat): Option<Table>
    requires n <= |previous|
  {
    if n == 0 then Some(t) else
    match RemovalRounds(t, previous, nextById, n - 1)
    case None => None
    case Some(t') => if previous[n - 1].id in nextById then Some(t') else Step(t', Rmi(previous[n - 1].tag))
  }

  /** The operations joined so far run like the rounds so far. */
  ghost predicate RunsAs(t: Table, ops: seq<RuntimeOp>, r: Option<Table>)
  {
    Run(t, Commands(ops)) == r
  }

  lemma RemovalRunsOn(t: Table, before: seq<RuntimeOp>, r: Option<Table>, tag: string)
    requires RunsAs(t, before, r)
    ensures RunsAs(t, before + [RemoveInbound(tag)], match r case None => None case Some(t') => Step(t', Rmi(tag)))
  {
    RunSnoc(t, before, [RemoveInbound(tag)]);
    CommandsSingle(RemoveInbound(tag));
    if r.Some? {
      RunSingle(r.value, Rmi(tag));
    }
  }

  lemma {:induction false} RemovalRoundsAreRun(t: Table, previous: seq<ManagedInbound>, nextById: LiveInbounds, n: nat)
    requires n <= |previous|
    ensures RunsAs(t, RemovalOps(previous, nextById, n), RemovalRounds(t, previous, nextById, n))
  {
    if n > 0 {
      RemovalRoundsAreRun(t, previous, nextById, n - 1);
      RemovalRoundRuns(t, previous, nextById, n - 1);
    }
  }

  lemma RemovalRoundRuns(t: Table, previous: seq<ManagedInbound>, nextById: LiveInbounds, n: nat)
    requires n < |previous| && RunsAs(t, RemovalOps(previous, nextById, n), RemovalRounds(t, previous, nextById, n))
    ensures RunsAs(t, RemovalOps(previous, nextById, n + 1), RemovalRounds(t, previous, nextById, n + 1))
  {
    var before := RemovalOps(previous, nextById, n);
    if previous[n].id in nextById {
      assert before + [] == before;
    } else {
      RemovalRunsOn(t, before, RemovalRounds(t, previous, nextById, n), previous[n].tag);
    }
  }

  lemma {:induction false} RemovalPhase(t: Table, previous: seq<ManagedInbound>, nextById: LiveInbounds, n: nat)
    requires n <= |previous| && UniqueIds(previous) && Serves(t, InboundsById(previous, |previous|))
    ensures Reaches(RemovalRounds(t, previous, nextById, n), Survivors(previous, nextById, n))
  {
    if n == 0 {
    } else {
      RemovalPhase(t, previous, nextById, n - 1);
      RemovalStep(RemovalRounds(t, previous, nextById, n - 1), previous, nextById, n - 1);
    }
  }

  ghost predicate Reaches(r: Option<Table>, live: LiveInbounds)
  {
    r.Some? && Serves(r.value, live)
  }

  lemma RemovalStep(r: Option<Table>, previous: seq<ManagedInbound>, nextById: LiveInbounds, n: nat)
    requires n < |previous| && UniqueIds(previous) && Reaches(r, Survivors(previous, nextById, n))
    ensures Reaches(if previous[n].id in nextById then r else Step(r.value, Rmi(previous[n].tag)), Survivors(previous, nextById, n + 1))
  {
    if previous[n].id !in nextById {
      StillLive(previous, nextById, n);
      ServesRemoved(r.value, Survivors(previous, nextById, n), previous[n].id);
    }
  }

  lemma StillLive(previous: seq<ManagedInbound>, nextById: LiveInbounds, n: nat)
    requires n < |previous| && UniqueIds(previous)
    ensures previous[n].id in Survivors(previous, nextById, n) && Survivors(previous, nextById, n)[previous[n].id] == previous[n]
  {
    SurvivorsMeaning(previous, nextById, n);
    InboundsByIdKeys(previous, |previous|);
  }

  /* ---------- The update loop ---------- */

  /** No other live inbound holds the tag `next` wants. */
  ghost predicate TagFree(live: LiveInbounds, next: ManagedInbound)
  {
    forall id :: id in live && id != next.id ==> live[id].tag != next.tag
  }

  /** One round of the loop: it runs to the end exactly when the wanted tag is free, and then serves the new inbound. */
  lemma InboundRound(t: Table, live: LiveInbounds, prevById: LiveInbounds, next: ManagedInbound)
    requires Serves(t, live) && Buildable(next) && DistinctEmails(next) && Ready(prevById, next)
    requires next.id in live <==> next.id in prevById
    requires next.id in live ==> live[next.id] == prevById[next.id] && live[next.id].id == next.id && DistinctEmails(live[next.id])
    ensures var r := Run(t, Commands(InboundOps(prevById, next)));
            && (r.Some? <==> TagFree(live, next))
            && (r.Some? ==> Serves(r.value, live[next.id := next]))
  {
    if next.id !in prevById {
      CommandsSingle(AddInbound(next));
      AddRound(t, live, next);
    } else {
      var prior := prevById[next.id];
      if InboundBaseEqual(prior, next) {
        BaseEqualTags(prior, next);
        assert TagFree(live, next);
      }
      if !InboundBaseEqual(prior, next) || (!UsersRuntimeEqual(prior.users, next.users) && !SupportsHotUsers(next.protocol)) {
        ReplaceRound(t, live, next);
      } else if UsersRuntimeEqual(prior.users, next.users) {
        UntouchedHandler(prior, next);
        ServesPatched(t, live, next);
        assert t[next.tag := HandlerFor(next)] == t;
      } else {
        UserPatch(t, prior, next);
        ServesPatched(t, live, next);
      }
    }
  }

  lemma BaseEqualTags(a: ManagedInbound, b: ManagedInbound)
    requires InboundBaseEqual(a, b)
    ensures a.tag == b.tag && a.id == b.id && a.protocol == b.protocol
  {
    var x, y := a.(users := [], metadata := Nil), b.(users := [], metadata := Nil);
    assert x.tag == y.tag && x.id == y.id && x.protocol == y.protocol;
  }

  lemma ReplaceRound(t: Table, live: LiveInbounds, next: ManagedInbound)
    requires Serves(t, live) && Buildable(next) && next.id in live
    ensures var r := Run(t, Commands([ReplaceInbound(live[next.id].tag, next)]));
            && (r.Some? <==> TagFree(live, next))
            && (r.Some? ==> Serves(r.value, live[next.id := next]))
  {
    var tag := live[next.id].tag;
    ReplaceIsTwoCommands(t, tag, next);
    ServesRemoved(t, live, next.id);
    AddRound(t - {tag}, live - {next.id}, next);
    TagFreeWithout(live, next);
    Overwritten(live, next);
  }

  lemma Overwritten(live: LiveInbounds, next: ManagedInbound)
    ensures (live - {next.id})[next.id := next] == live[next.id := next]
  {
  }

  lemma ReplaceIsTwoCommands(t: Table, tag: string, next: ManagedInbound)
    requires tag in t
    ensures Run(t, Commands([ReplaceInbound(tag, next)])) == Run(t - {tag}, [Adi(InboundDocument(next))])
  {
    CommandsSingle(ReplaceInbound(tag, next));
    assert [Rmi(tag), Adi(InboundDocument(next))] == [Rmi(tag)] + [Adi(InboundDocument(next))];
    RunConcat(t, [Rmi(tag)], [Adi(InboundDocument(next))]);
    RunSingle(t, Rmi(tag));
  }

  lemma TagFreeWithout(live: LiveInbounds, next: ManagedInbound)
    ensures TagFree(live - {next.id}, next) <==> TagFree(live, next)
  {
    if TagFree(live - {next.id}, next) {
      forall id | id in live && id != next.id ensures live[id].tag != next.tag {
        assert id in live - {next.id};
      }
    }
  }

  lemma AddRound(t: Table, live: LiveInbounds, next: ManagedInbound)
    requires Serves(t, live) && Buildable(next) && next.id !in live
    ensures var r := Run(t, [Adi(InboundDocument(next))]);
            && (r.Some? <==> TagFree(live, next))
            && (r.Some? ==> Serves(r.value, live[next.id := next]))
  {
    RunSingle(t, Adi(InboundDocument(next)));
    if next.tag in t {
      var id :| id in live && live[id].tag == next.tag;
      assert !TagFree(live, next);
    } else {
      ServesAdded(t, live, next);
    }
  }

  /** The inbounds served after `n` rounds. */
  function AfterRounds(live: LiveInbounds, desired: seq<ManagedInbound>, n: nat): LiveInbounds
    requires n <= |desired|
  {
    if n == 0 then live else AfterRounds(live, desired, n - 1)[desired[n - 1].id := desired[n - 1]]
  }

  lemma {:induction false} AfterRoundsMeaning(live: LiveInbounds, desired: seq<ManagedInbound>, n: nat)
    requires n <= |desired| && UniqueIds(desired)
    ensures forall i :: 0 <= i < n ==> desired[i].id in AfterRounds(live, desired, n) && AfterRounds(live, desired, n)[desired[i].id] == desired[i]
    ensures forall i :: n <= i < |desired| ==> (desired[i].id in AfterRounds(live, desired, n) <==> desired[i].id in live)
    ensures forall id :: id in AfterRounds(live, desired, n) ==>
              (exists i :: 0 <= i < n && desired[i].id == id) || (id in live && AfterRounds(live, desired, n)[id] == live[id])
  {
    if n > 0 {
      AfterRoundsMeaning(live, desired, n - 1);
    }
  }

  ghost predicate Wanted(desired: seq<ManagedInbound>, id: string)
  {
    exists i :: 0 <= i < |desired| && desired[i].id == id
  }

  /** The inbounds still running in their previous form are the previous ones whose ID is wanted. */
  ghost predicate Pending(live: LiveInbounds, prevById: LiveInbounds, desired: seq<ManagedInbound>)
  {
    && (forall id :: id in live <==> id in prevById && Wanted(desired, id))
    && (forall id :: id in live ==> live[id] == prevById[id] && live[id].id == id && DistinctEmails(live[id]))
  }

  /** Desired inbound `j` does not take the tag that a later survivor still holds. */
  ghost predicate ClearOfLater(prevById: LiveInbounds, desired: seq<ManagedInbound>, j: nat)
    requires j < |desired|
  {
    forall m :: j < m < |desired| && desired[m].id in prevById ==> desired[j].tag != prevById[desired[m].id].tag
  }

  ghost predicate TagOrder(prevById: LiveInbounds, desired: seq<ManagedInbound>, n: nat)
    requires n <= |desired|
  {
    forall j :: 0 <= j < n ==> ClearOfLater(prevById, desired, j)
  }

  /** What is live before round `n` and not yet replaced are the survivors still to come. */
  lemma TagFreeMeaning(live: LiveInbounds, prevById: LiveInbounds, desired: seq<ManagedInbound>, n: nat)
    requires n < |desired| && UniqueIds(desired) && UniqueTags(desired)
    requires Pending(live, prevById, desired)
    ensures TagFree(AfterRounds(live, desired, n), desired[n]) <==> ClearOfLater(prevById, desired, n)
  {
    var now := AfterRounds(live, desired, n);
    if TagFree(now, desired[n]) {
      forall m | n < m < |desired| && desired[m].id in prevById ensures desired[n].tag != prevById[desired[m].id].tag {
        LaterIsLive(live, prevById, desired, n, m);
      }
    }
    if ClearOfLater(prevById, desired, n) {
      forall id | id in now && id != desired[n].id ensures now[id].tag != desired[n].tag {
        LiveIsEarlierOrLater(live, prevById, desired, n, id);
      }
    }
  }

  lemma LaterIsLive(live: LiveInbounds, prevById: LiveInbounds, desired: seq<ManagedInbound>, n: nat, m: nat)
    requires n < m < |desired| && UniqueIds(desired) && desired[m].id in prevById
    requires Pending(live, prevById, desired)
    ensures desired[m].id in AfterRounds(live, desired, n) && desired[m].id != desired[n].id
    ensures AfterRounds(live, desired, n)[desired[m].id] == prevById[desired[m].id]
  {
    AfterRoundsMeaning(live, desired, n);
    assert desired[m].id in live;
  }

  lemma RoundDone(live: LiveInbounds, desired: seq<ManagedInbound>, n: nat, i: nat)
    requires i < n <= |desired| && UniqueIds(desired)
    ensures desired[i].id in AfterRounds(live, desired, n) && AfterRounds(live, desired, n)[desired[i].id] == desired[i]
  {
    AfterRoundsMeaning(live, desired, n);
  }

  lemma RoundPending(live: LiveInbounds, desired: seq<ManagedInbound>, n: nat, id: string)
    requires n <= |desired| && UniqueIds(desired) && id in AfterRounds(live, desired, n)
    requires forall i :: 0 <= i < n ==> desired[i].id != id
    ensures id in live && AfterRounds(live, desired, n)[id] == live[id]
  {
    AfterRoundsMeaning(live, desired, n);
  }

  lemma LiveIsEarlierOrLater(live: LiveInbounds, prevById: LiveInbounds, desired: seq<ManagedInbound>, n: nat, id: string)
    requires n < |desired| && UniqueIds(desired) && UniqueTags(desired)
    requires Pending(live, prevById, desired)
    requires id in AfterRounds(live, desired, n) && id != desired[n].id && ClearOfLater(prevById, desired, n)
    ensures AfterRounds(live, desired, n)[id].tag != desired[n].tag
  {
    if exists i :: 0 <= i < n && desired[i].id == id {
      var i :| 0 <= i < n && desired[i].id == id;
      RoundDone(live, desired, n, i);
    } else {
      RoundPending(live, desired, n, id);
      assert Wanted(desired, id);
      var m :| 0 <= m < |desired| && desired[m].id == id;
    }
  }

  ghost predicate PlannerInputs(previous: DesiredState, desired: DesiredState)
  {
    GoodState(previous) && GoodState(desired) && AllBuildable(desired)
  }

  /** The state of the update loop after `n` rounds: stopped by a taken tag, or serving the right inbounds. */
  ghost predicate Progress(r: Option<Table>, prevById: LiveInbounds, desired: seq<ManagedInbound>, live: LiveInbounds, n: nat)
    requires n <= |desired|
  {
    && (r.Some? <==> TagOrder(prevById, desired, n))
    && (r.Some? ==> Serves(r.value, AfterRounds(live, desired, n)))
  }

  /** The operations of each round. */
  function RoundOps(prevById: LiveInbounds, desired: seq<ManagedInbound>): seq<seq<RuntimeOp>>
  {
    seq(|desired|, m requires 0 <= m < |desired| => InboundOps(prevById, desired[m]))
  }

  /** The update loop round by round. */
  function Rounds(t: Table, prevById: LiveInbounds, desired: seq<ManagedInbound>, n: nat): Option<Table>
    requires n <= |desired|
  {
    RunParts(t, RoundOps(prevById, desired), n)
  }

  lemma NextRound(t: Table, prevById: LiveInbounds, desired: seq<ManagedInbound>, n: nat)
    requires n < |desired|
    ensures Rounds(t, prevById, desired, n + 1) == Then(Rounds(t, prevById, desired, n), Commands(InboundOps(prevById, desired[n])))
  {
  }

  lemma RoundsAreRun(t: Table, prevById: LiveInbounds, desired: seq<ManagedInbound>)
    ensures Run(t, Commands(UpdateOps(prevById, desired, |desired|))) == Rounds(t, prevById, desired, |desired|)
  {
    var parts := RoundOps(prevById, desired);
    UpdateOpsAreFlat(prevById, desired, parts, |desired|);
    RunFlat(t, parts, |desired|);
  }

  lemma {:induction false} UpdatePhase(prevById: LiveInbounds, desired: DesiredState, t: Table, live: LiveInbounds, n: nat)
    requires n <= |desired.inbounds| && KeyedState(desired) && AllBuildable(desired)
    requires Pending(live, prevById, desired.inbounds) && Serves(t, live)
    requires forall i :: 0 <= i < n ==> Ready(prevById, desired.inbounds[i])
    ensures Progress(Rounds(t, prevById, desired.inbounds, n), prevById, desired.inbounds, live, n)
  {
    if n == 0 {
      ProgressStart(t, prevById, desired.inbounds, live);
    } else {
      UpdatePhase(prevById, desired, t, live, n - 1);
      ProgressStep(Rounds(t, prevById, desired.inbounds, n - 1), prevById, desired, live, n - 1);
      NextRound(t, prevById, desired.inbounds, n - 1);
    }
  }

  lemma ProgressStart(t: Table, prevById: LiveInbounds, desired: seq<ManagedInbound>, live: LiveInbounds)
    requires Serves(t, live)
    ensures Progress(Some(t), prevById, desired, live, 0)
  {
  }

  lemma ProgressStep(r: Option<Table>, prevById: LiveInbounds, desired: DesiredState, live: LiveInbounds, n: nat)
    requires n < |desired.inbounds| && KeyedState(desired) && AllBuildable(desired) && Ready(prevById, desired.inbounds[n])
    requires Pending(live, prevById, desired.inbounds) && Progress(r, prevById, desired.inbounds, live, n)
    ensures Progress(Then(r, Commands(InboundOps(prevById, desired.inbounds[n]))), prevById, desired.inbounds, live, n + 1)
  {
    assert TagOrder(prevById, desired.inbounds, n + 1) <==>
           TagOrder(prevById, desired.inbounds, n) && ClearOfLater(prevById, desired.inbounds, n);
    if r.Some? {
      PendingUntouched(live, desired.inbounds, n);
      TagFreeMeaning(live, prevById, desired.inbounds, n);
      InboundRound(r.value, AfterRounds(live, desired.inbounds, n), prevById, desired.inbounds[n]);
    }
  }

  lemma PendingUntouched(live: LiveInbounds, desired: seq<ManagedInbound>, n: nat)
    requires n < |desired| && UniqueIds(desired)
    ensures desired[n].id in AfterRounds(live, desired, n) <==> desired[n].id in live
    ensures desired[n].id in live ==> AfterRounds(live, desired, n)[desired[n].id] == live[desired[n].id]
  {
    AfterRoundsMeaning(live, desired, n);
  }

  /** After the removal loop the live inbounds are the previous ones whose ID is still wanted. */
  lemma SurvivorFacts(previous: DesiredState, desired: DesiredState)
    requires KeyedState(previous) && UniqueIds(desired.inbounds)
    ensures var prevById := InboundsById(previous.inbounds, |previous.inbounds|);
            var nextById := InboundsById(desired.inbounds, |desired.inbounds|);
            var live := Survivors(previous.inbounds, nextById, |previous.inbounds|);
            Pending(live, prevById, desired.inbounds)
  {
    var prevById := InboundsById(previous.inbounds, |previous.inbounds|);
    var nextById := InboundsById(desired.inbounds, |desired.inbounds|);
    var live := Survivors(previous.inbounds, nextById, |previous.inbounds|);
    SurvivorsMeaning(previous.inbounds, nextById, |previous.inbounds|);
    InboundsByIdKeys(previous.inbounds, |previous.inbounds|);
    InboundsByIdKeys(desired.inbounds, |desired.inbounds|);
    forall id | id in prevById && Wanted(desired.inbounds, id) ensures id in live {
      var k :| 0 <= k < |previous.inbounds| && previous.inbounds[k] == prevById[id] && previous.inbounds[k].id == id;
    }
    forall id | id in live ensures id in prevById && Wanted(desired.inbounds, id) && live[id].id == id && DistinctEmails(live[id]) {
      var k :| 0 <= k < |previous.inbounds| && previous.inbounds[k] == prevById[id] && previous.inbounds[k].id == id;
      assert id in nextById;
    }
  }

  /** Everything a plan leaves running is wanted: after all rounds the live inbounds are the desired ones. */
  lemma AllRounds(previous: DesiredState, desired: DesiredState)
    requires KeyedState(previous) && UniqueIds(desired.inbounds)
    ensures var nextById := InboundsById(desired.inbounds, |desired.inbounds|);
            AfterRounds(Survivors(previous.inbounds, nextById, |previous.inbounds|), desired.inbounds, |desired.inbounds|) == nextById
  {
    var nextById := InboundsById(desired.inbounds, |desired.inbounds|);
    var live := Survivors(previous.inbounds, nextById, |previous.inbounds|);
    var done := AfterRounds(live, desired.inbounds, |desired.inbounds|);
    SurvivorFacts(previous, desired);
    AfterRoundsMeaning(live, desired.inbounds, |desired.inbounds|);
    InboundsByIdKeys(desired.inbounds, |desired.inbounds|);
    forall id | id in done ensures id in nextById && done[id] == nextById[id] {
      assert id in live ==> Wanted(desired.inbounds, id);
      var i :| 0 <= i < |desired.inbounds| && desired.inbounds[i].id == id;
    }
    assert done.Keys == nextById.Keys;
  }

  /** The states satisfy the planner's needs: keys that tell inbounds and users apart, and buildable inbounds. */
  ghost predicate KeyedInputs(previous: DesiredState, desired: DesiredState)
  {
    KeyedState(previous) && KeyedState(desired) && AllBuildable(desired)
  }

  /** Every inbound that survives is ready. */
  ghost predicate AllReady(previous: DesiredState, desired: DesiredState)
  {
    forall i :: 0 <= i < |desired.inbounds| ==> Ready(InboundsById(previous.inbounds, |previous.inbounds|), desired.inbounds[i])
  }

  ghost predicate TagsComeFree(previous: DesiredState, desired: DesiredState)
  {
    TagOrder(InboundsById(previous.inbounds, |previous.inbounds|), desired.inbounds, |desired.inbounds|)
  }

  /** A plan is its removals and then its update rounds. */
  lemma PlanInRounds(previous: DesiredState, desired: DesiredState) returns (t0: Table, live: LiveInbounds)
    requires KeyedInputs(previous, desired)
    ensures var prevById := InboundsById(previous.inbounds, |previous.inbounds|);
            && Run(TableOf(previous), Commands(Operations(previous, desired))) == Rounds(t0, prevById, desired.inbounds, |desired.inbounds|)
            && Pending(live, prevById, desired.inbounds) && Serves(t0, live)
    ensures AfterRounds(live, desired.inbounds, |desired.inbounds|) == InboundsById(desired.inbounds, |desired.inbounds|)
  {
    var nextById := InboundsById(desired.inbounds, |desired.inbounds|);
    var prevById := InboundsById(previous.inbounds, |previous.inbounds|);
    var removals := RemovalOps(previous.inbounds, nextById, |previous.inbounds|);
    live := Survivors(previous.inbounds, nextById, |previous.inbounds|);
    TableServes(previous);
    RemovalPhase(TableOf(previous), previous.inbounds, nextById, |previous.inbounds|);
    RemovalRoundsAreRun(TableOf(previous), previous.inbounds, nextById, |previous.inbounds|);
    t0 := Run(TableOf(previous), Commands(removals)).value;
    SurvivorFacts(previous, desired);
    RoundsAreRun(t0, prevById, desired.inbounds);
    RunSnoc(TableOf(previous), removals, UpdateOps(prevById, desired.inbounds, |desired.inbounds|));
    AllRounds(previous, desired);
  }

  /** With ready inbounds a plan runs to the end exactly when the tags come free in order, and then it is a rebuild. */
  lemma ReadyReloadRefinesRebuild(previous: DesiredState, desired: DesiredState)
    requires KeyedInputs(previous, desired) && AllReady(previous, desired)
    ensures var r := Run(TableOf(previous), Commands(Operations(previous, desired)));
            && (r.Some? ==> r.value == TableOf(desired))
            && (r.Some? <==> TagsComeFree(previous, desired))
  {
    var prevById := InboundsById(previous.inbounds, |previous.inbounds|);
    var t0, live := PlanInRounds(previous, desired);
    UpdatePhase(prevById, desired, t0, live, |desired.inbounds|);
    TableServes(desired);
    if Rounds(t0, prevById, desired.inbounds, |desired.inbounds|).Some? {
      ServesIsFunctional(Rounds(t0, prevById, desired.inbounds, |desired.inbounds|).value, TableOf(desired),
                         InboundsById(desired.inbounds, |desired.inbounds|));
    }
  }

  lemma GoodIsReady(previous: DesiredState, desired: DesiredState)
    requires GoodState(previous) && GoodState(desired)
    ensures AllReady(previous, desired)
  {
    var prevById := InboundsById(previous.inbounds, |previous.inbounds|);
    InboundsByIdKeys(previous.inbounds, |previous.inbounds|);
    forall i | 0 <= i < |desired.inbounds| ensures Ready(prevById, desired.inbounds[i]) {
      if desired.inbounds[i].id in prevById {
        var k :| 0 <= k < |previous.inbounds| && previous.inbounds[k] == prevById[desired.inbounds[i].id];
        VisibleIsFaithful(previous.inbounds[k], desired.inbounds[i]);
      }
    }
  }

  /** Hot reload refines rebuild, and a plan runs to the end exactly when the tags come free in order. */
  lemma HotReloadRefinesRebuild(previous: DesiredState, desired: DesiredState)
    requires PlannerInputs(previous, desired)
    ensures var r := Run(TableOf(previous), Commands(Operations(previous, desired)));
            && (r.Some? ==> r.value == TableOf(desired))
            && (r.Some? <==> TagOrder(InboundsById(previous.inbounds, |previous.inbounds|), desired.inbounds, |desired.inbounds|))
  {
    GoodIsReady(previous, desired);
    ReadyReloadRefinesRebuild(previous, desired);
  }

  /** Tags that only stay or move to names nobody held are enough: in particular when no tag changes. */
  lemma StableTagsSuffice(previous: DesiredState, desired: DesiredState)
    requires PlannerInputs(previous, desired)
    requires forall i, j :: 0 <= i < |previous.inbounds| && 0 <= j < |desired.inbounds| ==>
               (previous.inbounds[i].tag == desired.inbounds[j].tag ==> previous.inbounds[i].id == desired.inbounds[j].id)
    ensures Run(TableOf(previous), Commands(Operations(previous, desired))) == Some(TableOf(desired))
  {
    var prevById := InboundsById(previous.inbounds, |previous.inbounds|);
    InboundsByIdKeys(previous.inbounds, |previous.inbounds|);
    forall j, m | 0 <= j < m < |desired.inbounds| && desired.inbounds[m].id in prevById
      ensures desired.inbounds[j].tag != prevById[desired.inbounds[m].id].tag
    {
      var k :| 0 <= k < |previous.inbounds| && previous.inbounds[k] == prevById[desired.inbounds[m].id]
               && previous.inbounds[k].id == desired.inbounds[m].id;
    }
    HotReloadRefinesRebuild(previous, desired);
  }
}
