/** The session tracker (internal/session/tracker.go): events are added one by one, and every report prunes what lies before
    its cutoff.  Times are nanoseconds since the Unix epoch; 0 stands for Go's zero time, which is before every event. */
module Tracker {
  import opened Model
  import opened Text
  import opened Order

  datatype Event = Event(userId: string, inboundId: string, ip: string, at: nat)

  datatype Key = Key(userId: string, inboundId: string)

  datatype Entry = Entry(ips: map<string, nat>, seen: seq<nat>, last: nat)

  type Items = map<Key, Entry>

  const SECOND: nat := 1_000_000_000

  function KeyOf(e: Event): Key
  {
    Key(e.userId, e.inboundId)
  }

  function EntryAt(items: Items, k: Key): Entry
  {
    if k in items then items[k] else Entry(map[], [], 0)
  }

  function Added(items: Items, e: Event): Items
  {
    var x := EntryAt(items, KeyOf(e));
    items[KeyOf(e) := Entry(x.ips[e.ip := e.at], x.seen + [e.at], if e.at > x.last then e.at else x.last)]
  }

  function Kept(seen: seq<nat>, cutoff: int, n: nat): seq<nat>
    requires n <= |seen|
  {
    if n == 0 then [] else Kept(seen, cutoff, n - 1) + (if seen[n - 1] < cutoff then [] else [seen[n - 1]])
  }

  function Pruned(e: Entry, cutoff: int): Entry
  {
    Entry(map ip | ip in e.ips && e.ips[ip] >= cutoff :: e.ips[ip], Kept(e.seen, cutoff, |e.seen|), e.last)
  }

  predicate Dead(e: Entry)
  {
    |e.ips| == 0 && |e.seen| == 0
  }

  function PrunedItems(items: Items, cutoff: int): Items
  {
    map k | k in items && !Dead(Pruned(items[k], cutoff)) :: Pruned(items[k], cutoff)
  }

  predicate RowLess(a: SessionRecord, b: SessionRecord)
  {
    PairLess((a.inboundId, a.userId), (b.inboundId, b.userId))
  }

  /** The members of a set once each, sorted. */
  ghost predicate IsSortedSet(list: seq<string>, members: set<string>)
  {
    Sorted(StrLess, list) && NoRepeat(list) && forall x :: x in list <==> x in members
  }

  ghost predicate IsRow(r: SessionRecord, k: Key, e: Entry)
  {
    && r.userId == k.userId && r.inboundId == k.inboundId && r.source == ""
    && IsSortedSet(r.ips, e.ips.Keys) && r.lastSeen == e.last / SECOND && r.recentConnections == |e.seen|
  }

  function RowKey(r: SessionRecord): Key
  {
    Key(r.userId, r.inboundId)
  }

  /** One row for each entry, sorted by inbound and then user. */
  ghost predicate IsReport(rows: seq<SessionRecord>, items: Items)
  {
    && Sorted(RowLess, rows)
    && (forall i, j :: 0 <= i < j < |rows| ==> RowKey(rows[i]) != RowKey(rows[j]))
    && (forall r :: r in rows ==> RowKey(r) in items && IsRow(r, RowKey(r), items[RowKey(r)]))
    && (forall k :: k in items ==> exists r :: r in rows && RowKey(r) == k)
  }

  method PruneSeen(seen: seq<nat>, cutoff: int) returns (kept: seq<nat>)
    ensures kept == Kept(seen, cutoff, |seen|)
  {
    kept := [];
    for i := 0 to |seen|
      invariant kept == Kept(seen, cutoff, i)
    {
      if !(seen[i] < cutoff) {
        kept := kept + [seen[i]];
      }
    }
  }

  method PruneIps(ips: map<string, nat>, cutoff: int) returns (kept: map<string, nat>)
    ensures kept == map ip | ip in ips && ips[ip] >= cutoff :: ips[ip]
  {
    kept := ips;
    var todo := ips.Keys;
    while todo != {}
      invariant todo <= ips.Keys
      invariant kept == map ip | ip in ips && (ip in todo || ips[ip] >= cutoff) :: ips[ip]
      decreases |todo|
    {
      var ip :| ip in todo;
      if ips[ip] < cutoff {
        kept := kept - {ip};
      }
      todo := todo - {ip};
    }
  }

  method SortedSet(members: set<string>) returns (list: seq<string>)
    ensures IsSortedSet(list, members)
  {
    var out: seq<string> := [];
    var todo := members;
    while todo != {}
      invariant todo <= members && NoRepeat(out) && forall x :: x in out <==> x in members && x !in todo
      decreases |todo|
    {
      var x :| x in todo;
      out := out + [x];
      todo := todo - {x};
    }
    list := Sort(StrLess, out);
    StrLessOrder();
    SortSorts(StrLess, out);
    SameElements(list, out);
    PermutationNoRepeat(out, list);
  }

  /** Rows collected so far: those of the entries that survived among the visited keys. */
  ghost predicate Collected(rows: seq<SessionRecord>, items: Items)
  {
    && (forall i, j :: 0 <= i < j < |rows| ==> RowKey(rows[i]) != RowKey(rows[j]))
    && (forall r :: r in rows ==> RowKey(r) in items && IsRow(r, RowKey(r), items[RowKey(r)]))
    && (forall k :: k in items ==> exists r :: r in rows && RowKey(r) == k)
  }

  lemma CollectedMore(rows: seq<SessionRecord>, items: Items, r: SessionRecord, e: Entry)
    requires Collected(rows, items) && RowKey(r) !in items && IsRow(r, RowKey(r), e)
    ensures Collected(rows + [r], items[RowKey(r) := e])
  {
    var more, items' := rows + [r], items[RowKey(r) := e];
    forall k | k in items' ensures exists x :: x in more && RowKey(x) == k {
      if k == RowKey(r) {
        assert r in more;
      } else {
        var x :| x in rows && RowKey(x) == k;
        assert x in more;
      }
    }
  }

  lemma SortedReport(rows: seq<SessionRecord>, items: Items)
    requires Collected(rows, items)
    ensures IsReport(Sort(RowLess, rows), items)
  {
    var out := Sort(RowLess, rows);
    RowLessOrder();
    SortSorts(RowLess, rows);
    SameElements(out, rows);
    assert NoRepeat(rows);
    PermutationNoRepeat(rows, out);
    forall i, j | 0 <= i < j < |out| ensures RowKey(out[i]) != RowKey(out[j]) {
      assert out[i] in rows && out[j] in rows && out[i] != out[j];
    }
  }

  lemma RowLessOrder()
    ensures StrictOrder(RowLess)
  {
    PairLessOrder();
  }

  /** `offset` and `last` say how far the access log has been read, and in which file. */
  class SessionTracker {
    var items: Items
    var offset: nat
    var last: Option<nat>

    constructor ()
      ensures items == map[] && offset == 0 && last == None
    {
      items, offset, last := map[], 0, None;
    }

    method Add(e: Event)
      modifies this`items
      ensures items == Added(old(items), e)
    {
      var k := KeyOf(e);
      var x := if k in items then items[k] else Entry(map[], [], 0);
      x := x.(ips := x.ips[e.ip := e.at], seen := x.seen + [e.at]);
      if e.at > x.last {
        x := x.(last := e.at);
      }
      items := items[k := x];
    }

    method Records(cutoff: int) returns (rows: seq<SessionRecord>)
      modifies this`items
      ensures items == PrunedItems(old(items), cutoff)
      ensures IsReport(rows, items)
    {
      ghost var start := items;
      var out: seq<SessionRecord> := [];
      var todo := items.Keys;
      NothingVisited(start, cutoff);
      while todo != {}
        invariant todo <= start.Keys
        invariant items == Halfway(start, todo, cutoff)
        invariant Collected(out, Visited(start, todo, cutoff))
        decreases |todo|
      {
        var k :| k in todo;
        HalfwayStep(start, todo, k, cutoff);
        VisitedStep(start, todo, k, cutoff);
        var e := PruneEntry(items[k], cutoff);
        if Dead(e) {
          items := items - {k};
        } else {
          items := items[k := e];
          var row := RowFor(k, e);
          CollectedMore(out, Visited(start, todo, cutoff), row, e);
          out := out + [row];
        }
        todo := todo - {k};
      }
      AllVisited(start, cutoff);
      rows := Sort(RowLess, out);
      SortedReport(out, items);
    }
  }

  method PruneEntry(e: Entry, cutoff: int) returns (x: Entry)
    ensures x == Pruned(e, cutoff)
  {
    var ips := PruneIps(e.ips, cutoff);
    var seen := PruneSeen(e.seen, cutoff);
    x := Entry(ips, seen, e.last);
  }

  method RowFor(k: Key, e: Entry) returns (r: SessionRecord)
    ensures IsRow(r, k, e) && RowKey(r) == k
  {
    var list := SortedSet(e.ips.Keys);
    r := SessionRecord(k.userId, k.inboundId, list, e.last / SECOND, |e.seen|, "");
  }

  /** The map while the keys in `todo` have not been visited. */
  function Halfway(start: Items, todo: set<Key>, cutoff: int): Items
  {
    map k | k in start && (k in todo || !Dead(Pruned(start[k], cutoff))) :: if k in todo then start[k] else Pruned(start[k], cutoff)
  }

  function Visited(start: Items, todo: set<Key>, cutoff: int): Items
  {
    map k | k in start && k !in todo && !Dead(Pruned(start[k], cutoff)) :: Pruned(start[k], cutoff)
  }

  lemma NothingVisited(start: Items, cutoff: int)
    ensures Halfway(start, start.Keys, cutoff) == start && Visited(start, start.Keys, cutoff) == map[]
  {
  }

  lemma AllVisited(start: Items, cutoff: int)
    ensures Halfway(start, {}, cutoff) == Visited(start, {}, cutoff) == PrunedItems(start, cutoff)
  {
  }

  lemma HalfwayStep(start: Items, todo: set<Key>, k: Key, cutoff: int)
    requires k in todo && todo <= start.Keys
    ensures k in Halfway(start, todo, cutoff) && Halfway(start, todo, cutoff)[k] == start[k]
    ensures Halfway(start, todo - {k}, cutoff) ==
            if Dead(Pruned(start[k], cutoff)) then Halfway(start, todo, cutoff) - {k}
            else Halfway(start, todo, cutoff)[k := Pruned(start[k], cutoff)]
  {
  }

  lemma VisitedStep(start: Items, todo: set<Key>, k: Key, cutoff: int)
    requires k in todo && todo <= start.Keys
    ensures k !in Visited(start, todo, cutoff)
    ensures Visited(start, todo - {k}, cutoff) ==
            if Dead(Pruned(start[k], cutoff)) then Visited(start, todo, cutoff)
            else Visited(start, todo, cutoff)[k := Pruned(start[k], cutoff)]
  {
  }

  /* ---------- The log that is never pruned ---------- */

  predicate IsOf(e: Event, k: Key)
  {
    e.userId == k.userId && e.inboundId == k.inboundId
  }

  function LastAdded(log: seq<Event>, n: nat, k: Key, ip: string): Option<nat>
    requires n <= |log|
  {
    if n == 0 then None
    else if IsOf(log[n - 1], k) && log[n - 1].ip == ip then Some(log[n - 1].at)
    else LastAdded(log, n - 1, k, ip)
  }

  function CountSince(log: seq<Event>, n: nat, k: Key, cutoff: int): nat
    requires n <= |log|
  {
    if n == 0 then 0 else
    CountSince(log, n - 1, k, cutoff) + (if IsOf(log[n - 1], k) && log[n - 1].at >= cutoff then 1 else 0)
  }

  function Latest(log: seq<Event>, n: nat, k: Key): nat
    requires n <= |log|
  {
    if n == 0 then 0 else
    var before := Latest(log, n - 1, k);
    if IsOf(log[n - 1], k) && log[n - 1].at > before then log[n - 1].at else before
  }

  /** Whether the address was last added, under this key, not before the cutoff. */
  predicate Recent(log: seq<Event>, k: Key, ip: string, cutoff: int)
  {
    var t := LastAdded(log, |log|, k, ip);
    t.Some? && t.value >= cutoff
  }

  /** What a report should say, from the whole log: one row for each key with an event not before the cutoff, carrying the
      addresses last added since, the number of such events, and the latest time of all. */
  ghost predicate MatchesLog(rows: seq<SessionRecord>, log: seq<Event>, cutoff: int)
  {
    && Sorted(RowLess, rows)
    && (forall i, j :: 0 <= i < j < |rows| ==> RowKey(rows[i]) != RowKey(rows[j]))
    && (forall k :: CountSince(log, |log|, k, cutoff) > 0 <==> exists r :: r in rows && RowKey(r) == k)
    && (forall r :: r in rows ==> RowMatchesLog(r, log, cutoff))
  }

  ghost predicate RowMatchesLog(r: SessionRecord, log: seq<Event>, cutoff: int)
  {
    var k := RowKey(r);
    && Sorted(StrLess, r.ips) && NoRepeat(r.ips) && r.source == ""
    && (forall ip :: ip in r.ips <==> Recent(log, k, ip, cutoff))
    && r.recentConnections == CountSince(log, |log|, k, cutoff)
    && r.lastSeen == Latest(log, |log|, k) / 1_000_000_000
  }

  /** The events of a key up to `n` that are not before the cutoff. */
  function EventsSince(log: seq<Event>, n: nat, k: Key, cutoff: int): set<nat>
    requires n <= |log|
  {
    set i: nat | i < n && log[i].userId == k.userId && log[i].inboundId == k.inboundId && log[i].at >= cutoff
  }

  lemma EventsSnoc(log: seq<Event>, n: nat, k: Key, cutoff: int)
    requires n < |log|
    ensures |EventsSince(log, n + 1, k, cutoff)| ==
            |EventsSince(log, n, k, cutoff)| + if IsOf(log[n], k) && log[n].at >= cutoff then 1 else 0
  {
    var before := EventsSince(log, n, k, cutoff);
    assert EventsSince(log, n + 1, k, cutoff) == if IsOf(log[n], k) && log[n].at >= cutoff then before + {n} else before;
    assert n !in before;
  }

  /** The count of a key is the number of its events not before the cutoff. */
  lemma {:induction false} CountSinceMeaning(log: seq<Event>, n: nat, k: Key, cutoff: int)
    requires n <= |log|
    ensures CountSince(log, n, k, cutoff) == |EventsSince(log, n, k, cutoff)|
  {
    if n == 0 {
      assert EventsSince(log, 0, k, cutoff) == {};
    } else {
      CountSinceMeaning(log, n - 1, k, cutoff);
      EventsSnoc(log, n - 1, k, cutoff);
    }
  }

  /** The last time of a key is that of one of its events, and no event of the key is later. */
  lemma {:induction false} LatestMeaning(log: seq<Event>, n: nat, k: Key)
    requires n <= |log|
    ensures forall i :: 0 <= i < n && log[i].userId == k.userId && log[i].inboundId == k.inboundId ==> log[i].at <= Latest(log, n, k)
    ensures Latest(log, n, k) > 0 ==>
              exists i :: 0 <= i < n && log[i].userId == k.userId && log[i].inboundId == k.inboundId && log[i].at == Latest(log, n, k)
  {
    if n > 0 {
      LatestMeaning(log, n - 1, k);
    }
  }

  /** Event `i` is the last one of the key from this address. */
  ghost predicate IsLastFrom(log: seq<Event>, n: nat, k: Key, ip: string, i: nat)
    requires n <= |log|
  {
    && i < n && log[i].userId == k.userId && log[i].inboundId == k.inboundId && log[i].ip == ip
    && forall j :: i < j < n ==> !(log[j].userId == k.userId && log[j].inboundId == k.inboundId && log[j].ip == ip)
  }

  /** The time of an address is that of the event added last, even if that is not the latest. */
  lemma {:induction false} LastAddedMeaning(log: seq<Event>, n: nat, k: Key, ip: string, t: nat)
    requires n <= |log|
    ensures LastAdded(log, n, k, ip) == Some(t) <==> exists i: nat :: IsLastFrom(log, n, k, ip, i) && log[i].at == t
  {
    if n > 0 {
      LastAddedMeaning(log, n - 1, k, ip, t);
      LastFromSnoc(log, n - 1, k, ip, t);
    }
  }

  lemma LastFromSnoc(log: seq<Event>, n: nat, k: Key, ip: string, t: nat)
    requires n < |log|
    ensures (exists i: nat :: IsLastFrom(log, n + 1, k, ip, i) && log[i].at == t) <==>
            if IsOf(log[n], k) && log[n].ip == ip then log[n].at == t
            else exists i: nat :: IsLastFrom(log, n, k, ip, i) && log[i].at == t
  {
    if IsOf(log[n], k) && log[n].ip == ip {
      assert IsLastFrom(log, n + 1, k, ip, n);
    } else {
      forall i: nat ensures IsLastFrom(log, n + 1, k, ip, i) <==> IsLastFrom(log, n, k, ip, i) {
      }
    }
  }

  /** Rows are sorted by inbound, and for one inbound by user; no two have both alike. */
  lemma ReportOrder(rows: seq<SessionRecord>, items: Items, i: nat, j: nat)
    requires IsReport(rows, items) && i < j < |rows|
    ensures StrLess(rows[i].inboundId, rows[j].inboundId) ||
            (rows[i].inboundId == rows[j].inboundId && StrLess(rows[i].userId, rows[j].userId))
  {
    PairLessOrder();
    assert RowKey(rows[i]) != RowKey(rows[j]);
    assert rows[i] in rows && rows[j] in rows;
    assert (rows[i].inboundId, rows[i].userId) != (rows[j].inboundId, rows[j].userId);
  }

  /* ---------- The invariant ---------- */

  function CountSeq(seen: seq<nat>, cutoff: int, n: nat): nat
    requires n <= |seen|
  {
    if n == 0 then 0 else CountSeq(seen, cutoff, n - 1) + (if seen[n - 1] >= cutoff then 1 else 0)
  }

  /** The entry agrees with the log on everything a report with a cutoff of at least `c0` can ask. */
  ghost predicate Agrees(e: Entry, log: seq<Event>, k: Key, c0: int)
  {
    && (forall ip :: ip in e.ips ==> LastAdded(log, |log|, k, ip) == Some(e.ips[ip]))
    && (forall ip :: Recent(log, k, ip, c0) ==> ip in e.ips)
    && (forall c :: c >= c0 ==> CountSeq(e.seen, c, |e.seen|) == CountSince(log, |log|, k, c))
    && (Latest(log, |log|, k) >= c0 ==> e.last == Latest(log, |log|, k))
    && e.last <= Latest(log, |log|, k)
  }

  /** An absent key stands for an empty entry. */
  ghost predicate Inv(items: Items, log: seq<Event>, c0: int)
  {
    forall k :: Agrees(EntryAt(items, k), log, k, c0) && (k !in items ==> CountSince(log, |log|, k, c0) == 0)
  }

  /* ---------- Facts about the log ---------- */

  lemma {:induction false} CountFallsWithCutoff(log: seq<Event>, n: nat, k: Key, c: int, d: int)
    requires n <= |log| && c <= d
    ensures CountSince(log, n, k, d) <= CountSince(log, n, k, c)
  {
    if n > 0 {
      CountFallsWithCutoff(log, n - 1, k, c, d);
    }
  }

  /** The last event of an address is one of the key's events. */
  lemma {:induction false} LastAddedCounts(log: seq<Event>, n: nat, k: Key, ip: string, c: int)
    requires n <= |log|
    ensures LastAdded(log, n, k, ip).Some? && LastAdded(log, n, k, ip).value >= c ==> CountSince(log, n, k, c) > 0
  {
    if n > 0 {
      LastAddedCounts(log, n - 1, k, ip, c);
    }
  }

  /** The latest time of a key lies before a cutoff exactly when it has no event since. */
  lemma {:induction false} LatestCounts(log: seq<Event>, n: nat, k: Key, c: int)
    requires n <= |log|
    ensures CountSince(log, n, k, c) > 0 ==> Latest(log, n, k) >= c
    ensures Latest(log, n, k) >= c && Latest(log, n, k) > 0 ==> CountSince(log, n, k, c) > 0
  {
    if n > 0 {
      LatestCounts(log, n - 1, k, c);
    }
  }

  lemma {:induction false} LogPrefix(log: seq<Event>, e: Event, n: nat, k: Key, ip: string, c: int)
    requires n <= |log|
    ensures LastAdded(log + [e], n, k, ip) == LastAdded(log, n, k, ip)
    ensures CountSince(log + [e], n, k, c) == CountSince(log, n, k, c)
    ensures Latest(log + [e], n, k) == Latest(log, n, k)
  {
    if n > 0 {
      LogPrefix(log, e, n - 1, k, ip, c);
    }
  }

  /** What one more event changes. */
  lemma LogSnoc(log: seq<Event>, e: Event, k: Key, ip: string, c: int)
    ensures var log', n := log + [e], |log| + 1;
            && LastAdded(log', n, k, ip) == (if KeyOf(e) == k && e.ip == ip then Some(e.at) else LastAdded(log, |log|, k, ip))
            && CountSince(log', n, k, c) == CountSince(log, |log|, k, c) + (if KeyOf(e) == k && e.at >= c then 1 else 0)
            && Latest(log', n, k) == (if KeyOf(e) == k && e.at > Latest(log, |log|, k) then e.at else Latest(log, |log|, k))
  {
    LogPrefix(log, e, |log|, k, ip, c);
  }

  lemma {:induction false} CountSeqPrefix(seen: seq<nat>, t: nat, c: int, n: nat)
    requires n <= |seen|
    ensures CountSeq(seen + [t], c, n) == CountSeq(seen, c, n)
  {
    if n > 0 {
      CountSeqPrefix(seen, t, c, n - 1);
    }
  }

  lemma CountSeqSnoc(seen: seq<nat>, t: nat, c: int)
    ensures CountSeq(seen + [t], c, |seen| + 1) == CountSeq(seen, c, |seen|) + (if t >= c then 1 else 0)
  {
    CountSeqPrefix(seen, t, c, |seen|);
  }

  /** Pruning loses nothing a later cutoff can see, and what is left all counts. */
  lemma {:induction false} KeptCounts(seen: seq<nat>, cutoff: int, n: nat, c: int)
    requires n <= |seen| && cutoff <= c
    ensures CountSeq(Kept(seen, cutoff, n), c, |Kept(seen, cutoff, n)|) == CountSeq(seen, c, n)
    ensures |Kept(seen, cutoff, n)| == CountSeq(seen, cutoff, n)
  {
    if n > 0 {
      KeptCounts(seen, cutoff, n - 1, c);
      var before := Kept(seen, cutoff, n - 1);
      if seen[n - 1] < cutoff {
        assert before + [] == before;
      } else {
        CountSeqSnoc(before, seen[n - 1], c);
      }
    }
  }

  /* ---------- Add and prune keep the agreement ---------- */

  lemma AddKeepsEntry(items: Items, log: seq<Event>, e: Event, c0: int)
    requires Inv(items, log, c0)
    ensures Agrees(EntryAt(Added(items, e), KeyOf(e)), log + [e], KeyOf(e), c0)
  {
    var k, log' := KeyOf(e), log + [e];
    var x, x' := EntryAt(items, k), EntryAt(Added(items, e), k);
    assert Agrees(x, log, k, c0);
    forall ip ensures LastAdded(log', |log'|, k, ip) == if e.ip == ip then Some(e.at) else LastAdded(log, |log|, k, ip) {
      LogSnoc(log, e, k, ip, c0);
    }
    forall ip | Recent(log', k, ip, c0) ensures ip in x'.ips {
      if ip != e.ip {
        assert Recent(log, k, ip, c0);
      }
    }
    forall c | c >= c0 ensures CountSeq(x'.seen, c, |x'.seen|) == CountSince(log', |log'|, k, c) {
      CountSeqSnoc(x.seen, e.at, c);
      LogSnoc(log, e, k, "", c);
    }
    LogSnoc(log, e, k, "", c0);
  }

  lemma AddKeepsOther(items: Items, log: seq<Event>, e: Event, c0: int, k: Key)
    requires Inv(items, log, c0) && k != KeyOf(e)
    ensures Agrees(EntryAt(Added(items, e), k), log + [e], k, c0)
    ensures k !in Added(items, e) ==> CountSince(log + [e], |log| + 1, k, c0) == 0
  {
    var x, log' := EntryAt(items, k), log + [e];
    assert Agrees(x, log, k, c0);
    forall ip ensures LastAdded(log', |log'|, k, ip) == LastAdded(log, |log|, k, ip) {
      LogSnoc(log, e, k, ip, c0);
    }
    forall ip | Recent(log', k, ip, c0) ensures ip in x.ips {
      assert Recent(log, k, ip, c0);
    }
    forall c | c >= c0 ensures CountSeq(x.seen, c, |x.seen|) == CountSince(log', |log'|, k, c) {
      LogSnoc(log, e, k, "", c);
    }
    LogSnoc(log, e, k, "", c0);
  }

  lemma AddKeepsInv(items: Items, log: seq<Event>, e: Event, c0: int)
    requires Inv(items, log, c0)
    ensures Inv(Added(items, e), log + [e], c0)
  {
    forall k ensures Agrees(EntryAt(Added(items, e), k), log + [e], k, c0)
                     && (k !in Added(items, e) ==> CountSince(log + [e], |log + [e]|, k, c0) == 0) {
      if k == KeyOf(e) {
        AddKeepsEntry(items, log, e, c0);
      } else {
        AddKeepsOther(items, log, e, c0, k);
      }
    }
  }

  /** A pruned entry still agrees for every later cutoff, whether it is kept or not. */
  lemma PruneKeepsEntry(e: Entry, log: seq<Event>, k: Key, c0: int, cutoff: int)
    requires Agrees(e, log, k, c0) && c0 <= cutoff
    ensures Agrees(Pruned(e, cutoff), log, k, cutoff)
    ensures |Pruned(e, cutoff).seen| == CountSince(log, |log|, k, cutoff)
    ensures Dead(Pruned(e, cutoff)) <==> CountSince(log, |log|, k, cutoff) == 0
  {
    var x := Pruned(e, cutoff);
    forall ip | Recent(log, k, ip, cutoff) ensures ip in x.ips {
      assert Recent(log, k, ip, c0);
    }
    forall c | c >= cutoff ensures CountSeq(x.seen, c, |x.seen|) == CountSince(log, |log|, k, c) {
      KeptCounts(e.seen, cutoff, |e.seen|, c);
    }
    KeptCounts(e.seen, cutoff, |e.seen|, cutoff);
    forall ip | ip in x.ips ensures CountSince(log, |log|, k, cutoff) > 0 {
      LastAddedCounts(log, |log|, k, ip, cutoff);
    }
    if x.ips != map[] {
      var ip :| ip in x.ips;
    }
  }

  /** A dead entry is as good as none. */
  lemma DeadAgrees(log: seq<Event>, k: Key, c0: int)
    requires CountSince(log, |log|, k, c0) == 0
    ensures Agrees(Entry(map[], [], 0), log, k, c0)
  {
    forall ip ensures !Recent(log, k, ip, c0) {
      LastAddedCounts(log, |log|, k, ip, c0);
    }
    forall c | c >= c0 ensures CountSince(log, |log|, k, c) == 0 {
      CountFallsWithCutoff(log, |log|, k, c0, c);
    }
    LatestCounts(log, |log|, k, c0);
  }

  lemma PruneKeepsInv(items: Items, log: seq<Event>, c0: int, cutoff: int)
    requires Inv(items, log, c0) && c0 <= cutoff
    ensures Inv(PrunedItems(items, cutoff), log, cutoff)
    ensures forall k :: k in PrunedItems(items, cutoff) <==> CountSince(log, |log|, k, cutoff) > 0
  {
    var after := PrunedItems(items, cutoff);
    forall k ensures Agrees(EntryAt(after, k), log, k, cutoff) && (k in after <==> CountSince(log, |log|, k, cutoff) > 0) {
      PruneKeepsEntry(EntryAt(items, k), log, k, c0, cutoff);
      if k !in items {
        CountFallsWithCutoff(log, |log|, k, c0, cutoff);
      }
      if k !in after {
        DeadAgrees(log, k, cutoff);
      }
    }
  }

  /* ---------- Reports ---------- */

  lemma ReportedRow(e: Entry, log: seq<Event>, c0: int, cutoff: int, r: SessionRecord)
    requires Agrees(e, log, RowKey(r), c0) && c0 <= cutoff && CountSince(log, |log|, RowKey(r), cutoff) > 0
    requires IsRow(r, RowKey(r), Pruned(e, cutoff))
    ensures RowMatchesLog(r, log, cutoff)
  {
    var k, x := RowKey(r), Pruned(e, cutoff);
    PruneKeepsEntry(e, log, k, c0, cutoff);
    LatestCounts(log, |log|, k, cutoff);
    forall ip ensures ip in r.ips <==> Recent(log, k, ip, cutoff) {
      if ip in x.ips {
        assert LastAdded(log, |log|, k, ip) == Some(x.ips[ip]);
      }
    }
  }

  /** A report after pruning says exactly what the whole log says. */
  lemma ReportMatchesLog(items: Items, log: seq<Event>, c0: int, cutoff: int, rows: seq<SessionRecord>)
    requires Inv(items, log, c0) && c0 <= cutoff && IsReport(rows, PrunedItems(items, cutoff))
    ensures MatchesLog(rows, log, cutoff)
  {
    PruneKeepsInv(items, log, c0, cutoff);
    forall r | r in rows ensures RowMatchesLog(r, log, cutoff) {
      assert Agrees(EntryAt(items, RowKey(r)), log, RowKey(r), c0);
      ReportedRow(items[RowKey(r)], log, c0, cutoff, r);
    }
  }

  datatype Action = AddEvent(event: Event) | Report(cutoff: int)

  function ItemsAfter(actions: seq<Action>, n: nat): Items
    requires n <= |actions|
  {
    if n == 0 then map[] else
    match actions[n - 1]
    case AddEvent(e) => Added(ItemsAfter(actions, n - 1), e)
    case Report(cutoff) => PrunedItems(ItemsAfter(actions, n - 1), cutoff)
  }

  function LogAfter(actions: seq<Action>, n: nat): seq<Event>
    requires n <= |actions|
  {
    if n == 0 then [] else
    match actions[n - 1]
    case AddEvent(e) => LogAfter(actions, n - 1) + [e]
    case Report(_) => LogAfter(actions, n - 1)
  }

  /** The cutoffs never go back, and never before `c0`. */
  ghost predicate Forward(actions: seq<Action>, c0: int)
  {
    && (forall i :: 0 <= i < |actions| && actions[i].Report? ==> c0 <= actions[i].cutoff)
    && forall i, j :: 0 <= i <= j < |actions| && actions[i].Report? && actions[j].Report? ==> actions[i].cutoff <= actions[j].cutoff
  }

  function CutoffAfter(actions: seq<Action>, c0: int, n: nat): int
    requires n <= |actions|
  {
    if n == 0 then c0
    else if actions[n - 1].Report? then actions[n - 1].cutoff
    else CutoffAfter(actions, c0, n - 1)
  }

  lemma {:induction false} CutoffIsBehind(actions: seq<Action>, c0: int, n: nat, i: nat)
    requires Forward(actions, c0) && n <= i < |actions| && actions[i].Report?
    ensures CutoffAfter(actions, c0, n) <= actions[i].cutoff
  {
    if n > 0 && !actions[n - 1].Report? {
      CutoffIsBehind(actions, c0, n - 1, i);
    }
  }

  lemma EmptyAgrees(c0: int)
    ensures Inv(map[], [], c0)
  {
  }

  lemma {:induction false} RunKeepsInv(actions: seq<Action>, c0: int, n: nat)
    requires Forward(actions, c0) && n <= |actions|
    ensures Inv(ItemsAfter(actions, n), LogAfter(actions, n), CutoffAfter(actions, c0, n))
  {
    if n == 0 {
      EmptyAgrees(c0);
    } else {
      RunKeepsInv(actions, c0, n - 1);
      match actions[n - 1]
      case AddEvent(e) =>
        AddKeepsInv(ItemsAfter(actions, n - 1), LogAfter(actions, n - 1), e, CutoffAfter(actions, c0, n - 1));
      case Report(cutoff) =>
        CutoffIsBehind(actions, c0, n - 1, n - 1);
        PruneKeepsInv(ItemsAfter(actions, n - 1), LogAfter(actions, n - 1), CutoffAfter(actions, c0, n - 1), cutoff);
    }
  }

  /** For every interleaving of additions and reports with cutoffs that never go back: each report of the pruned tracker is what
      the whole log gives. */
  lemma PrunedTrackerIsWholeLog(actions: seq<Action>, c0: int, i: nat, rows: seq<SessionRecord>)
    requires Forward(actions, c0) && i < |actions| && actions[i].Report?
    requires IsReport(rows, ItemsAfter(actions, i + 1))
    ensures MatchesLog(rows, LogAfter(actions, i), actions[i].cutoff)
  {
    RunKeepsInv(actions, c0, i);
    CutoffIsBehind(actions, c0, i, i);
    ReportMatchesLog(ItemsAfter(actions, i), LogAfter(actions, i), CutoffAfter(actions, c0, i), actions[i].cutoff, rows);
  }

  lemma SortedListsAgree(a: seq<string>, b: seq<string>)
    requires Sorted(StrLess, a) && NoRepeat(a) && Sorted(StrLess, b) && NoRepeat(b)
    requires forall x :: x in a <==> x in b
    ensures a == b
  {
    StrLessOrder();
    forall x ensures multiset(a)[x] == multiset(b)[x] {
      NoRepeatMultiset(a, x);
      NoRepeatMultiset(b, x);
    }
    assert multiset(a) == multiset(b);
    SortedPermutationsAgree(StrLess, a, b);
  }

  lemma RowIsUnique(r: SessionRecord, q: SessionRecord, log: seq<Event>, cutoff: int)
    requires RowMatchesLog(r, log, cutoff) && RowMatchesLog(q, log, cutoff) && RowKey(r) == RowKey(q)
    ensures r == q
  {
    SortedListsAgree(r.ips, q.ips);
  }

  lemma SameRows(a: seq<SessionRecord>, b: seq<SessionRecord>, log: seq<Event>, cutoff: int, r: SessionRecord)
    requires MatchesLog(a, log, cutoff) && MatchesLog(b, log, cutoff) && r in a
    ensures r in b
  {
    assert CountSince(log, |log|, RowKey(r), cutoff) > 0;
    var q :| q in b && RowKey(q) == RowKey(r);
    RowIsUnique(r, q, log, cutoff);
  }

  /** The log leaves no choice: at most one report matches it. */
  lemma ReportIsUnique(a: seq<SessionRecord>, b: seq<SessionRecord>, log: seq<Event>, cutoff: int)
    requires MatchesLog(a, log, cutoff) && MatchesLog(b, log, cutoff)
    ensures a == b
  {
    RowLessOrder();
    assert NoRepeat(a) && NoRepeat(b);
    forall r ensures multiset(a)[r] == multiset(b)[r] {
      NoRepeatMultiset(a, r);
      NoRepeatMultiset(b, r);
      if r in a { SameRows(a, b, log, cutoff, r); }
      if r in b { SameRows(b, a, log, cutoff, r); }
    }
    assert multiset(a) == multiset(b);
    DistinctKeysDecide(a);
    SortedPermutationsAgree(RowLess, a, b);
  }

  lemma DistinctKeysDecide(a: seq<SessionRecord>)
    requires forall i, j :: 0 <= i < j < |a| ==> RowKey(a[i]) != RowKey(a[j])
    ensures Decisive(RowLess, a)
  {
    PairLessOrder();
    forall x, y | x in a && y in a && x != y ensures RowLess(x, y) || RowLess(y, x) {
      assert RowKey(x) != RowKey(y);
      assert (x.inboundId, x.userId) != (y.inboundId, y.userId);
    }
  }
}
