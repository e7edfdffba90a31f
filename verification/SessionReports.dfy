/** Merging Xray's exact online sessions with the recent ones of the access log (`mergeSessionReports` in
    internal/agent/agent.go). */
module SessionReports {
  import opened Model
  import opened Text
  import opened Order
  import opened Tracker

  function ByKey(rows: seq<SessionRecord>, n: nat): map<Key, SessionRecord>
    requires n <= |rows|
  {
    if n == 0 then map[] else ByKey(rows, n - 1)[RowKey(rows[n - 1]) := rows[n - 1]]
  }

  /** An exact row, with the recent connection count the log has for its key. */
  function Enriched(e: SessionRecord, recent: map<Key, SessionRecord>): SessionRecord
  {
    if RowKey(e) in recent then e.(recentConnections := recent[RowKey(e)].recentConnections) else e
  }

  function EnrichedRows(exact: seq<SessionRecord>, recent: map<Key, SessionRecord>, n: nat): seq<SessionRecord>
    requires n <= |exact|
  {
    if n == 0 then [] else EnrichedRows(exact, recent, n - 1) + [Enriched(exact[n - 1], recent)]
  }

  function Leftovers(recent: seq<SessionRecord>, seen: set<Key>, n: nat): seq<SessionRecord>
    requires n <= |recent|
  {
    if n == 0 then [] else Leftovers(recent, seen, n - 1) + (if RowKey(recent[n - 1]) in seen then [] else [recent[n - 1]])
  }

  function Keys(rows: seq<SessionRecord>): set<Key>
  {
    set r | r in rows :: RowKey(r)
  }

  function Unsorted(exact: seq<SessionRecord>, recent: seq<SessionRecord>): seq<SessionRecord>
  {
    EnrichedRows(exact, ByKey(recent, |recent|), |exact|) + Leftovers(recent, Keys(exact), |recent|)
  }

  method Merge(exact: seq<SessionRecord>, recent: seq<SessionRecord>) returns (out: seq<SessionRecord>)
    ensures out == Sort(RowLess, Unsorted(exact, recent))
  {
    var m: map<Key, SessionRecord> := map[];
    for i := 0 to |recent|
      invariant m == ByKey(recent, i)
    {
      m := m[RowKey(recent[i]) := recent[i]];
    }
    out := [];
    var seen: set<Key> := {};
    for i := 0 to |exact|
      invariant out == EnrichedRows(exact, m, i) && seen == Keys(exact[..i])
    {
      assert exact[..i + 1] == exact[..i] + [exact[i]];
      seen := seen + {RowKey(exact[i])};
      var e := exact[i];
      if RowKey(e) in m {
        e := e.(recentConnections := m[RowKey(e)].recentConnections);
      }
      out := out + [e];
    }
    assert exact[..|exact|] == exact;
    ghost var before := out;
    for i := 0 to |recent|
      invariant out == before + Leftovers(recent, seen, i)
    {
      if RowKey(recent[i]) !in seen {
        out := out + [recent[i]];
      }
    }
    out := Sort(RowLess, out);
  }

  ghost predicate UniqueKeys(rows: seq<SessionRecord>)
  {
    forall i, j :: 0 <= i < j < |rows| ==> RowKey(rows[i]) != RowKey(rows[j])
  }

  lemma {:induction false} ByKeyMeaning(rows: seq<SessionRecord>, n: nat)
    requires n <= |rows| && UniqueKeys(rows)
    ensures forall i :: 0 <= i < n ==> RowKey(rows[i]) in ByKey(rows, n) && ByKey(rows, n)[RowKey(rows[i])] == rows[i]
    ensures forall k :: k in ByKey(rows, n) ==> exists i :: 0 <= i < n && RowKey(rows[i]) == k
  {
    if n > 0 {
      ByKeyMeaning(rows, n - 1);
    }
  }

  lemma {:induction false} EnrichedRowsAt(exact: seq<SessionRecord>, recent: map<Key, SessionRecord>, n: nat)
    requires n <= |exact|
    ensures |EnrichedRows(exact, recent, n)| == n
    ensures forall i :: 0 <= i < n ==> EnrichedRows(exact, recent, n)[i] == Enriched(exact[i], recent)
  {
    if n > 0 {
      EnrichedRowsAt(exact, recent, n - 1);
    }
  }

  lemma {:induction false} LeftoversMeaning(recent: seq<SessionRecord>, seen: set<Key>, n: nat)
    requires n <= |recent| && UniqueKeys(recent)
    ensures UniqueKeys(Leftovers(recent, seen, n))
    ensures forall r :: r in Leftovers(recent, seen, n) <==> RowKey(r) !in seen && exists i :: 0 <= i < n && recent[i] == r
  {
    if n > 0 {
      LeftoversMeaning(recent, seen, n - 1);
      var before := Leftovers(recent, seen, n - 1);
      assert before + [] == before;
      forall k | 0 <= k < |before| ensures RowKey(before[k]) != RowKey(recent[n - 1]) {
        assert before[k] in before;
      }
    }
  }

  /** The recent row of the key gives the count; without one the exact row keeps its own. */
  ghost predicate HasCount(r: SessionRecord, e: SessionRecord, recent: seq<SessionRecord>)
  {
    && (forall q :: q in recent && RowKey(q) == RowKey(e) ==> r.recentConnections == q.recentConnections)
    && (RowKey(e) !in Keys(recent) ==> r.recentConnections == e.recentConnections)
  }

  ghost predicate FromExact(r: SessionRecord, e: SessionRecord, recent: seq<SessionRecord>)
  {
    r == e.(recentConnections := r.recentConnections) && HasCount(r, e, recent)
  }

  /** The row the merged report should have for a row of either input. */
  ghost predicate IsMergedRow(r: SessionRecord, exact: seq<SessionRecord>, recent: seq<SessionRecord>)
  {
    (r in recent && RowKey(r) !in Keys(exact)) || exists e :: e in exact && FromExact(r, e, recent)
  }

  lemma ByKeyKeys(rows: seq<SessionRecord>)
    requires UniqueKeys(rows)
    ensures ByKey(rows, |rows|).Keys == Keys(rows)
  {
    ByKeyMeaning(rows, |rows|);
    forall k | k in Keys(rows) ensures k in ByKey(rows, |rows|) {
      var r :| r in rows && RowKey(r) == k;
      var i :| 0 <= i < |rows| && rows[i] == r;
    }
    forall i | 0 <= i < |rows| ensures RowKey(rows[i]) in Keys(rows) {
      assert rows[i] in rows;
    }
  }

  lemma EnrichedIsMerged(e: SessionRecord, recent: seq<SessionRecord>)
    requires UniqueKeys(recent)
    ensures FromExact(Enriched(e, ByKey(recent, |recent|)), e, recent)
    ensures RowKey(Enriched(e, ByKey(recent, |recent|))) == RowKey(e)
  {
    var m := ByKey(recent, |recent|);
    ByKeyMeaning(recent, |recent|);
    ByKeyKeys(recent);
    forall q | q in recent && RowKey(q) == RowKey(e) ensures RowKey(e) in m && m[RowKey(e)] == q {
      var i :| 0 <= i < |recent| && recent[i] == q;
    }
  }

  ghost predicate AllMerged(rows: seq<SessionRecord>, exact: seq<SessionRecord>, recent: seq<SessionRecord>)
  {
    forall i :: 0 <= i < |rows| ==> IsMergedRow(rows[i], exact, recent)
  }

  lemma SameKeys(a: seq<SessionRecord>, b: seq<SessionRecord>)
    requires |a| == |b| && forall i :: 0 <= i < |a| ==> RowKey(a[i]) == RowKey(b[i])
    ensures Keys(a) <= Keys(b)
  {
    forall k | k in Keys(a) ensures k in Keys(b) {
      var r :| r in a && RowKey(r) == k;
      var i :| 0 <= i < |a| && a[i] == r;
      assert b[i] in b;
    }
  }

  /** `a` holds an exact row in every position, up to its count. */
  ghost predicate Enriches(a: seq<SessionRecord>, exact: seq<SessionRecord>, recent: seq<SessionRecord>)
  {
    |a| == |exact| && forall i :: 0 <= i < |a| ==> FromExact(a[i], exact[i], recent)
  }

  lemma EnrichesMeaning(a: seq<SessionRecord>, exact: seq<SessionRecord>, recent: seq<SessionRecord>)
    requires Enriches(a, exact, recent) && UniqueKeys(exact)
    ensures UniqueKeys(a) && Keys(a) == Keys(exact) && AllMerged(a, exact, recent)
  {
    forall i | 0 <= i < |a| ensures RowKey(a[i]) == RowKey(exact[i]) {
      assert FromExact(a[i], exact[i], recent);
    }
    SameKeys(a, exact);
    SameKeys(exact, a);
    forall i | 0 <= i < |a| ensures IsMergedRow(a[i], exact, recent) {
      assert exact[i] in exact && FromExact(a[i], exact[i], recent);
    }
  }

  lemma EnrichedMeaning(exact: seq<SessionRecord>, recent: seq<SessionRecord>)
    requires UniqueKeys(exact) && UniqueKeys(recent)
    ensures var a := EnrichedRows(exact, ByKey(recent, |recent|), |exact|);
            UniqueKeys(a) && Keys(a) == Keys(exact) && AllMerged(a, exact, recent)
  {
    var m := ByKey(recent, |recent|);
    var a := EnrichedRows(exact, m, |exact|);
    EnrichedRowsAt(exact, m, |exact|);
    forall i | 0 <= i < |a| ensures FromExact(a[i], exact[i], recent) {
      EnrichedIsMerged(exact[i], recent);
    }
    EnrichesMeaning(a, exact, recent);
  }

  lemma LeftoverKeys(exact: seq<SessionRecord>, recent: seq<SessionRecord>)
    requires UniqueKeys(recent)
    ensures var b := Leftovers(recent, Keys(exact), |recent|);
            UniqueKeys(b) && Keys(b) == Keys(recent) - Keys(exact) && AllMerged(b, exact, recent)
  {
    var b := Leftovers(recent, Keys(exact), |recent|);
    LeftoversMeaning(recent, Keys(exact), |recent|);
    assert forall r :: r in b ==> r in recent && RowKey(r) !in Keys(exact);
    assert forall r :: r in recent && RowKey(r) !in Keys(exact) ==> r in b;
    KeysWithout(recent, b, Keys(exact));
    OthersAreMerged(b, exact, recent);
  }

  lemma KeysWithout(a: seq<SessionRecord>, b: seq<SessionRecord>, seen: set<Key>)
    requires forall r :: r in b <==> r in a && RowKey(r) !in seen
    ensures Keys(b) == Keys(a) - seen
  {
    forall k | k in Keys(a) - seen ensures k in Keys(b) {
      var q :| q in a && RowKey(q) == k;
      assert q in b;
    }
  }

  lemma OthersAreMerged(b: seq<SessionRecord>, exact: seq<SessionRecord>, recent: seq<SessionRecord>)
    requires forall r :: r in b ==> r in recent && RowKey(r) !in Keys(exact)
    ensures AllMerged(b, exact, recent)
  {
    forall i | 0 <= i < |b| ensures IsMergedRow(b[i], exact, recent) {
      assert b[i] in b;
    }
  }

  lemma Joined(a: seq<SessionRecord>, b: seq<SessionRecord>)
    requires UniqueKeys(a) && UniqueKeys(b) && Keys(a) !! Keys(b)
    ensures UniqueKeys(a + b) && Keys(a + b) == Keys(a) + Keys(b)
  {
    forall i, j | 0 <= i < |a| && 0 <= j < |b| ensures RowKey(a[i]) != RowKey(b[j]) {
      assert a[i] in a && b[j] in b;
      assert RowKey(a[i]) in Keys(a) && RowKey(b[j]) in Keys(b);
    }
  }

  /** The merged report has each key of either input once, sorted by inbound and then user: exact rows with the recent count of
      their key, and recent rows where there is no exact one. */
  lemma MergeMeaning(exact: seq<SessionRecord>, recent: seq<SessionRecord>)
    requires UniqueKeys(exact) && UniqueKeys(recent)
    ensures var out := Sort(RowLess, Unsorted(exact, recent));
            && Sorted(RowLess, out) && UniqueKeys(out) && Keys(out) == Keys(exact) + Keys(recent)
            && forall r :: r in out ==> IsMergedRow(r, exact, recent)
  {
    var rows := Unsorted(exact, recent);
    var out := Sort(RowLess, rows);
    RowLessOrder();
    SortSorts(RowLess, rows);
    SameElements(out, rows);
    UnsortedMeaning(exact, recent);
    assert NoRepeat(rows);
    PermutationNoRepeat(rows, out);
    forall i, j | 0 <= i < j < |out| ensures RowKey(out[i]) != RowKey(out[j]) {
      assert out[i] in rows && out[j] in rows && out[i] != out[j];
    }
  }

  lemma UnsortedMeaning(exact: seq<SessionRecord>, recent: seq<SessionRecord>)
    requires UniqueKeys(exact) && UniqueKeys(recent)
    ensures var rows := Unsorted(exact, recent);
            && UniqueKeys(rows) && Keys(rows) == Keys(exact) + Keys(recent)
            && forall r :: r in rows ==> IsMergedRow(r, exact, recent)
  {
    EnrichedMeaning(exact, recent);
    LeftoverKeys(exact, recent);
    Joined(EnrichedRows(exact, ByKey(recent, |recent|), |exact|), Leftovers(recent, Keys(exact), |recent|));
  }
}
