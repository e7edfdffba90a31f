/** Go's `<` on strings, and sorting by a strict order.

    The agent sorts routes, session rows and spooled batches with `sort.Slice`, which is not stable.  The function
    `Sort` stands for it; `SortedPermutationsAgree` shows that when no two elements tie, every sorted permutation is
    the same sequence, so the choice of algorithm does not matter. */
module Order {

  predicate StrLess(a: string, b: string)
  {
    |b| > 0 && (|a| == 0 || a[0] < b[0] || (a[0] == b[0] && StrLess(a[1..], b[1..])))
  }

  lemma {:induction false} StrLessTransitive(a: string, b: string, c: string)
    requires StrLess(a, b) && StrLess(b, c)
    ensures StrLess(a, c)
  {
    if |a| > 0 && a[0] == b[0] == c[0] {
      StrLessTransitive(a[1..], b[1..], c[1..]);
    }
  }

  lemma {:induction false} StrLessConnected(a: string, b: string)
    ensures StrLess(a, b) || StrLess(b, a) || a == b
  {
    if |a| > 0 && |b| > 0 && a[0] == b[0] {
      StrLessConnected(a[1..], b[1..]);
      if a[1..] == b[1..] {
        HeadAndTail(a);
        HeadAndTail(b);
      }
    }
  }

  lemma HeadAndTail(s: string)
    requires s != ""
    ensures s == [s[0]] + s[1..]
  {
  }

  /** `a` ends at position `k` of `b`, or has a smaller character there; before it they agree. */
  ghost predicate LessAt(a: string, b: string, k: nat)
  {
    k <= |a| && k < |b| && a[..k] == b[..k] && (k == |a| || a[k] < b[k])
  }

  /** Strings are compared at the first character in which they differ, and a proper prefix comes first. */
  lemma {:induction false} StrLessMeaning(a: string, b: string)
    ensures StrLess(a, b) <==> exists k: nat :: LessAt(a, b, k)
    decreases |a|
  {
    if a == "" || b == "" || a[0] != b[0] {
      if StrLess(a, b) {
        assert LessAt(a, b, 0);
      }
      if exists k: nat :: LessAt(a, b, k) {
        var k: nat :| LessAt(a, b, k);
        if k > 0 {
          SameHead(a, b, k);
        }
      }
    } else {
      StrLessMeaning(a[1..], b[1..]);
      if StrLess(a, b) {
        var k: nat :| LessAt(a[1..], b[1..], k);
        LessInTail(a, b, k + 1);
      }
      if exists k: nat :: LessAt(a, b, k) {
        var k: nat :| LessAt(a, b, k);
        LessInTail(a, b, k);
        assert LessAt(a[1..], b[1..], k - 1);
      }
    }
  }

  lemma SameHead(a: string, b: string, k: nat)
    requires LessAt(a, b, k) && k > 0
    ensures a != "" && b != "" && a[0] == b[0]
  {
    assert a[0] == a[..k][0] == b[..k][0] == b[0];
  }

  lemma LessInTail(a: string, b: string, k: nat)
    requires a != "" && b != "" && a[0] == b[0]
    ensures LessAt(a, b, k) <==> k > 0 && LessAt(a[1..], b[1..], k - 1)
  {
    if k > 0 && k <= |a| && k <= |b| {
      assert a[..k] == [a[0]] + a[1..][..k - 1] && b[..k] == [b[0]] + b[1..][..k - 1];
      if a[..k] == b[..k] {
        assert a[1..][..k - 1] == a[..k][1..] == b[..k][1..] == b[1..][..k - 1];
      }
    }
  }

  lemma {:induction false} StrLessAsymmetric(a: string, b: string)
    requires StrLess(a, b)
    ensures !StrLess(b, a)
  {
    if |a| > 0 && a[0] == b[0] {
      StrLessAsymmetric(a[1..], b[1..]);
    }
  }

  ghost predicate StrictOrder<T(!new)>(less: (T, T) -> bool)
  {
    && (forall a, b :: less(a, b) ==> !less(b, a))
    && (forall a, b, c :: less(a, b) && !less(c, b) ==> less(a, c))
  }

  ghost predicate Sorted<T(!new)>(less: (T, T) -> bool, s: seq<T>)
  {
    forall i, j :: 0 <= i < j < |s| ==> !less(s[j], s[i])
  }

  /** No two elements tie: incomparable elements are equal. */
  ghost predicate Decisive<T(!new)>(less: (T, T) -> bool, s: seq<T>)
  {
    forall a, b :: a in s && b in s && a != b ==> less(a, b) || less(b, a)
  }

  function Insert<T(!new)>(less: (T, T) -> bool, x: T, s: seq<T>): (r: seq<T>)
    ensures multiset(r) == multiset{x} + multiset(s)
  {
    if s == [] || less(x, s[0]) then
      [x] + s
    else
      assert s == [s[0]] + s[1..];
      [s[0]] + Insert(less, x, s[1..])
  }

  function Sort<T(!new)>(less: (T, T) -> bool, s: seq<T>): (r: seq<T>)
    ensures multiset(r) == multiset(s)
  {
    if s == [] then [] else
    assert s == [s[0]] + s[1..];
    Insert(less, s[0], Sort(less, s[1..]))
  }

  lemma SameElements<T>(a: seq<T>, b: seq<T>)
    requires multiset(a) == multiset(b)
    ensures |a| == |b|
    ensures forall x :: x in a <==> x in b
  {
    assert |multiset(a)| == |a| && |multiset(b)| == |b|;
    forall x ensures x in a <==> x in b {
      assert x in multiset(a) <==> x in multiset(b);
    }
  }

  lemma {:induction false} InsertSorted<T(!new)>(less: (T, T) -> bool, x: T, s: seq<T>)
    requires StrictOrder(less) && Sorted(less, s)
    ensures Sorted(less, Insert(less, x, s))
  {
    var r := Insert(less, x, s);
    if s == [] {
    } else if less(x, s[0]) {
      forall j | 0 < j < |r| ensures !less(r[j], r[0]) {
        assert r[j] == s[j - 1];
      }
    } else {
      InsertSorted(less, x, s[1..]);
      var t := Insert(less, x, s[1..]);
      forall y | y in t ensures !less(y, s[0]) {
        assert y in multiset(t);
        assert y == x || y in s[1..];
      }
    }
  }

  lemma {:induction false} SortSorts<T(!new)>(less: (T, T) -> bool, s: seq<T>)
    requires StrictOrder(less)
    ensures Sorted(less, Sort(less, s))
  {
    if s != [] {
      SortSorts(less, s[1..]);
      InsertSorted(less, s[0], Sort(less, s[1..]));
    }
  }

  lemma HeadsAgree<T(!new)>(less: (T, T) -> bool, a: seq<T>, b: seq<T>)
    requires Sorted(less, a) && Sorted(less, b) && Decisive(less, a)
    requires multiset(a) == multiset(b) && a != [] && b != []
    requires forall x, y :: less(x, y) ==> !less(y, x)
    ensures a[0] == b[0]
  {
    SameElements(a, b);
    assert a[0] in a && b[0] in b;
    var i :| 0 <= i < |b| && b[i] == a[0];
    var j :| 0 <= j < |a| && a[j] == b[0];
    assert !less(b[i], b[0]) && !less(a[j], a[0]);
  }

  lemma TailsPermute<T>(a: seq<T>, b: seq<T>)
    requires multiset(a) == multiset(b) && a != [] && b != [] && a[0] == b[0]
    ensures multiset(a[1..]) == multiset(b[1..])
  {
    assert a == [a[0]] + a[1..] && b == [b[0]] + b[1..];
    assert multiset(a[1..]) == multiset(a) - multiset{a[0]};
    assert multiset(b[1..]) == multiset(b) - multiset{b[0]};
  }

  lemma TailDecisive<T(!new)>(less: (T, T) -> bool, a: seq<T>)
    requires Sorted(less, a) && Decisive(less, a) && a != []
    ensures Sorted(less, a[1..]) && Decisive(less, a[1..])
  {
    forall x, y | x in a[1..] && y in a[1..] && x != y ensures less(x, y) || less(y, x) {
      assert x in a && y in a;
    }
  }

  lemma {:induction false} SortedPermutationsAgree<T(!new)>(less: (T, T) -> bool, a: seq<T>, b: seq<T>)
    requires Sorted(less, a) && Sorted(less, b) && Decisive(less, a)
    requires multiset(a) == multiset(b)
    requires forall x, y :: less(x, y) ==> !less(y, x)
    ensures a == b
  {
    if a == [] {
      SameElements(a, b);
    } else {
      SameElements(a, b);
      HeadsAgree(less, a, b);
      TailsPermute(a, b);
      TailDecisive(less, a);
      SortedPermutationsAgree(less, a[1..], b[1..]);
      assert a == [a[0]] + a[1..] && b == [b[0]] + b[1..];
    }
  }

  ghost predicate NoRepeat<T>(s: seq<T>)
  {
    forall i, j :: 0 <= i < j < |s| ==> s[i] != s[j]
  }

  lemma {:induction false} NoRepeatMultiset<T>(s: seq<T>, x: T)
    requires NoRepeat(s)
    ensures multiset(s)[x] == if x in s then 1 else 0
  {
    if s != [] {
      assert s == [s[0]] + s[1..];
      assert forall i :: 0 <= i < |s| - 1 ==> s[1..][i] == s[i + 1];
      NoRepeatMultiset(s[1..], x);
      if x == s[0] {
        assert x !in s[1..];
      }
    }
  }

  lemma RepeatCountsTwice<T>(s: seq<T>, i: nat, j: nat)
    requires i < j < |s| && s[i] == s[j]
    ensures multiset(s)[s[i]] >= 2
  {
    assert s == s[..j] + [s[j]] + s[j + 1..];
    assert s[i] in s[..j];
    assert multiset(s)[s[i]] == multiset(s[..j])[s[i]] + multiset([s[j]])[s[i]] + multiset(s[j + 1..])[s[i]];
  }

  lemma PermutationNoRepeat<T>(a: seq<T>, b: seq<T>)
    requires NoRepeat(a) && multiset(a) == multiset(b)
    ensures NoRepeat(b)
  {
    forall i, j | 0 <= i < j < |b| ensures b[i] != b[j] {
      NoRepeatMultiset(a, b[i]);
      if b[i] == b[j] {
        RepeatCountsTwice(b, i, j);
      }
    }
  }

  lemma StrLessOrder()
    ensures StrictOrder(StrLess)
    ensures forall a, b :: a != b ==> StrLess(a, b) || StrLess(b, a)
  {
    forall a, b | StrLess(a, b) ensures !StrLess(b, a) {
      StrLessAsymmetric(a, b);
    }
    forall a, b | a != b ensures StrLess(a, b) || StrLess(b, a) {
      StrLessConnected(a, b);
    }
    forall a, b, c | StrLess(a, b) && !StrLess(c, b) ensures StrLess(a, c) {
      if b != c {
        StrLessConnected(b, c);
        StrLessTransitive(a, b, c);
      }
    }
  }

  /** Ordering by two string keys, the first one leading: `sort.Slice` by inbound and then user. */
  predicate PairLess(a: (string, string), b: (string, string))
  {
    if a.0 == b.0 then StrLess(a.1, b.1) else StrLess(a.0, b.0)
  }

  lemma PairLessOrder()
    ensures StrictOrder(PairLess)
    ensures forall a, b :: a != b ==> PairLess(a, b) || PairLess(b, a)
  {
    forall a, b | PairLess(a, b) ensures !PairLess(b, a) {
      if a.0 == b.0 { StrLessAsymmetric(a.1, b.1); } else { StrLessAsymmetric(a.0, b.0); }
    }
    forall a, b | a != b ensures PairLess(a, b) || PairLess(b, a) {
      StrLessConnected(a.0, b.0);
      StrLessConnected(a.1, b.1);
    }
    forall a, b, c | PairLess(a, b) && !PairLess(c, b) ensures PairLess(a, c) {
      if b != c {
        assert PairLess(b, c);
        if a.0 == b.0 == c.0 {
          StrLessTransitive(a.1, b.1, c.1);
        } else if a.0 != b.0 && b.0 != c.0 {
          StrLessTransitive(a.0, b.0, c.0);
          if a.0 == c.0 { StrLessAsymmetric(a.0, b.0); }
        }
      }
    }
  }

  /** Positions below `n`, each behind the one before. */
  ghost predicate Ascending(s: seq<nat>, n: nat)
  {
    (forall k :: 0 <= k < |s| ==> s[k] < n) && forall k, l :: 0 <= k < l < |s| ==> s[k] < s[l]
  }

  lemma AscendingOn(s: seq<nat>, n: nat)
    requires Ascending(s, n)
    ensures Ascending(s, n + 1) && Ascending(s + [n], n + 1) && s + [] == s
  {
  }

  /** The positions below `n` at which `keep` holds. */
  ghost function Where<T>(s: seq<T>, keep: T -> bool, n: nat): seq<nat>
    requires n <= |s|
  {
    if n == 0 then [] else if keep(s[n - 1]) then Where(s, keep, n - 1) + [n - 1] else Where(s, keep, n - 1)
  }

  lemma {:induction false} WhereMeaning<T>(s: seq<T>, keep: T -> bool, n: nat)
    requires n <= |s|
    ensures Ascending(Where(s, keep, n), n)
    ensures forall i: nat :: i in Where(s, keep, n) <==> i < n && keep(s[i])
  {
    if n > 0 {
      WhereMeaning(s, keep, n - 1);
      AscendingOn(Where(s, keep, n - 1), n - 1);
    }
  }

  /** `out` holds the elements of `s` below `n` that `keep` holds of, unchanged and in order. */
  ghost predicate Filters<T>(out: seq<T>, s: seq<T>, keep: T -> bool, n: nat)
  {
    && n <= |s| && |out| == |Where(s, keep, n)|
    && forall k :: 0 <= k < |out| ==> Where(s, keep, n)[k] < n && out[k] == s[Where(s, keep, n)[k]]
  }

  lemma FiltersOn<T>(out: seq<T>, s: seq<T>, keep: T -> bool, n: nat)
    requires Filters(out, s, keep, n) && n < |s|
    ensures Filters(if keep(s[n]) then out + [s[n]] else out, s, keep, n + 1)
  {
    var at := Where(s, keep, n);
    if keep(s[n]) {
      assert Where(s, keep, n + 1) == at + [n];
    }
  }

  /** The first `n` lists, joined. */
  function Flat<T>(parts: seq<seq<T>>, n: nat): seq<T>
    requires n <= |parts|
  {
    if n == 0 then [] else Flat(parts, n - 1) + parts[n - 1]
  }
}
