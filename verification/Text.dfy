/** The parts of Go's `strings` package the agent uses, on strings as sequences of characters. */
module Text {
  datatype Option<+T> = None | Some(value: T)

  predicate HasPrefix(s: string, prefix: string)
  {
    prefix <= s
  }

  /** `strings.Index`: the first position of `sub` (see `IndexIsFirst`). */
  function Index(s: string, sub: string): (r: Option<nat>)
    ensures r.Some? ==> r.value + |sub| <= |s|
  {
    if HasPrefix(s, sub) then
      Some(0)
    else if s == "" then
      None
    else
      match Index(s[1..], sub)
      case None => None
      case Some(i) => Some(i + 1)
  }

  predicate FirstAt(s: string, sub: string, k: nat)
    requires k <= |s|
  {
    HasPrefix(s[k..], sub) && forall i :: 0 <= i < k ==> !HasPrefix(s[i..], sub)
  }

  lemma FirstInTail(s: string, sub: string, k: nat)
    requires 0 < k <= |s| && !HasPrefix(s, sub)
    ensures FirstAt(s, sub, k) <==> FirstAt(s[1..], sub, k - 1)
  {
    assert s[0..] == s;
    assert forall i :: 0 < i <= |s| ==> s[i..] == s[1..][i - 1..];
    if FirstAt(s, sub, k) {
      forall i | 0 <= i < k - 1 ensures !HasPrefix(s[1..][i..], sub) {
        assert s[1..][i..] == s[i + 1..];
      }
    }
  }

  lemma {:induction false} IndexIsFirst(s: string, sub: string, k: nat)
    requires k <= |s|
    ensures Index(s, sub) == Some(k) <==> FirstAt(s, sub, k)
    decreases |s|
  {
    assert s[0..] == s;
    if !HasPrefix(s, sub) && k > 0 {
      FirstInTail(s, sub, k);
      IndexIsFirst(s[1..], sub, k - 1);
    }
  }

  /** `strings.Split` for a non-empty separator. */
  function Split(s: string, sep: string): (parts: seq<string>)
    requires sep != ""
    ensures |parts| > 0
    decreases |s|
  {
    match Index(s, sep)
    case None => [s]
    case Some(i) =>
      [s[..i]] + Split(s[i + |sep|..], sep)
  }

  /** The separator is found right behind a head in which its first character does not occur. */
  lemma IndexBehind(head: string, sep: string, tail: string)
    requires sep != "" && sep[0] !in head
    ensures Index(head + sep + tail, sep) == Some(|head|)
    ensures (head + sep + tail)[..|head|] == head
    ensures (head + sep + tail)[|head| + |sep|..] == tail
  {
    var s := head + sep + tail;
    assert s[|head|..] == sep + tail;
    assert HasPrefix(s[|head|..], sep);
    forall i | 0 <= i < |head| ensures !HasPrefix(s[i..], sep) {
      assert s[i..][0] == head[i];
    }
    IndexIsFirst(s, sep, |head|);
  }

  lemma SplitBehind(head: string, sep: string, tail: string)
    requires sep != "" && sep[0] !in head
    ensures Split(head + sep + tail, sep) == [head] + Split(tail, sep)
  {
    IndexBehind(head, sep, tail);
  }

  predicate Contains(s: string, sub: string)
  {
    Index(s, sub).Some?
  }

  /** ASCII lower case, which is all the protocol names and mode strings need. */
  function ToLower(s: string): string
  {
    seq(|s|, i requires 0 <= i < |s| => if 'A' <= s[i] <= 'Z' then (s[i] - 'A' + 'a') else s[i])
  }

  /** Only the letters A to Z change, each to its lower-case form, which is 32 places on. */
  lemma ToLowerMeaning(s: string, i: nat)
    requires i < |s|
    ensures |ToLower(s)| == |s|
    ensures ToLower(s)[i] as int == s[i] as int + if 65 <= s[i] as int <= 90 then 32 else 0
  {
  }

  function Join(parts: seq<string>, sep: string): string
    requires parts != []
  {
    if |parts| == 1 then parts[0] else parts[0] + sep + Join(parts[1..], sep)
  }

  /** Joining undoes splitting. */
  lemma {:induction false} JoinSplit(s: string, sep: string)
    requires sep != ""
    ensures Join(Split(s, sep), sep) == s
    decreases |s|
  {
    match Index(s, sep)
    case None =>
    case Some(i) =>
      IndexIsFirst(s, sep, i);
      var rest := s[i + |sep|..];
      JoinSplit(rest, sep);
      assert ([s[..i]] + Split(rest, sep))[1..] == Split(rest, sep);
      assert s[i..][..|sep|] == sep;
      assert s == s[..i] + sep + rest;
  }
}
