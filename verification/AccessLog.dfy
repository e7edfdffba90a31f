/** Reading Xray's access log (internal/session/tracker.go): one line, and the file line by line across calls. */
module AccessLog {
  import opened Text
  import opened Accounting
  import opened Tracker

  /* ---------- One line ---------- */

  predicate Space(c: char)
  {
    c in [' ', '\t', '\n', '\r', '\U{000B}', '\U{000C}', '\U{0085}', '\U{00A0}']
  }

  function TrimLeft(s: string): string
  {
    if s != "" && Space(s[0]) then TrimLeft(s[1..]) else s
  }

  function TrimRight(s: string): string
  {
    if s != "" && Space(s[|s| - 1]) then TrimRight(s[..|s| - 1]) else s
  }

  function TrimSpace(s: string): string
  {
    TrimRight(TrimLeft(s))
  }

  /** `strings.LastIndex`. */
  function LastIndex(s: string, sub: string): (r: Option<nat>)
    ensures r.Some? ==> r.value + |sub| <= |s|
  {
    if s == "" then (if sub == "" then Some(0) else None)
    else match LastIndex(s[1..], sub)
      case Some(i) => Some(i + 1)
      case None => if HasPrefix(s, sub) then Some(0) else None
  }

  /** The text before the first blank, tab or line end. */
  function FirstWord(s: string): string
  {
    if s == "" || s[0] in " \t\r\n" then "" else [s[0]] + FirstWord(s[1..])
  }

  /** The source and the accounting identity in the text behind the source marker. */
  function ParseRest(rest: string, sourceIp: string -> string): Option<(Identity, string)>
  {
    match Index(rest, " accepted ")
    case None => None
    case Some(acceptedAt) =>
      match LastIndex(rest, " email: ")
      case None => None
      case Some(emailAt) =>
        match ParseAccountingEmail(FirstWord(TrimSpace(rest[emailAt + 8..])))
        case None => None
        case Some(id) =>
          var ip := sourceIp(TrimSpace(rest[..acceptedAt]));
          if ip == "" then None else Some((id, ip))
  }

  /** How a source address and a time prefix are read is left to the caller. */
  function ParseAccessLine(line: string, now: nat, sourceIp: string -> string, logTime: (string, nat) -> nat): Option<Event>
  {
    match Index(line, "from ")
    case None => None
    case Some(fromAt) =>
      match ParseRest(line[fromAt + 5..], sourceIp)
      case None => None
      case Some((id, ip)) => Some(Event(id.userId, id.inboundId, ip, logTime(line[..fromAt], now)))
  }

  predicate NoSpace(s: string)
  {
    forall c :: c in s ==> !Space(c)
  }

  lemma {:induction false} FirstWordIsAll(s: string)
    requires NoSpace(s)
    ensures FirstWord(s) == s
  {
    if s != "" {
      assert s[0] in s && forall c :: c in s[1..] ==> c in s;
      FirstWordIsAll(s[1..]);
    }
  }

  lemma TrimIsIdentity(s: string)
    requires NoSpace(s)
    ensures TrimSpace(s) == s
  {
    assert s != "" ==> s[0] in s && s[|s| - 1] in s;
  }

  lemma TrimLineEnd(s: string)
    requires NoSpace(s)
    ensures TrimSpace(s + "\n") == s
  {
    var line := s + "\n";
    if s == "" {
      assert line[1..] == "";
    } else {
      assert line[0] == s[0] && s[0] in s;
      assert TrimLeft(line) == line;
      assert line[..|line| - 1] == s && s[|s| - 1] in s;
      assert TrimRight(line) == TrimRight(s) == s;
    }
  }

  lemma {:induction false} LastIndexIsLast(s: string, sub: string, k: nat)
    requires sub != "" && k <= |s|
    ensures LastIndex(s, sub) == Some(k) <==> HasPrefix(s[k..], sub) && forall i :: k < i <= |s| ==> !HasPrefix(s[i..], sub)
    decreases |s|
  {
    if s == "" {
    } else {
      assert forall i :: 0 < i <= |s| ==> s[i..] == s[1..][i - 1..];
      assert s[0..] == s;
      if k > 0 {
        LastIndexIsLast(s[1..], sub, k - 1);
        forall i | k - 1 < i <= |s| - 1 ensures s[1..][i..] == s[i + 1..] {
        }
      } else if LastIndex(s[1..], sub).Some? {
        var j := LastIndex(s[1..], sub).value;
        LastIndexIsLast(s[1..], sub, j);
        assert HasPrefix(s[j + 1..], sub);
      } else {
        forall i | 0 < i <= |s| ensures !HasPrefix(s[i..], sub) {
          NoLastIndex(s[1..], sub, i - 1);
        }
      }
    }
  }

  lemma {:induction false} NoLastIndex(s: string, sub: string, i: nat)
    requires sub != "" && LastIndex(s, sub).None? && i <= |s|
    ensures !HasPrefix(s[i..], sub)
  {
    if s != "" {
      if i == 0 {
        assert s[0..] == s;
      } else {
        NoLastIndex(s[1..], sub, i - 1);
        assert s[i..] == s[1..][i - 1..];
      }
    }
  }

  lemma MarkerBlanks(s: string)
    requires HasPrefix(s, " email: ")
    ensures |s| >= 8 && s[0] == ' ' && s[7] == ' '
  {
    assert s[..8] == " email: ";
    assert s[7] == s[..8][7];
  }

  lemma NoMarkerBehind(tail: string, k: nat)
    requires ' ' !in tail && 0 < k <= 8 + |tail|
    ensures !HasPrefix((" email: " + tail)[k..], " email: ")
  {
    var m := " email: " + tail;
    assert m[1] == 'e' && m[2] == 'm' && m[3] == 'a' && m[4] == 'i' && m[5] == 'l' && m[6] == ':';
    assert forall j :: 8 <= j < |m| ==> m[j] in tail;
    if HasPrefix(m[k..], " email: ") {
      MarkerBlanks(m[k..]);
    }
  }

  /** In front of a text without blanks the email marker is the last one. */
  lemma LastMarker(head: string, tail: string)
    requires ' ' !in tail
    ensures LastIndex(head + " email: " + tail, " email: ") == Some(|head|)
  {
    var s := head + " email: " + tail;
    assert s == head + (" email: " + tail);
    forall i | |head| < i <= |s| ensures !HasPrefix(s[i..], " email: ") {
      NoMarkerBehind(tail, i - |head|);
      assert s[i..] == (" email: " + tail)[i - |head|..];
    }
    LastIndexIsLast(s, " email: ", |head|);
  }

  /** What Xray writes behind the source marker. */
  function RestOf(source: string, middle: string, email: string): string
  {
    source + " accepted " + (middle + " email: " + (email + "\n"))
  }

  /** An accepted line with an accounting email, as Xray writes it, is read back: its sanitised identity, its source, and the time of
      its prefix.  The prefix may hold anything, a severity for instance, in which the source marker does not occur already. */
  lemma AccessLineRoundTrip(prefix: string, source: string, middle: string, userId: string, inboundId: string, now: nat,
                            sourceIp: string -> string, logTime: (string, nat) -> nat)
    requires Index(prefix + "from ", "from ") == Some(|prefix|)
    requires NoSpace(source) && NoSpace(Sanitize(userId)) && NoSpace(Sanitize(inboundId))
    ensures var line := prefix + "from " + source + " accepted " + middle + " email: u:" + Sanitize(userId) + "|i:" + Sanitize(inboundId) + "\n";
            ParseAccessLine(line, now, sourceIp, logTime) ==
            if userId == "" || inboundId == "" || sourceIp(source) == "" then None
            else Some(Event(Sanitize(userId), Sanitize(inboundId), sourceIp(source), logTime(prefix, now)))
  {
    var rest := RestOf(source, middle, AccountingEmail(userId, inboundId));
    LineOfParts(prefix, rest, now, sourceIp, logTime);
    RestRoundTrip(source, middle, userId, inboundId, sourceIp);
    LineText(prefix, source, middle, Sanitize(userId), Sanitize(inboundId));
  }

  lemma LineText(prefix: string, source: string, middle: string, u: string, i: string)
    ensures prefix + "from " + RestOf(source, middle, "u:" + u + "|i:" + i) ==
            prefix + "from " + source + " accepted " + middle + " email: u:" + u + "|i:" + i + "\n"
  {
    TextRegroups(prefix + "from ", source + " accepted ", middle, u, i);
    assert RestOf(source, middle, "u:" + u + "|i:" + i) == source + " accepted " + (middle + " email: " + ("u:" + u + "|i:" + i + "\n"));
  }

  lemma TextRegroups(a: string, b: string, c: string, u: string, i: string)
    ensures a + (b + (c + " email: " + ("u:" + u + "|i:" + i + "\n"))) == a + b + c + " email: u:" + u + "|i:" + i + "\n"
  {
  }

  lemma LineOfParts(prefix: string, rest: string, now: nat, sourceIp: string -> string, logTime: (string, nat) -> nat)
    requires Index(prefix + "from ", "from ") == Some(|prefix|)
    ensures ParseAccessLine(prefix + "from " + rest, now, sourceIp, logTime) ==
            match ParseRest(rest, sourceIp)
            case None => None
            case Some((id, ip)) => Some(Event(id.userId, id.inboundId, ip, logTime(prefix, now)))
  {
    MarkerStaysFirst(prefix, rest);
  }

  lemma RestRoundTrip(source: string, middle: string, userId: string, inboundId: string, sourceIp: string -> string)
    requires NoSpace(source) && NoSpace(Sanitize(userId)) && NoSpace(Sanitize(inboundId))
    ensures ParseRest(RestOf(source, middle, AccountingEmail(userId, inboundId)), sourceIp) ==
            if userId == "" || inboundId == "" || sourceIp(source) == "" then None
            else Some((Identity(Sanitize(userId), Sanitize(inboundId)), sourceIp(source)))
  {
    EmailHasNoSpace(userId, inboundId);
    ParseFormattedEmail(userId, inboundId);
    RestOfParts(source, middle, AccountingEmail(userId, inboundId), sourceIp);
  }

  lemma RestOfParts(source: string, middle: string, email: string, sourceIp: string -> string)
    requires NoSpace(source) && NoSpace(email)
    ensures ParseRest(RestOf(source, middle, email), sourceIp) ==
            match ParseAccountingEmail(email)
            case None => None
            case Some(id) => if sourceIp(source) == "" then None else Some((id, sourceIp(source)))
  {
    RestParts(source, middle, email);
  }

  lemma SourcePart(source: string, tail: string)
    requires NoSpace(source)
    ensures var rest := source + " accepted " + tail;
            Index(rest, " accepted ") == Some(|source|) && TrimSpace(rest[..|source|]) == source
  {
    assert ' ' !in source;
    IndexBehind(source, " accepted ", tail);
    TrimIsIdentity(source);
  }

  lemma EmailPart(head: string, email: string)
    requires NoSpace(email)
    ensures var rest := head + " email: " + (email + "\n");
            LastIndex(rest, " email: ") == Some(|head|) && FirstWord(TrimSpace(rest[|head| + 8..])) == email
  {
    assert ' ' !in email + "\n";
    LastMarker(head, email + "\n");
    assert (head + " email: " + (email + "\n"))[|head| + 8..] == email + "\n";
    TrimLineEnd(email);
    FirstWordIsAll(email);
  }

  /** The text behind the source marker falls into the source, whatever was accepted, and the email. */
  lemma RestParts(source: string, middle: string, email: string)
    requires NoSpace(source) && NoSpace(email)
    ensures var rest, emailAt := RestOf(source, middle, email), |source| + 10 + |middle|;
            && Index(rest, " accepted ") == Some(|source|) && TrimSpace(rest[..|source|]) == source
            && LastIndex(rest, " email: ") == Some(emailAt) && FirstWord(TrimSpace(rest[emailAt + 8..])) == email
  {
    RestRegroups(source, middle, email);
    SourcePart(source, middle + " email: " + (email + "\n"));
    EmailPart(source + " accepted " + middle, email);
  }

  lemma RestRegroups(source: string, middle: string, email: string)
    ensures RestOf(source, middle, email) == source + " accepted " + middle + " email: " + (email + "\n")
    ensures |source + " accepted " + middle| == |source| + 10 + |middle|
  {
  }

  lemma StartsWith(s: string, p: string)
    requires |p| <= |s|
    ensures HasPrefix(s, p) <==> s[..|p|] == p
  {
  }

  /** What follows a marker does not make it occur earlier. */
  lemma MarkerStaysFirst(prefix: string, rest: string)
    requires Index(prefix + "from ", "from ") == Some(|prefix|)
    ensures Index(prefix + "from " + rest, "from ") == Some(|prefix|)
    ensures (prefix + "from " + rest)[..|prefix|] == prefix && (prefix + "from " + rest)[|prefix| + 5..] == rest
  {
    var head := prefix + "from ";
    var line := head + rest;
    IndexIsFirst(head, "from ", |prefix|);
    forall i | 0 <= i < |prefix| ensures !HasPrefix(line[i..], "from ") {
      assert line[i..][..5] == line[i..i + 5] == head[i..i + 5] == head[i..][..5];
      StartsWith(line[i..], "from ");
      StartsWith(head[i..], "from ");
    }
    assert line[|prefix|..] == "from " + rest;
    IndexIsFirst(line, "from ", |prefix|);
  }

  lemma EmailHasNoSpace(userId: string, inboundId: string)
    requires NoSpace(Sanitize(userId)) && NoSpace(Sanitize(inboundId))
    ensures NoSpace(AccountingEmail(userId, inboundId))
  {
  }

  /* ---------- Every line that is read ---------- */

  ghost predicate OccursAt(s: string, sub: string, i: nat)
  {
    i + |sub| <= |s| && s[i..i + |sub|] == sub
  }

  ghost predicate OccursFirst(s: string, sub: string, k: nat)
  {
    OccursAt(s, sub, k) && forall i: nat :: i < k ==> !OccursAt(s, sub, i)
  }

  ghost predicate OccursLast(s: string, sub: string, k: nat)
  {
    OccursAt(s, sub, k) && forall i: nat :: OccursAt(s, sub, i) ==> i <= k
  }

  lemma PrefixAt(s: string, sub: string, i: nat)
    requires i <= |s|
    ensures HasPrefix(s[i..], sub) <==> OccursAt(s, sub, i)
  {
    if i + |sub| <= |s| {
      assert s[i..][..|sub|] == s[i..i + |sub|];
      StartsWith(s[i..], sub);
    }
  }

  lemma IndexOccursFirst(s: string, sub: string, k: nat)
    requires Index(s, sub) == Some(k)
    ensures OccursFirst(s, sub, k)
  {
    IndexIsFirst(s, sub, k);
    PrefixAt(s, sub, k);
    forall i: nat | i < k ensures !OccursAt(s, sub, i) {
      PrefixAt(s, sub, i);
    }
  }

  lemma LastIndexOccursLast(s: string, sub: string, k: nat)
    requires sub != "" && LastIndex(s, sub) == Some(k)
    ensures OccursLast(s, sub, k)
  {
    LastIndexIsLast(s, sub, k);
    PrefixAt(s, sub, k);
    forall i: nat | OccursAt(s, sub, i) ensures i <= k {
      PrefixAt(s, sub, i);
    }
  }

  /** Blanks, tabs, line ends and the other white space below U+0100. */
  lemma SpaceMeaning(c: char)
    ensures Space(c) <==> var x := c as int; 9 <= x <= 13 || x == 32 || x == 133 || x == 160
  {
  }

  ghost predicate AllSpace(s: string)
  {
    forall c :: c in s ==> Space(c)
  }

  lemma {:induction false} TrimLeftMeaning(s: string) returns (a: string)
    ensures s == a + TrimLeft(s) && AllSpace(a) && (TrimLeft(s) != "" ==> !Space(TrimLeft(s)[0]))
    decreases |s|
  {
    if s != "" && Space(s[0]) {
      var b := TrimLeftMeaning(s[1..]);
      a := [s[0]] + b;
      assert s == [s[0]] + s[1..];
    } else {
      a := "";
    }
  }

  lemma {:induction false} TrimRightMeaning(s: string) returns (b: string)
    ensures s == TrimRight(s) + b && AllSpace(b) && (TrimRight(s) != "" ==> !Space(TrimRight(s)[|TrimRight(s)| - 1]))
    ensures TrimRight(s) <= s
    decreases |s|
  {
    if s != "" && Space(s[|s| - 1]) {
      var c := TrimRightMeaning(s[..|s| - 1]);
      b := c + [s[|s| - 1]];
      assert s == s[..|s| - 1] + [s[|s| - 1]];
    } else {
      b := "";
    }
  }

  /** Trimming takes away white space at both ends, and all of it. */
  lemma TrimMeaning(s: string) returns (a: string, b: string)
    ensures s == a + TrimSpace(s) + b && AllSpace(a) && AllSpace(b)
    ensures TrimSpace(s) != "" ==> !Space(TrimSpace(s)[0]) && !Space(TrimSpace(s)[|TrimSpace(s)| - 1])
  {
    a := TrimLeftMeaning(s);
    b := TrimRightMeaning(TrimLeft(s));
    assert s == a + (TrimSpace(s) + b);
    if TrimSpace(s) != "" {
      assert TrimSpace(s)[0] == TrimLeft(s)[0];
    }
  }

  predicate EndsWord(c: char)
  {
    c == ' ' || c == '\t' || c == '\r' || c == '\n'
  }

  /** The first word is what comes before the first blank, tab or line end. */
  lemma {:induction false} FirstWordMeaning(s: string)
    ensures FirstWord(s) <= s && (forall c :: c in FirstWord(s) ==> !EndsWord(c))
    ensures |FirstWord(s)| < |s| ==> EndsWord(s[|FirstWord(s)|])
    decreases |s|
  {
    if s != "" && s[0] !in " \t\r\n" {
      FirstWordMeaning(s[1..]);
      assert s == [s[0]] + s[1..];
      assert forall c :: c in FirstWord(s) ==> c == s[0] || c in FirstWord(s[1..]);
    }
  }

  /** What a line that is read must look like, and what is read from it: the source stands between the first source marker and the first
      acceptance behind it, the accounting email is the first word behind the last email marker, and the time is in front. */
  lemma AcceptedLineMeaning(line: string, now: nat, sourceIp: string -> string, logTime: (string, nat) -> nat)
    returns (fromAt: nat, acceptedAt: nat, emailAt: nat)
    requires ParseAccessLine(line, now, sourceIp, logTime).Some?
    ensures OccursFirst(line, "from ", fromAt)
    ensures var rest := line[fromAt + 5..];
            && OccursFirst(rest, " accepted ", acceptedAt) && OccursLast(rest, " email: ", emailAt)
            && var e := ParseAccessLine(line, now, sourceIp, logTime).value;
               && e.ip == sourceIp(TrimSpace(rest[..acceptedAt])) && e.ip != "" && e.at == logTime(line[..fromAt], now)
               && FirstWord(TrimSpace(rest[emailAt + 8..])) == "u:" + e.userId + "|i:" + e.inboundId
  {
    fromAt := Index(line, "from ").value;
    var rest := line[fromAt + 5..];
    acceptedAt := Index(rest, " accepted ").value;
    emailAt := LastIndex(rest, " email: ").value;
    IndexOccursFirst(line, "from ", fromAt);
    IndexOccursFirst(rest, " accepted ", acceptedAt);
    LastIndexOccursLast(rest, " email: ", emailAt);
    FormatParsedEmail(FirstWord(TrimSpace(rest[emailAt + 8..])));
  }

  /* ---------- The file across calls ---------- */

  const MAX_INITIAL_TAIL: nat := 8388608

  /** A file as a call finds it: its identity and its bytes. */
  datatype File = File(id: nat, content: string)

  /** What the tracker remembers between calls. */
  datatype Cursor = Cursor(offset: nat, last: Option<nat>)

  /** The position behind the next line end at or after `i`. */
  function LineEnd(s: string, i: nat): (r: Option<nat>)
    requires i <= |s|
    ensures r.Some? ==> i < r.value <= |s| && s[r.value - 1] == '\n' && '\n' !in s[i..r.value - 1]
    ensures r.None? ==> '\n' !in s[i..]
    decreases |s| - i
  {
    if i == |s| then None
    else if s[i] == '\n' then Some(i + 1)
    else LineEnd(s, i + 1)
  }

  /** The complete lines from `i` on, and the position behind the last of them. */
  function Lines(s: string, i: nat): seq<string>
    requires i <= |s|
    decreases |s| - i
  {
    match LineEnd(s, i)
    case None => []
    case Some(j) => [s[i..j]] + Lines(s, j)
  }

  function LastLineEnd(s: string, i: nat): (r: nat)
    requires i <= |s|
    ensures i <= r <= |s|
    decreases |s| - i
  {
    match LineEnd(s, i)
    case None => i
    case Some(j) => LastLineEnd(s, j)
  }

  /** Where a call starts: a replaced or shrunken file is read from its beginning. */
  function Resume(c: Cursor, f: File): nat
  {
    if (c.last.Some? && c.last.value != f.id) || |f.content| < c.offset then 0 else c.offset
  }

  predicate InitialTail(c: Cursor, f: File)
  {
    Resume(c, f) == 0 && |f.content| > MAX_INITIAL_TAIL
  }

  /** Reading a bounded tail starts behind its first line end. */
  function StartAt(c: Cursor, f: File): (r: nat)
    ensures r <= |f.content|
  {
    if InitialTail(c, f) then
      match LineEnd(f.content, |f.content| - MAX_INITIAL_TAIL)
      case None => |f.content|
      case Some(j) => j
    else Resume(c, f)
  }

  function Consumed(c: Cursor, f: File): (seq<string>, Cursor)
  {
    (Lines(f.content, StartAt(c, f)), Cursor(LastLineEnd(f.content, StartAt(c, f)), Some(f.id)))
  }

  /** The tracker after the events of these lines, in order. */
  function AddedLines(items: Items, lines: seq<string>, parse: string -> Option<Event>): Items
    decreases |lines|
  {
    if lines == [] then items else AddedLines(AddedLine(items, lines[0], parse), lines[1..], parse)
  }

  function AddedLine(items: Items, line: string, parse: string -> Option<Event>): Items
  {
    match parse(line)
    case None => items
    case Some(e) => Added(items, e)
  }

  method FindLineEnd(s: string, i: nat) returns (r: Option<nat>)
    requires i <= |s|
    ensures r == LineEnd(s, i)
  {
    var j := i;
    while j < |s|
      invariant i <= j <= |s| && LineEnd(s, i) == LineEnd(s, j)
    {
      if s[j] == '\n' {
        return Some(j + 1);
      }
      j := j + 1;
    }
    r := None;
  }

  function CursorOf(tracker: SessionTracker): Cursor
    reads tracker
  {
    Cursor(tracker.offset, tracker.last)
  }

  /** `ConsumeFile` without read errors; a missing file is no error and changes nothing. */
  method ConsumeFile(tracker: SessionTracker, file: Option<File>, parse: string -> Option<Event>)
    modifies tracker
    ensures file.None? ==> tracker.items == old(tracker.items) && CursorOf(tracker) == old(CursorOf(tracker))
    ensures file.Some? ==>
              var (lines, after) := Consumed(old(CursorOf(tracker)), file.value);
              CursorOf(tracker) == after && tracker.items == AddedLines(old(tracker.items), lines, parse)
  {
    if file.None? {
      return;
    }
    var start := FindStart(tracker, file.value);
    tracker.last := Some(file.value.id);
    tracker.offset := ConsumeLines(tracker, file.value.content, start, parse);
  }

  method FindStart(tracker: SessionTracker, file: File) returns (start: nat)
    ensures start == StartAt(CursorOf(tracker), file)
  {
    start := tracker.offset;
    if (tracker.last.Some? && tracker.last.value != file.id) || |file.content| < start {
      start := 0;
    }
    if start == 0 && |file.content| > MAX_INITIAL_TAIL {
      var partial := FindLineEnd(file.content, |file.content| - MAX_INITIAL_TAIL);
      start := if partial.Some? then partial.value else |file.content|;
    }
  }

  /** The reading loop; it stops at the end of the file, in front of a partial line. */
  method ConsumeLines(tracker: SessionTracker, s: string, start: nat, parse: string -> Option<Event>) returns (offset: nat)
    requires start <= |s|
    modifies tracker`items
    ensures offset == LastLineEnd(s, start)
    ensures tracker.items == AddedLines(old(tracker.items), Lines(s, start), parse)
  {
    offset := start;
    var line := FindLineEnd(s, offset);
    while line.Some?
      invariant start <= offset <= |s| && line == LineEnd(s, offset)
      invariant LastLineEnd(s, start) == LastLineEnd(s, offset)
      invariant AddedLines(old(tracker.items), Lines(s, start), parse) == AddedLines(tracker.items, Lines(s, offset), parse)
      decreases |s| - offset
    {
      var text := s[offset..line.value];
      FirstLine(tracker.items, text, Lines(s, line.value), parse);
      var event := parse(text);
      if event.Some? {
        tracker.Add(event.value);
      }
      offset := line.value;
      line := FindLineEnd(s, offset);
    }
  }

  lemma FirstLine(items: Items, line: string, rest: seq<string>, parse: string -> Option<Event>)
    ensures AddedLines(items, [line] + rest, parse) == AddedLines(AddedLine(items, line, parse), rest, parse)
  {
    assert ([line] + rest)[1..] == rest;
  }

  /* ---------- Exactly once ---------- */

  lemma {:induction false} LineEndStays(s: string, t: string, i: nat)
    requires s <= t && i <= |s| && LineEnd(s, i).Some?
    ensures LineEnd(t, i) == LineEnd(s, i)
    decreases |s| - i
  {
    if s[i] != '\n' {
      LineEndStays(s, t, i + 1);
    }
  }

  lemma Regroup<T>(a: seq<T>, b: seq<T>, c: seq<T>)
    ensures a + (b + c) == a + b + c
  {
  }

  /** When a file grows, its lines are the old complete ones and then those behind them. */
  lemma {:induction false} LinesGrow(s: string, t: string, i: nat)
    requires s <= t && i <= |s|
    ensures Lines(t, i) == Lines(s, i) + Lines(t, LastLineEnd(s, i))
    ensures LastLineEnd(t, i) == LastLineEnd(t, LastLineEnd(s, i))
    decreases |s| - i
  {
    match LineEnd(s, i)
    case None =>
      assert [] + Lines(t, i) == Lines(t, i);
    case Some(j) =>
      LineEndStays(s, t, i);
      LinesGrow(s, t, j);
      assert t[i..j] == s[i..j];
      Regroup([s[i..j]], Lines(s, j), Lines(t, LastLineEnd(s, j)));
  }

  /** The bytes behind the last line end hold no complete line; those before it are exactly the lines. */
  lemma {:induction false} LinesAreContent(s: string, i: nat)
    requires i <= |s|
    ensures Joined(Lines(s, i)) == s[i..LastLineEnd(s, i)] && '\n' !in s[LastLineEnd(s, i)..]
    decreases |s| - i
  {
    match LineEnd(s, i)
    case None =>
    case Some(j) =>
      LinesAreContent(s, j);
      assert ([s[i..j]] + Lines(s, j))[1..] == Lines(s, j);
      assert s[i..j] + s[j..LastLineEnd(s, j)] == s[i..LastLineEnd(s, j)];
  }

  function Joined(lines: seq<string>): string
  {
    if lines == [] then "" else lines[0] + Joined(lines[1..])
  }

  /** The cursor after the first `n` calls, and the lines they consumed. */
  function CallsAfter(c: Cursor, files: seq<File>, n: nat): (seq<string>, Cursor)
    requires n <= |files|
  {
    if n == 0 then ([], c) else
    var (lines, before) := CallsAfter(c, files, n - 1);
    var (more, after) := Consumed(before, files[n - 1]);
    (lines + more, after)
  }

  /** One file that is only appended to, and never read by its bounded tail. */
  ghost predicate AppendOnly(files: seq<File>)
  {
    && (forall i, j :: 0 <= i <= j < |files| ==> files[i].id == files[j].id && files[i].content <= files[j].content)
  }

  ghost predicate NoTail(files: seq<File>, n: nat)
    requires n < |files|
  {
    !InitialTail(CallsAfter(Cursor(0, None), files, n).1, files[n])
  }

  /** Over every sequence of calls on an append-only file: the lines consumed are all complete lines so far, each once and in
      order, and the offset stands right behind the last line end, so that a partial line waits for the next call. */
  lemma {:induction false} LogIsConsumedOnce(files: seq<File>, n: nat)
    requires 0 < n <= |files| && AppendOnly(files) && forall i :: 0 <= i < n ==> NoTail(files, i)
    ensures var (lines, c) := CallsAfter(Cursor(0, None), files, n);
            var content := files[n - 1].content;
            && lines == Lines(content, 0)
            && c == Cursor(LastLineEnd(content, 0), Some(files[n - 1].id))
            && Joined(lines) == content[..c.offset] && '\n' !in content[c.offset..]
  {
    var content := files[n - 1].content;
    assert NoTail(files, n - 1);
    if n > 1 {
      LogIsConsumedOnce(files, n - 1);
      assert files[n - 2].content <= content;
      LinesGrow(files[n - 2].content, content, 0);
    } else {
      assert CallsAfter(Cursor(0, None), files, 0) == ([], Cursor(0, None));
      assert [] + Lines(content, 0) == Lines(content, 0);
    }
    LinesAreContent(content, 0);
    assert content[0..LastLineEnd(content, 0)] == content[..LastLineEnd(content, 0)];
  }

  /** A first read of more than 8 MiB starts in its last 8 MiB, behind the first line end there, or at the end if there is none. */
  lemma BoundedTail(c: Cursor, f: File)
    requires c.offset == 0 && |f.content| > 8_388_608
    ensures var tail, start := |f.content| - 8_388_608, StartAt(c, f);
            if '\n' in f.content[tail..]
            then tail < start <= |f.content| && f.content[start - 1] == '\n' && '\n' !in f.content[tail..start - 1]
            else start == |f.content|
  {
  }

  /** A replaced or shrunken file starts again at its beginning, whatever came before. */
  lemma RotationRestarts(c: Cursor, f: File)
    requires (c.last.Some? && c.last.value != f.id) || |f.content| < c.offset
    requires |f.content| <= 8_388_608
    ensures Consumed(c, f) == (Lines(f.content, 0), Cursor(LastLineEnd(f.content, 0), Some(f.id)))
  {
  }
}
