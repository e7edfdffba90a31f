/** The synthetic Xray identity `u:<user>|i:<inbound>` and the parser of Xray's user counter names. */
module Accounting {
  import opened Text

  datatype Identity = Identity(userId: string, inboundId: string)
  datatype CounterName = CounterName(userId: string, inboundId: string, direction: string)

  predicate Reserved(c: char)
  {
    c == '>' || c == '|' || c == ' '
  }

  function Sanitize(s: string): (r: string)
    ensures |r| == |s|
    ensures forall c :: c in r ==> !Reserved(c)
  {
    seq(|s|, i requires 0 <= i < |s| => if Reserved(s[i]) then '_' else s[i])
  }

  predicate Clean(s: string)
  {
    forall c :: c in s ==> !Reserved(c)
  }

  /** An ID is unchanged exactly when it has no `>`, no `|` and no blank; each of these becomes an underscore, and nothing else changes. */
  lemma SanitizeFixpoint(s: string)
    ensures Sanitize(s) == s <==> '>' !in s && '|' !in s && ' ' !in s
    ensures Clean(s) <==> '>' !in s && '|' !in s && ' ' !in s
    ensures forall i :: 0 <= i < |s| ==> Sanitize(s)[i] == if s[i] == '>' || s[i] == '|' || s[i] == ' ' then '_' else s[i]
  {
    if Clean(s) {
      assert !Reserved('_') && Reserved('>') && Reserved('|') && Reserved(' ');
      forall i | 0 <= i < |s| ensures Sanitize(s)[i] == s[i] {
        assert s[i] in s;
      }
    } else {
      var c :| c in s && Reserved(c);
      assert c !in Sanitize(s);
    }
  }

  function AccountingEmail(userId: string, inboundId: string): string
  {
    "u:" + Sanitize(userId) + "|i:" + Sanitize(inboundId)
  }

  function ParseAccountingEmail(email: string): Option<Identity>
  {
    if !HasPrefix(email, "u:") then None else
    var rest := email[2..];
    match Index(rest, "|i:")
    case None => None
    case Some(i) =>
      if rest[..i] == "" || rest[i + 3..] == "" then None
      else Some(Identity(rest[..i], rest[i + 3..]))
  }

  function ParseAccountingName(name: string): Option<CounterName>
  {
    var parts := Split(name, ">>>");
    if |parts| != 4 || parts[0] != "user" || parts[2] != "traffic" then None else
    match ParseAccountingEmail(parts[1])
    case None => None
    case Some(id) => Some(CounterName(id.userId, id.inboundId, parts[3]))
  }

  /** Xray's name for a user counter. */
  function StatName(email: string, direction: string): string
  {
    "user" + ">>>" + (email + ">>>" + ("traffic" + ">>>" + direction))
  }

  /** Parsing undoes formatting, and fails only for the empty IDs `buildInbound` and the panel never send. */
  lemma ParseFormattedEmail(userId: string, inboundId: string)
    ensures ParseAccountingEmail(AccountingEmail(userId, inboundId)) ==
            if userId == "" || inboundId == "" then None
            else Some(Identity(Sanitize(userId), Sanitize(inboundId)))
  {
    var u, i := Sanitize(userId), Sanitize(inboundId);
    assert AccountingEmail(userId, inboundId)[2..] == u + "|i:" + i;
    IndexBehind(u, "|i:", i);
  }

  /** Whatever the parser accepts is the text it was given. */
  lemma FormatParsedEmail(email: string)
    requires ParseAccountingEmail(email).Some?
    ensures var id := ParseAccountingEmail(email).value;
            email == "u:" + id.userId + "|i:" + id.inboundId
  {
    var rest := email[2..];
    var i := Index(rest, "|i:").value;
    IndexIsFirst(rest, "|i:", i);
    assert rest == rest[..i] + rest[i..];
    assert rest[i..] == "|i:" + rest[i + 3..];
  }

  lemma EmailsEqual(u0: string, i0: string, u1: string, i1: string)
    ensures AccountingEmail(u0, i0) == AccountingEmail(u1, i1) <==> Sanitize(u0) == Sanitize(u1) && Sanitize(i0) == Sanitize(i1)
  {
    if AccountingEmail(u0, i0) == AccountingEmail(u1, i1) {
      var a, b := Sanitize(u0) + "|i:" + Sanitize(i0), Sanitize(u1) + "|i:" + Sanitize(i1);
      assert AccountingEmail(u0, i0)[2..] == a && AccountingEmail(u1, i1)[2..] == b;
      IndexBehind(Sanitize(u0), "|i:", Sanitize(i0));
      IndexBehind(Sanitize(u1), "|i:", Sanitize(i1));
    }
  }

  lemma SplitTwo(a: string, b: string, tail: string, sep: string)
    requires sep != "" && sep[0] !in a && sep[0] !in b
    ensures Split(a + sep + (b + sep + tail), sep) == [a, b] + Split(tail, sep)
  {
    var rest := b + sep + tail;
    SplitBehind(a, sep, rest);
    SplitBehind(b, sep, tail);
    assert [a] + ([b] + Split(tail, sep)) == [a, b] + Split(tail, sep);
  }

  lemma SplitFour(a: string, b: string, c: string, d: string, sep: string)
    requires sep != "" && sep[0] !in a && sep[0] !in b && sep[0] !in c
    ensures Split(a + sep + (b + sep + (c + sep + d)), sep) == [a, b, c] + Split(d, sep)
  {
    SplitTwo(a, b, c + sep + d, sep);
    SplitBehind(c, sep, d);
    ThreeAndMore(a, b, c, Split(d, sep));
  }

  lemma ThreeAndMore(a: string, b: string, c: string, rest: seq<string>)
    ensures [a, b] + ([c] + rest) == [a, b, c] + rest
  {
  }

  lemma EmailHasNoSeparator(userId: string, inboundId: string)
    ensures '>' !in AccountingEmail(userId, inboundId)
  {
    var u, i := Sanitize(userId), Sanitize(inboundId);
    assert !Reserved('_') && Reserved('>');
  }

  /** The counter name of a user parses back to its sanitised IDs and direction exactly when both IDs are non-empty and
      the direction does not contain the separator. */
  lemma CounterNameRoundTrip(userId: string, inboundId: string, direction: string)
    ensures ParseAccountingName(StatName(AccountingEmail(userId, inboundId), direction)) ==
            if userId != "" && inboundId != "" && !Contains(direction, ">>>")
            then Some(CounterName(Sanitize(userId), Sanitize(inboundId), direction))
            else None
  {
    var email := AccountingEmail(userId, inboundId);
    EmailHasNoSeparator(userId, inboundId);
    SplitFour("user", email, "traffic", direction, ">>>");
    ParseFormattedEmail(userId, inboundId);
    if Contains(direction, ">>>") {
      var i := Index(direction, ">>>").value;
      assert |Split(direction, ">>>")| >= 2;
    }
  }

  /** The text of a counter name, as Xray writes it for an accounting email. */
  lemma CounterNameText(userId: string, inboundId: string, direction: string)
    ensures StatName(AccountingEmail(userId, inboundId), direction) ==
            "user>>>u:" + Sanitize(userId) + "|i:" + Sanitize(inboundId) + ">>>traffic>>>" + direction
  {
    NameRegroups(Sanitize(userId), Sanitize(inboundId), direction);
  }

  lemma NameRegroups(u: string, i: string, d: string)
    ensures "user" + ">>>" + ("u:" + u + "|i:" + i + ">>>" + ("traffic" + ">>>" + d)) == "user>>>u:" + u + "|i:" + i + ">>>traffic>>>" + d
  {
  }

  /** Whatever the counter parser accepts is a counter name of the two IDs and the direction it returns. */
  lemma FormatParsedName(name: string)
    requires ParseAccountingName(name).Some?
    ensures var c := ParseAccountingName(name).value;
            name == "user>>>u:" + c.userId + "|i:" + c.inboundId + ">>>traffic>>>" + c.direction
  {
    var parts := Split(name, ">>>");
    JoinSplit(name, ">>>");
    JoinFour(parts, ">>>");
    FormatParsedEmail(parts[1]);
    var c := ParseAccountingName(name).value;
    assert parts[1] == "u:" + c.userId + "|i:" + c.inboundId;
    NameRegroups(c.userId, c.inboundId, c.direction);
  }

  lemma JoinFour(parts: seq<string>, sep: string)
    requires |parts| == 4
    ensures Join(parts, sep) == parts[0] + sep + (parts[1] + sep + (parts[2] + sep + parts[3]))
  {
    assert parts[1..][1..] == parts[2..] && parts[2..][1..] == parts[3..];
    assert Join(parts[3..], sep) == parts[3];
    assert Join(parts[2..], sep) == parts[2] + sep + Join(parts[3..], sep);
    assert Join(parts[1..], sep) == parts[1] + sep + Join(parts[2..], sep);
  }

  /** For IDs without reserved characters the counters carry the panel's own IDs. */
  lemma CleanCounterNameRoundTrip(userId: string, inboundId: string, direction: string)
    requires userId != "" && inboundId != "" && !Contains(direction, ">>>")
    ensures ParseAccountingName(StatName(AccountingEmail(userId, inboundId), direction)) ==
              Some(CounterName(userId, inboundId, direction))
            <==> Clean(userId) && Clean(inboundId)
  {
    CounterNameRoundTrip(userId, inboundId, direction);
    SanitizeFixpoint(userId);
    SanitizeFixpoint(inboundId);
  }
}
