/** The tracker and the log it reads, together: over any run of synchronisations, each of which reads the access log and then
    reports, every report is what the complete lines of the log say. */
module SessionRuns {
  import opened Model
  import opened Text
  import opened Tracker
  import opened AccessLog

  /** One synchronisation: the file it finds, how it reads a line at that time, and the cutoff of its report. */
  datatype Cycle = Cycle(file: File, parse: string -> Option<Event>, cutoff: int)

  function EventsOf(o: Option<Event>): seq<Event>
  {
    match o
    case None => []
    case Some(e) => [e]
  }

  /** The events of these lines, in order. */
  function Parsed(lines: seq<string>, parse: string -> Option<Event>): seq<Event>
    decreases |lines|
  {
    if lines == [] then [] else EventsOf(parse(lines[0])) + Parsed(lines[1..], parse)
  }

  function CursorBefore(cycles: seq<Cycle>, n: nat): Cursor
    requires n <= |cycles|
  {
    if n == 0 then Cursor(0, None) else Consumed(CursorBefore(cycles, n - 1), cycles[n - 1].file).1
  }

  function NewLines(cycles: seq<Cycle>, n: nat): seq<string>
    requires n < |cycles|
  {
    Consumed(CursorBefore(cycles, n), cycles[n].file).0
  }

  /** The tracker's map after `n` synchronisations: `ConsumeFile` and then `Records`, each time. */
  function ItemsAfterCycles(cycles: seq<Cycle>, n: nat): Items
    requires n <= |cycles|
  {
    if n == 0 then map[] else
    PrunedItems(AddedLines(ItemsAfterCycles(cycles, n - 1), NewLines(cycles, n - 1), cycles[n - 1].parse), cycles[n - 1].cutoff)
  }

  /** Every event read so far. */
  function LogAfterCycles(cycles: seq<Cycle>, n: nat): seq<Event>
    requires n <= |cycles|
  {
    if n == 0 then [] else LogAfterCycles(cycles, n - 1) + Parsed(NewLines(cycles, n - 1), cycles[n - 1].parse)
  }

  method RunCycle(tracker: SessionTracker, cycle: Cycle) returns (rows: seq<SessionRecord>)
    modifies tracker
    ensures var (lines, after) := Consumed(old(CursorOf(tracker)), cycle.file);
            && CursorOf(tracker) == after
            && tracker.items == PrunedItems(AddedLines(old(tracker.items), lines, cycle.parse), cycle.cutoff)
    ensures IsReport(rows, tracker.items)
  {
    ConsumeFile(tracker, Some(cycle.file), cycle.parse);
    rows := tracker.Records(cycle.cutoff);
  }

  lemma {:induction false} LinesKeepInv(items: Items, log: seq<Event>, lines: seq<string>, parse: string -> Option<Event>, c0: int)
    requires Tracker.Inv(items, log, c0)
    ensures Tracker.Inv(AddedLines(items, lines, parse), log + Parsed(lines, parse), c0)
    decreases |lines|
  {
    if lines == [] {
      assert log + [] == log;
    } else {
      LineKeepsInv(items, log, lines[0], parse, c0);
      LinesKeepInv(AddedLine(items, lines[0], parse), log + EventsOf(parse(lines[0])), lines[1..], parse, c0);
      Regroup(log, EventsOf(parse(lines[0])), Parsed(lines[1..], parse));
    }
  }

  lemma LineKeepsInv(items: Items, log: seq<Event>, line: string, parse: string -> Option<Event>, c0: int)
    requires Tracker.Inv(items, log, c0)
    ensures Tracker.Inv(AddedLine(items, line, parse), log + EventsOf(parse(line)), c0)
  {
    match parse(line)
    case None =>
      assert log + [] == log;
    case Some(e) =>
      AddKeepsInv(items, log, e, c0);
  }

  /** The cutoffs never go back, and never before `c0`. */
  ghost predicate ForwardCycles(cycles: seq<Cycle>, c0: int)
  {
    && (forall i :: 0 <= i < |cycles| ==> c0 <= cycles[i].cutoff)
    && forall i, j :: 0 <= i <= j < |cycles| ==> cycles[i].cutoff <= cycles[j].cutoff
  }

  function LastCutoff(cycles: seq<Cycle>, c0: int, n: nat): int
    requires n <= |cycles|
  {
    if n == 0 then c0 else cycles[n - 1].cutoff
  }

  lemma {:induction false} CyclesKeepInv(cycles: seq<Cycle>, c0: int, n: nat)
    requires ForwardCycles(cycles, c0) && n <= |cycles|
    ensures Tracker.Inv(ItemsAfterCycles(cycles, n), LogAfterCycles(cycles, n), LastCutoff(cycles, c0, n))
  {
    if n == 0 {
      EmptyAgrees(c0);
    } else {
      CyclesKeepInv(cycles, c0, n - 1);
      var items, log := ItemsAfterCycles(cycles, n - 1), LogAfterCycles(cycles, n - 1);
      var lines, parse := NewLines(cycles, n - 1), cycles[n - 1].parse;
      LinesKeepInv(items, log, lines, parse, LastCutoff(cycles, c0, n - 1));
      PruneKeepsInv(AddedLines(items, lines, parse), log + Parsed(lines, parse), LastCutoff(cycles, c0, n - 1), cycles[n - 1].cutoff);
    }
  }

  /** Each report of the run is what all events read so far give. */
  lemma CycleReportsTheLog(cycles: seq<Cycle>, c0: int, n: nat, rows: seq<SessionRecord>)
    requires ForwardCycles(cycles, c0) && n < |cycles| && IsReport(rows, ItemsAfterCycles(cycles, n + 1))
    ensures MatchesLog(rows, LogAfterCycles(cycles, n + 1), cycles[n].cutoff)
  {
    CyclesKeepInv(cycles, c0, n);
    var items, log := ItemsAfterCycles(cycles, n), LogAfterCycles(cycles, n);
    var lines, parse := NewLines(cycles, n), cycles[n].parse;
    LinesKeepInv(items, log, lines, parse, LastCutoff(cycles, c0, n));
    ReportMatchesLog(AddedLines(items, lines, parse), log + Parsed(lines, parse), LastCutoff(cycles, c0, n), cycles[n].cutoff, rows);
  }

  /* ---------- The events read are those of the file ---------- */

  function View(f: Event -> Event, o: Option<Event>): Option<Event>
  {
    match o
    case None => None
    case Some(e) => Some(f(e))
  }

  function Views(f: Event -> Event, log: seq<Event>): seq<Event>
  {
    seq(|log|, i requires 0 <= i < |log| => f(log[i]))
  }

  lemma ViewsConcat(f: Event -> Event, a: seq<Event>, b: seq<Event>)
    ensures Views(f, a + b) == Views(f, a) + Views(f, b)
  {
  }

  lemma {:induction false} ParsedConcat(a: seq<string>, b: seq<string>, parse: string -> Option<Event>)
    ensures Parsed(a + b, parse) == Parsed(a, parse) + Parsed(b, parse)
    decreases |a|
  {
    if a == [] {
      assert a + b == b;
    } else {
      assert (a + b)[1..] == a[1..] + b;
      ParsedConcat(a[1..], b, parse);
    }
  }

  /** Ways of reading a line that look alike through `f` give events that do. */
  lemma {:induction false} ParsedAlike(lines: seq<string>, f: Event -> Event, p: string -> Option<Event>, q: string -> Option<Event>)
    requires forall line :: View(f, p(line)) == View(f, q(line))
    ensures Views(f, Parsed(lines, p)) == Views(f, Parsed(lines, q))
    decreases |lines|
  {
    if lines != [] {
      ParsedAlike(lines[1..], f, p, q);
      assert View(f, p(lines[0])) == View(f, q(lines[0]));
      var a, b := EventsOf(p(lines[0])), EventsOf(q(lines[0]));
      ViewsConcat(f, a, Parsed(lines[1..], p));
      ViewsConcat(f, b, Parsed(lines[1..], q));
      assert Views(f, a) == Views(f, b);
    }
  }

  function FilesOf(cycles: seq<Cycle>): seq<File>
  {
    seq(|cycles|, i requires 0 <= i < |cycles| => cycles[i].file)
  }

  /** All synchronisations read lines alike, as seen through `f`. */
  ghost predicate ReadAlike(cycles: seq<Cycle>, f: Event -> Event, parse: string -> Option<Event>)
  {
    forall i, line :: 0 <= i < |cycles| ==> View(f, cycles[i].parse(line)) == View(f, parse(line))
  }

  /** After `n` synchronisations the cursor is that of the calls, and the events look like those of the lines of the calls. */
  ghost predicate LikeCalls(cycles: seq<Cycle>, n: nat, f: Event -> Event, parse: string -> Option<Event>)
    requires n <= |cycles|
  {
    var (lines, cursor) := CallsAfter(Cursor(0, None), FilesOf(cycles), n);
    cursor == CursorBefore(cycles, n) && Views(f, LogAfterCycles(cycles, n)) == Views(f, Parsed(lines, parse))
  }

  lemma NoCall(cycles: seq<Cycle>, f: Event -> Event, parse: string -> Option<Event>)
    ensures LikeCalls(cycles, 0, f, parse)
  {
  }

  lemma OneMoreCall(cycles: seq<Cycle>, n: nat, f: Event -> Event, parse: string -> Option<Event>)
    requires n < |cycles| && ReadAlike(cycles, f, parse) && LikeCalls(cycles, n, f, parse)
    ensures LikeCalls(cycles, n + 1, f, parse)
  {
    var before, lines := CallsAfter(Cursor(0, None), FilesOf(cycles), n).0, NewLines(cycles, n);
    assert CallsAfter(Cursor(0, None), FilesOf(cycles), n + 1).0 == before + lines;
    ParsedAlike(lines, f, cycles[n].parse, parse);
    ParsedConcat(before, lines, parse);
    ViewsConcat(f, Parsed(before, parse), Parsed(lines, parse));
    ViewsConcat(f, LogAfterCycles(cycles, n), Parsed(lines, cycles[n].parse));
  }

  lemma {:induction false} CyclesAreCalls(cycles: seq<Cycle>, n: nat, f: Event -> Event, parse: string -> Option<Event>)
    requires n <= |cycles| && ReadAlike(cycles, f, parse)
    ensures LikeCalls(cycles, n, f, parse)
  {
    if n == 0 {
      NoCall(cycles, f, parse);
    } else {
      CyclesAreCalls(cycles, n - 1, f, parse);
      OneMoreCall(cycles, n - 1, f, parse);
    }
  }

  /** Over any run on a file that is only appended to, the tracker has been given the events of exactly the complete lines of the
      file, each once and in order.  With `f` the identity this holds to the letter; with an `f` that forgets the time it holds
      although a line without a time of its own is read with the clock of its synchronisation. */
  lemma TrackerHasReadTheFile(cycles: seq<Cycle>, n: nat, f: Event -> Event, parse: string -> Option<Event>)
    requires 0 < n <= |cycles| && AppendOnly(FilesOf(cycles)) && forall i :: 0 <= i < n ==> NoTail(FilesOf(cycles), i)
    requires ReadAlike(cycles, f, parse)
    ensures Views(f, LogAfterCycles(cycles, n)) == Views(f, Parsed(Lines(cycles[n - 1].file.content, 0), parse))
  {
    var content := cycles[n - 1].file.content;
    AllCycleLines(cycles, n);
    assert CallsAfter(Cursor(0, None), FilesOf(cycles), n).0 == Lines(content, 0);
    CyclesAreCalls(cycles, n, f, parse);
  }

  lemma AllCycleLines(cycles: seq<Cycle>, n: nat)
    requires 0 < n <= |cycles| && AppendOnly(FilesOf(cycles)) && forall i :: 0 <= i < n ==> NoTail(FilesOf(cycles), i)
    ensures CallsAfter(Cursor(0, None), FilesOf(cycles), n).0 == Lines(cycles[n - 1].file.content, 0)
  {
    AllLinesCalled(FilesOf(cycles), n);
  }

  lemma AllLinesCalled(files: seq<File>, n: nat)
    requires 0 < n <= |files| && AppendOnly(files) && forall i :: 0 <= i < n ==> NoTail(files, i)
    ensures CallsAfter(Cursor(0, None), files, n).0 == Lines(files[n - 1].content, 0)
  {
    LogIsConsumedOnce(files, n);
  }
}
