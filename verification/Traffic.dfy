/** Durable traffic delivery: the spool (internal/traffic/spool.go), the retry and collect steps of the agent
    (internal/agent/agent.go), and a panel that claims each event ID once. */
module Traffic {
  import opened Model
  import opened Text
  import opened Order
  import opened Accounting
  import opened Policy

  /** A spooled file is found under its event ID; temporary files have another suffix and are never listed. */
  type Files = map<string, TrafficBatch>

  /** `ledger` is what the panel has billed so far; `seen` are the event IDs it has claimed. */
  datatype State = State(spool: Files, seen: set<string>, ledger: map<UsageKey, int>)

  /** What a post can come to: billed and answered, billed with the answer lost, or not billed. */
  datatype Reply = Accepted | Lost | Refused

  /* ---------- The panel ---------- */

  function Charged(ledger: map<UsageKey, int>, records: seq<TrafficRecord>, n: nat): map<UsageKey, int>
    requires n <= |records|
  {
    if n == 0 then ledger else
    var before, r := Charged(ledger, records, n - 1), records[n - 1];
    if r.userId != "" && r.inboundId != "" && r.value > 0 then
      var k := UsageKey(r.userId, r.inboundId);
      before[k := Get(before, k) + r.value]
    else before
  }

  lemma {:induction false} ChargedMeaning(ledger: map<UsageKey, int>, records: seq<TrafficRecord>, n: nat, k: UsageKey)
    requires n <= |records|
    ensures Get(Charged(ledger, records, n), k) == Get(ledger, k) + Usage(records, n, k)
  {
    if n > 0 {
      ChargedMeaning(ledger, records, n - 1, k);
    }
  }

  /** The panel claims the event ID in the same step that bills it, and ignores an ID it has claimed. */
  function Committed(s: State, batch: TrafficBatch): State
  {
    if batch.eventId in s.seen then s else
    s.(seen := s.seen + {batch.eventId}, ledger := Charged(s.ledger, batch.records, |batch.records|))
  }

  function Posted(s: State, batch: TrafficBatch, reply: Reply): State
  {
    if reply.Refused? then s else Committed(s, batch)
  }

  /* ---------- The spool and the agent ---------- */

  predicate BatchLess(a: TrafficBatch, b: TrafficBatch)
  {
    if a.collectedAt == b.collectedAt then StrLess(a.eventId, b.eventId) else a.collectedAt < b.collectedAt
  }

  lemma BatchLessOrder()
    ensures StrictOrder(BatchLess)
  {
    forall a, b | BatchLess(a, b) ensures !BatchLess(b, a) {
      if a.collectedAt == b.collectedAt { StrLessAsymmetric(a.eventId, b.eventId); }
    }
    forall a, b, c | BatchLess(a, b) && !BatchLess(c, b) ensures BatchLess(a, c) {
      if a.collectedAt == b.collectedAt == c.collectedAt {
        StrLessConnected(b.eventId, c.eventId);
        if b.eventId != c.eventId { StrLessTransitive(a.eventId, b.eventId, c.eventId); }
      }
    }
  }

  ghost predicate Keyed(files: Files)
  {
    forall id :: id in files ==> files[id].eventId == id
  }

  /** The result of `List`: every spooled batch once, by collection time and then event ID. */
  ghost predicate IsListing(list: seq<TrafficBatch>, files: Files)
  {
    && Sorted(BatchLess, list) && NoRepeat(list)
    && forall b :: b in list <==> b.eventId in files && files[b.eventId] == b
  }

  lemma ListingIsUnique(a: seq<TrafficBatch>, b: seq<TrafficBatch>, files: Files)
    requires IsListing(a, files) && IsListing(b, files)
    ensures a == b
  {
    BatchLessOrder();
    forall x ensures multiset(a)[x] == multiset(b)[x] {
      NoRepeatMultiset(a, x);
      NoRepeatMultiset(b, x);
    }
    assert multiset(a) == multiset(b);
    forall x, y | x in a && y in a && x != y ensures BatchLess(x, y) || BatchLess(y, x) {
      StrLessConnected(x.eventId, y.eventId);
    }
    SortedPermutationsAgree(BatchLess, a, b);
  }

  /** Batches are listed by the time they were collected, and at one time by event ID. */
  lemma ListingOrder(list: seq<TrafficBatch>, files: Files, i: nat, j: nat)
    requires IsListing(list, files) && i < j < |list|
    ensures list[i].collectedAt < list[j].collectedAt || (list[i].collectedAt == list[j].collectedAt && StrLess(list[i].eventId, list[j].eventId))
  {
    assert list[i] in list && list[j] in list;
    StrLessConnected(list[i].eventId, list[j].eventId);
  }

  /** What the outside decides during one retry pass. */
  datatype Env = Env(replies: nat -> Reply, deletes: nat -> bool)

  /** The pass from batch `i` on.  It stops at the first post without a success answer and at the first failed delete, which
      is also what a crash at any point of the pass leaves behind. */
  function RetryPass(s: State, list: seq<TrafficBatch>, env: Env, i: nat): State
    requires i <= |list|
    decreases |list| - i
  {
    if i == |list| then s else
    var posted := Posted(s, list[i], env.replies(i));
    if !env.replies(i).Accepted? || !env.deletes(i) then posted
    else RetryPass(posted.(spool := posted.spool - {list[i].eventId}), list, env, i + 1)
  }

  function Collected(s: State, batch: TrafficBatch, stored: bool, reply: Reply, deleted: bool): State
  {
    if batch.eventId == "" || !stored then s else
    var posted := Posted(s.(spool := s.spool[batch.eventId := batch]), batch, reply);
    if reply.Accepted? && deleted then posted.(spool := posted.spool - {batch.eventId}) else posted
  }

  class Spool {
    var files: Files

    constructor ()
      ensures files == map[]
    {
      files := map[];
    }

    /** Writing the temporary file and renaming it is one step that succeeds or not. */
    method Enqueue(batch: TrafficBatch, written: bool) returns (ok: bool)
      modifies this
      ensures ok == (batch.eventId != "" && written)
      ensures files == if ok then old(files)[batch.eventId := batch] else old(files)
    {
      ok := batch.eventId != "" && written;
      if ok {
        files := files[batch.eventId := batch];
      }
    }

    /** Deleting a file that is not there is no error. */
    method Delete(eventId: string, removed: bool) returns (ok: bool)
      modifies this
      ensures ok == (removed || eventId !in old(files))
      ensures files == if removed then old(files) - {eventId} else old(files)
    {
      ok := removed || eventId !in files;
      if removed {
        files := files - {eventId};
      }
    }

    method List() returns (list: seq<TrafficBatch>)
      requires Keyed(files)
      ensures IsListing(list, files)
    {
      var todo := files.Keys;
      list := [];
      while todo != {}
        invariant todo <= files.Keys && NoRepeat(list)
        invariant forall b :: b in list <==> b.eventId in files && b.eventId !in todo && files[b.eventId] == b
        decreases |todo|
      {
        var id :| id in todo;
        assert files[id] !in list;
        list := list + [files[id]];
        todo := todo - {id};
      }
      var unsorted := list;
      list := Sort(BatchLess, unsorted);
      BatchLessOrder();
      SortSorts(BatchLess, unsorted);
      SameElements(list, unsorted);
      PermutationNoRepeat(unsorted, list);
    }

    /** The bytes still in the spool, by key. */
    method PendingUsage() returns (usage: map<UsageKey, int>)
      requires Keyed(files)
      ensures exists list :: IsListing(list, files) && forall k :: Get(usage, k) == TotalUsage(list, |list|, k)
    {
      var list := List();
      usage := map[];
      for i := 0 to |list|
        invariant forall k :: Get(usage, k) == TotalUsage(list, i, k)
      {
        var more := Policy.PendingUsage(list[i].records);
        usage := MergeUsage(usage, more);
      }
    }
  }

  /** The panel's side of one post. */
  class Panel {
    var seen: set<string>
    var ledger: map<UsageKey, int>

    constructor ()
      ensures seen == {} && ledger == map[]
    {
      seen, ledger := {}, map[];
    }

    method Post(batch: TrafficBatch, reply: Reply) returns (ok: bool)
      modifies this
      ensures ok == reply.Accepted?
      ensures State(map[], seen, ledger) == Posted(State(map[], old(seen), old(ledger)), batch, reply)
    {
      ok := reply.Accepted?;
      if reply.Refused? || batch.eventId in seen {
        return;
      }
      seen := seen + {batch.eventId};
      for i := 0 to |batch.records|
        invariant ledger == Charged(old(ledger), batch.records, i)
        invariant seen == old(seen) + {batch.eventId}
      {
        var r := batch.records[i];
        if r.userId != "" && r.inboundId != "" && r.value > 0 {
          var k := UsageKey(r.userId, r.inboundId);
          ledger := ledger[k := Get(ledger, k) + r.value];
        }
      }
    }
  }

  method RetryTraffic(spool: Spool, panel: Panel, env: Env) returns (ghost list: seq<TrafficBatch>)
    requires Keyed(spool.files)
    modifies spool, panel
    ensures IsListing(list, old(spool.files))
    ensures State(spool.files, panel.seen, panel.ledger) ==
            RetryPass(State(old(spool.files), old(panel.seen), old(panel.ledger)), list, env, 0)
  {
    var batches := spool.List();
    list := batches;
    ghost var s0 := State(spool.files, panel.seen, panel.ledger);
    for i := 0 to |batches|
      invariant RetryPass(s0, batches, env, 0) == RetryPass(State(spool.files, panel.seen, panel.ledger), batches, env, i)
      invariant Waiting(batches, spool.files, i)
    {
      DeletedOnce(batches, old(spool.files), spool.files, i);
      var posted := panel.Post(batches[i], env.replies(i));
      if !posted {
        return;
      }
      var deleted := spool.Delete(batches[i].eventId, env.deletes(i));
      if !deleted {
        return;
      }
    }
  }

  /** The rest of a listing is still in the spool. */
  ghost predicate Waiting(list: seq<TrafficBatch>, files: Files, i: nat)
  {
    forall k :: i <= k < |list| ==> list[k].eventId in files
  }

  lemma DeletedOnce(list: seq<TrafficBatch>, listed: Files, files: Files, i: nat)
    requires IsListing(list, listed) && i < |list| && Waiting(list, files, i)
    ensures Waiting(list, files - {list[i].eventId}, i + 1)
  {
    forall k | i < k < |list| ensures list[k].eventId != list[i].eventId {
      assert list[k] in list && list[i] in list;
    }
  }

  method CollectTraffic(spool: Spool, panel: Panel, batch: TrafficBatch, written: bool, reply: Reply, removed: bool)
    modifies spool, panel
    ensures State(spool.files, panel.seen, panel.ledger) ==
            Collected(State(old(spool.files), old(panel.seen), old(panel.ledger)), batch, written, reply, removed)
  {
    var stored := spool.Enqueue(batch, written);
    if !stored {
      return;
    }
    var posted := panel.Post(batch, reply);
    if !posted {
      return;
    }
    var _ := spool.Delete(batch.eventId, removed);
  }

  function Ids(list: seq<TrafficBatch>, from: nat, to: nat): set<string>
    requires to <= |list|
  {
    set k | from <= k < to :: list[k].eventId
  }

  /** One retry pass takes a prefix of the sorted spool out of it, and nothing else. */
  lemma {:induction false} RetryRemovesPrefix(s: State, list: seq<TrafficBatch>, env: Env, i: nat) returns (m: nat)
    requires i <= |list|
    ensures i <= m <= |list|
    ensures RetryPass(s, list, env, i).spool == s.spool - Ids(list, i, m)
    ensures forall k :: i <= k < m ==> env.replies(k).Accepted? && env.deletes(k)
    ensures m < |list| ==> !env.replies(m).Accepted? || !env.deletes(m)
    decreases |list| - i
  {
    if i == |list| || !env.replies(i).Accepted? || !env.deletes(i) {
      m := i;
      assert Ids(list, i, m) == {};
    } else {
      var posted := Posted(s, list[i], env.replies(i));
      m := RetryRemovesPrefix(posted.(spool := posted.spool - {list[i].eventId}), list, env, i + 1);
      assert Ids(list, i, m) == {list[i].eventId} + Ids(list, i + 1, m);
    }
  }

  /** What one pass makes the panel claim: the batches it posts with success, and the one it stops at unless that is refused. */
  lemma {:induction false} RetryPosts(s: State, list: seq<TrafficBatch>, env: Env, i: nat, id: string) returns (m: nat)
    requires i <= |list|
    ensures i <= m <= |list| && (forall k :: i <= k < m ==> env.replies(k).Accepted? && env.deletes(k))
    ensures m < |list| ==> !env.replies(m).Accepted? || !env.deletes(m)
    ensures id in RetryPass(s, list, env, i).seen <==>
            id in s.seen || id in Ids(list, i, m) || (m < |list| && id == list[m].eventId && !env.replies(m).Refused?)
    decreases |list| - i
  {
    if i == |list| || !env.replies(i).Accepted? || !env.deletes(i) {
      m := i;
    } else {
      var posted := Posted(s, list[i], env.replies(i));
      m := RetryPosts(posted.(spool := posted.spool - {list[i].eventId}), list, env, i + 1, id);
      assert Ids(list, i, m) == {list[i].eventId} + Ids(list, i + 1, m);
    }
  }

  /** A batch without an ID or that cannot be written is not spooled, and nothing happens.  Otherwise it is gone from the spool exactly when
      the post was answered and the file deleted, and the panel has claimed it unless the post was refused. */
  lemma CollectionMeaning(s: State, batch: TrafficBatch, stored: bool, reply: Reply, deleted: bool)
    ensures var t := Collected(s, batch, stored, reply, deleted);
            if batch.eventId == "" || !stored then t == s
            else
              && t.spool == (if reply.Accepted? && deleted then s.spool - {batch.eventId} else s.spool[batch.eventId := batch])
              && t.seen == (if reply.Refused? then s.seen else s.seen + {batch.eventId})
              && forall k :: Get(t.ledger, k) == Get(s.ledger, k) +
                             (if reply.Refused? || batch.eventId in s.seen then 0 else Usage(batch.records, |batch.records|, k))
  {
    forall k ensures Get(Charged(s.ledger, batch.records, |batch.records|), k) == Get(s.ledger, k) + Usage(batch.records, |batch.records|, k) {
      ChargedMeaning(s.ledger, batch.records, |batch.records|, k);
    }
  }

  /** A record is charged with its own value to its own user and inbound, unless one of them is missing or the value is not positive. */
  lemma RecordUsage(records: seq<TrafficRecord>, r: TrafficRecord, k: UsageKey)
    ensures Usage(records + [r], |records| + 1, k) == Usage(records, |records|, k) +
            (if r.userId != "" && r.inboundId != "" && r.value > 0 && r.userId == k.userId && r.inboundId == k.inboundId then r.value else 0)
    ensures Usage(records, 0, k) == 0
  {
    UsageOfPrefix(records, r, |records|, k);
  }

  lemma {:induction false} UsageOfPrefix(records: seq<TrafficRecord>, r: TrafficRecord, n: nat, k: UsageKey)
    requires n <= |records|
    ensures Usage(records + [r], n, k) == Usage(records, n, k)
  {
    if n > 0 {
      UsageOfPrefix(records, r, n - 1, k);
    }
  }

  /* ---------- Conservation ---------- */

  function TotalUsage(log: seq<TrafficBatch>, n: nat, k: UsageKey): nat
    requires n <= |log|
  {
    if n == 0 then 0 else TotalUsage(log, n - 1, k) + Usage(log[n - 1].records, |log[n - 1].records|, k)
  }

  /** The bytes of those batches of the log whose event ID is in `ids`. */
  function UsageIn(log: seq<TrafficBatch>, ids: set<string>, n: nat, k: UsageKey): nat
    requires n <= |log|
  {
    if n == 0 then 0 else
    UsageIn(log, ids, n - 1, k) + (if log[n - 1].eventId in ids then Usage(log[n - 1].records, |log[n - 1].records|, k) else 0)
  }

  ghost predicate UniqueEvents(log: seq<TrafficBatch>)
  {
    forall i, j :: 0 <= i < j < |log| ==> log[i].eventId != log[j].eventId
  }

  ghost predicate InLog(log: seq<TrafficBatch>, id: string, batch: TrafficBatch)
  {
    exists j :: 0 <= j < |log| && log[j] == batch && log[j].eventId == id
  }

  /** `log` is everything ever enqueued.  Files hold logged batches, a logged batch that is not in the spool has been
      billed, and the ledger is the sum over the billed batches, each counted once. */
  ghost predicate Inv(s: State, log: seq<TrafficBatch>)
  {
    && UniqueEvents(log)
    && (forall id :: id in s.spool ==> InLog(log, id, s.spool[id]))
    && (forall j :: 0 <= j < |log| ==> log[j].eventId in s.spool || log[j].eventId in s.seen)
    && (forall k :: Get(s.ledger, k) == UsageIn(log, s.seen, |log|, k))
  }

  lemma {:induction false} UsageSplits(log: seq<TrafficBatch>, a: set<string>, b: set<string>, n: nat, k: UsageKey)
    requires n <= |log| && a !! b && forall j :: 0 <= j < n ==> log[j].eventId in a || log[j].eventId in b
    ensures UsageIn(log, a, n, k) + UsageIn(log, b, n, k) == TotalUsage(log, n, k)
  {
    if n > 0 {
      UsageSplits(log, a, b, n - 1, k);
    }
  }

  /** Nothing is lost and nothing is billed twice: what the panel has billed and what is still only in the spool add up to
      everything ever enqueued. */
  lemma TrafficIsConserved(s: State, log: seq<TrafficBatch>, k: UsageKey)
    requires Inv(s, log)
    ensures Get(s.ledger, k) + UsageIn(log, s.spool.Keys - s.seen, |log|, k) == TotalUsage(log, |log|, k)
  {
    UsageSplits(log, s.seen, s.spool.Keys - s.seen, |log|, k);
  }

  lemma {:induction false} UsageWithNewId(log: seq<TrafficBatch>, ids: set<string>, id: string, n: nat, k: UsageKey)
    requires n <= |log| && UniqueEvents(log) && id !in ids
    ensures forall j :: 0 <= j < n && log[j].eventId == id ==>
              UsageIn(log, ids + {id}, n, k) == UsageIn(log, ids, n, k) + Usage(log[j].records, |log[j].records|, k)
    ensures (forall j :: 0 <= j < n ==> log[j].eventId != id) ==> UsageIn(log, ids + {id}, n, k) == UsageIn(log, ids, n, k)
  {
    if n > 0 {
      UsageWithNewId(log, ids, id, n - 1, k);
    }
  }

  lemma {:induction false} UsagePrefix(log: seq<TrafficBatch>, batch: TrafficBatch, ids: set<string>, n: nat, k: UsageKey)
    requires n <= |log|
    ensures UsageIn(log + [batch], ids, n, k) == UsageIn(log, ids, n, k)
  {
    if n > 0 {
      UsagePrefix(log, batch, ids, n - 1, k);
    }
  }

  lemma CommitKeepsInv(s: State, log: seq<TrafficBatch>, batch: TrafficBatch)
    requires Inv(s, log) && InLog(log, batch.eventId, batch)
    ensures Inv(Committed(s, batch), log)
  {
    if batch.eventId !in s.seen {
      var s' := Committed(s, batch);
      var j :| 0 <= j < |log| && log[j] == batch && log[j].eventId == batch.eventId;
      forall k ensures Get(s'.ledger, k) == UsageIn(log, s'.seen, |log|, k) {
        ChargedMeaning(s.ledger, batch.records, |batch.records|, k);
        UsageWithNewId(log, s.seen, batch.eventId, |log|, k);
      }
    }
  }

  lemma DeleteKeepsInv(s: State, log: seq<TrafficBatch>, id: string)
    requires Inv(s, log) && id in s.seen
    ensures Inv(s.(spool := s.spool - {id}), log)
  {
  }

  lemma EnqueueKeepsInv(s: State, log: seq<TrafficBatch>, batch: TrafficBatch)
    requires Inv(s, log) && batch.eventId !in s.seen && forall j :: 0 <= j < |log| ==> log[j].eventId != batch.eventId
    ensures Inv(s.(spool := s.spool[batch.eventId := batch]), log + [batch])
  {
    var s', log' := s.(spool := s.spool[batch.eventId := batch]), log + [batch];
    forall id | id in s'.spool ensures InLog(log', id, s'.spool[id]) {
      if id == batch.eventId {
        assert log'[|log|] == batch;
      } else {
        var j :| 0 <= j < |log| && log[j] == s.spool[id] && log[j].eventId == id;
        assert log'[j] == s.spool[id];
      }
    }
    forall k ensures Get(s'.ledger, k) == UsageIn(log', s'.seen, |log'|, k) {
      UsagePrefix(log, batch, s.seen, |log|, k);
      assert log'[|log|] == batch;
    }
  }

  lemma {:induction false} RetryKeepsInv(s: State, log: seq<TrafficBatch>, list: seq<TrafficBatch>, env: Env, i: nat)
    requires Inv(s, log) && i <= |list| && forall b :: b in list ==> InLog(log, b.eventId, b)
    ensures Inv(RetryPass(s, list, env, i), log)
    decreases |list| - i
  {
    if i < |list| {
      assert list[i] in list;
      CommitKeepsInv(s, log, list[i]);
      var posted := Posted(s, list[i], env.replies(i));
      if env.replies(i).Accepted? && env.deletes(i) {
        DeleteKeepsInv(posted, log, list[i].eventId);
        RetryKeepsInv(posted.(spool := posted.spool - {list[i].eventId}), log, list, env, i + 1);
      }
    }
  }

  /** Events of a run: a retry pass, a collection, or the panel billing late a post it had received. */
  datatype Event =
    | Retry(list: seq<TrafficBatch>, env: Env)
    | Collect(batch: TrafficBatch, stored: bool, reply: Reply, deleted: bool)
    | LateCommit(batch: TrafficBatch)

  function After(s: State, e: Event): State
  {
    match e
    case Retry(list, env) => RetryPass(s, list, env, 0)
    case Collect(batch, stored, reply, deleted) => Collected(s, batch, stored, reply, deleted)
    case LateCommit(batch) => Committed(s, batch)
  }

  function LogAfter(log: seq<TrafficBatch>, e: Event): seq<TrafficBatch>
  {
    if e.Collect? && e.stored && e.batch.eventId != "" then log + [e.batch] else log
  }

  /** The assumptions on an event: a retry works on the listing of the spool, event IDs are new, and the panel bills
      nothing that was never enqueued. */
  ghost predicate Legal(s: State, log: seq<TrafficBatch>, e: Event)
  {
    match e
    case Retry(list, _) => IsListing(list, s.spool)
    case Collect(batch, _, _, _) => batch.eventId !in s.seen && forall j :: 0 <= j < |log| ==> log[j].eventId != batch.eventId
    case LateCommit(batch) => InLog(log, batch.eventId, batch)
  }

  lemma EventKeepsInv(s: State, log: seq<TrafficBatch>, e: Event)
    requires Inv(s, log) && Legal(s, log, e)
    ensures Inv(After(s, e), LogAfter(log, e))
  {
    match e
    case Retry(list, env) =>
      forall b | b in list ensures InLog(log, b.eventId, b) {
        assert InLog(log, b.eventId, s.spool[b.eventId]);
      }
      RetryKeepsInv(s, log, list, env, 0);
    case Collect(batch, stored, reply, deleted) =>
      if stored && batch.eventId != "" {
        var log' := log + [batch];
        EnqueueKeepsInv(s, log, batch);
        assert log'[|log|] == batch;
        var s1 := s.(spool := s.spool[batch.eventId := batch]);
        CommitKeepsInv(s1, log', batch);
        if reply.Accepted? {
          DeleteKeepsInv(Posted(s1, batch, reply), log', batch.eventId);
        }
      }
    case LateCommit(batch) =>
      CommitKeepsInv(s, log, batch);
  }

  /** A history: `states[i]` and `logs[i]` before event `i`. */
  ghost predicate IsRun(states: seq<State>, logs: seq<seq<TrafficBatch>>, events: seq<Event>)
  {
    && |states| == |logs| == |events| + 1
    && states[0] == State(map[], {}, map[]) && logs[0] == []
    && forall i :: 0 <= i < |events| ==> StepsAt(states, logs, events, i)
  }

  ghost predicate StepsAt(states: seq<State>, logs: seq<seq<TrafficBatch>>, events: seq<Event>, i: nat)
    requires i < |events| && |states| == |logs| == |events| + 1
  {
    Legal(states[i], logs[i], events[i]) && states[i + 1] == After(states[i], events[i]) && logs[i + 1] == LogAfter(logs[i], events[i])
  }

  lemma {:induction false} RunKeepsInv(states: seq<State>, logs: seq<seq<TrafficBatch>>, events: seq<Event>, i: nat)
    requires IsRun(states, logs, events) && i < |states|
    ensures Inv(states[i], logs[i])
  {
    if i > 0 {
      RunKeepsInv(states, logs, events, i - 1);
      assert StepsAt(states, logs, events, i - 1);
      EventKeepsInv(states[i - 1], logs[i - 1], events[i - 1]);
    }
  }

  /** Over every run: billed plus only-spooled bytes are all bytes enqueued, and a batch is gone from the spool only after
      the panel has billed it. */
  lemma RunConservesTraffic(states: seq<State>, logs: seq<seq<TrafficBatch>>, events: seq<Event>, i: nat, k: UsageKey)
    requires IsRun(states, logs, events) && i < |states|
    ensures Get(states[i].ledger, k) + UsageIn(logs[i], states[i].spool.Keys - states[i].seen, |logs[i]|, k) == TotalUsage(logs[i], |logs[i]|, k)
    ensures forall j :: 0 <= j < |logs[i]| && logs[i][j].eventId !in states[i].spool ==> logs[i][j].eventId in states[i].seen
  {
    RunKeepsInv(states, logs, events, i);
    TrafficIsConserved(states[i], logs[i], k);
  }

  /* ---------- Quota ---------- */

  lemma {:induction false} UsageSum(log: seq<TrafficBatch>, a: set<string>, b: set<string>, n: nat, k: UsageKey)
    requires n <= |log| && a !! b
    ensures UsageIn(log, a + b, n, k) == UsageIn(log, a, n, k) + UsageIn(log, b, n, k)
  {
    if n > 0 {
      UsageSum(log, a, b, n - 1, k);
    }
  }

  /** The sum over a listing does not depend on its order: it is the sum over the log restricted to the listed IDs. */
  lemma {:induction false} ListingTotal(list: seq<TrafficBatch>, files: Files, log: seq<TrafficBatch>, m: nat, k: UsageKey)
    requires IsListing(list, files) && UniqueEvents(log) && m <= |list|
    requires forall id :: id in files ==> InLog(log, id, files[id])
    ensures TotalUsage(list, m, k) == UsageIn(log, Ids(list, 0, m), |log|, k)
  {
    if m == 0 {
      UsageInNothing(log, Ids(list, 0, 0), |log|, k);
    } else {
      ListingTotal(list, files, log, m - 1, k);
      var b := list[m - 1];
      assert b in list;
      assert InLog(log, b.eventId, b);
      ListedOnce(list, files, m - 1);
      UsageWithNewId(log, Ids(list, 0, m - 1), b.eventId, |log|, k);
      assert Ids(list, 0, m) == Ids(list, 0, m - 1) + {b.eventId};
    }
  }

  lemma {:induction false} UsageInNothing(log: seq<TrafficBatch>, ids: set<string>, n: nat, k: UsageKey)
    requires n <= |log| && ids == {}
    ensures UsageIn(log, ids, n, k) == 0
  {
    if n > 0 {
      UsageInNothing(log, ids, n - 1, k);
    }
  }

  lemma ListedOnce(list: seq<TrafficBatch>, files: Files, i: nat)
    requires IsListing(list, files) && i < |list|
    ensures list[i].eventId !in Ids(list, 0, i)
  {
    forall k | 0 <= k < i ensures list[k].eventId != list[i].eventId {
      assert list[k] in list && list[i] in list;
    }
  }

  lemma ListedIds(list: seq<TrafficBatch>, files: Files)
    requires IsListing(list, files) && Keyed(files)
    ensures Ids(list, 0, |list|) == files.Keys
  {
    forall id | id in files ensures id in Ids(list, 0, |list|) {
      assert files[id] in list;
    }
    forall k | 0 <= k < |list| ensures list[k].eventId in files {
      assert list[k] in list;
    }
  }

  /** The pending usage read from a listing of the spool, against what the panel has billed at that moment: their sum
      exceeds everything enqueued by exactly the batches that are billed but not yet deleted. */
  lemma PendingCoversEverything(s: State, log: seq<TrafficBatch>, list: seq<TrafficBatch>, k: UsageKey)
    requires Inv(s, log) && IsListing(list, s.spool)
    ensures Get(s.ledger, k) + TotalUsage(list, |list|, k) == TotalUsage(log, |log|, k) + UsageIn(log, s.spool.Keys * s.seen, |log|, k)
  {
    ListedIds(list, s.spool);
    ListingTotal(list, s.spool, log, |list|, k);
    TrafficIsConserved(s, log, k);
    assert s.spool.Keys == (s.spool.Keys - s.seen) + (s.spool.Keys * s.seen);
    UsageSum(log, s.spool.Keys - s.seen, s.spool.Keys * s.seen, |log|, k);
  }

  /** Billing only grows while posts arrive late. */
  lemma {:induction false} LateCommitsOnlyAdd(s: State, late: seq<TrafficBatch>, n: nat, k: UsageKey)
    requires n <= |late|
    ensures Get(LateCommits(s, late, n).ledger, k) >= Get(s.ledger, k)
  {
    if n > 0 {
      LateCommitsOnlyAdd(s, late, n - 1, k);
      ChargedMeaning(LateCommits(s, late, n - 1).ledger, late[n - 1].records, |late[n - 1].records|, k);
    }
  }

  function LateCommits(s: State, late: seq<TrafficBatch>, n: nat): State
    requires n <= |late|
  {
    if n == 0 then s else Committed(LateCommits(s, late, n - 1), late[n - 1])
  }

  /** Pending usage is read first, the panel's billed usage afterwards, with any late billing in between: together they
      cover everything enqueued. */
  lemma UsageReadIsEnough(s: State, log: seq<TrafficBatch>, list: seq<TrafficBatch>, late: seq<TrafficBatch>, k: UsageKey)
    requires Inv(s, log) && IsListing(list, s.spool)
    ensures Get(LateCommits(s, late, |late|).ledger, k) + TotalUsage(list, |list|, k) >= TotalUsage(log, |log|, k)
  {
    PendingCoversEverything(s, log, list, k);
    LateCommitsOnlyAdd(s, late, |late|, k);
  }

  /** Quota soundness across the order of one sync: a user whose enqueued bytes have reached a positive quota is not
      enabled in the evaluated state, even when the panel billed a batch whose acknowledgement was lost. */
  lemma QuotaIsSound(s: State, log: seq<TrafficBatch>, list: seq<TrafficBatch>, late: seq<TrafficBatch>,
                     input: ManagedInbound, j: nat, c: Context)
    requires Inv(s, log) && IsListing(list, s.spool) && j < |input.users|
    requires var k := UsageKey(input.users[j].id, input.id);
             && Get(c.pending, k) == TotalUsage(list, |list|, k)
             && input.users[j].limits.trafficUsedBytes == Get(LateCommits(s, late, |late|).ledger, k)
             && 0 < input.users[j].limits.trafficBytes <= TotalUsage(log, |log|, k)
    ensures |EvaluatedUsers(input, c)| == |input.users| && !EvaluatedUsers(input, c)[j].enabled
  {
    var k := UsageKey(input.users[j].id, input.id);
    UsageReadIsEnough(s, log, list, late, k);
    QuotaDisables(input, c, j);
  }

  /** The record `ParseStats` makes of one counter. */
  function RecordOf(name: string, value: int): TrafficRecord
  {
    match ParseAccountingName(name)
    case None => TrafficRecord(name, value, "", "", "")
    case Some(c) => TrafficRecord(name, value, c.userId, c.inboundId, c.direction)
  }

  /** The counter of a user is charged to the key the evaluator looks up exactly when its IDs have no reserved character; a counter
      that has not moved charges nothing. */
  lemma CounterChargesUser(userId: string, inboundId: string, direction: string, value: int)
    requires userId != "" && inboundId != "" && !Contains(direction, ">>>")
    ensures var r := RecordOf("user>>>u:" + Sanitize(userId) + "|i:" + Sanitize(inboundId) + ">>>traffic>>>" + direction, value);
            && r.userId == Sanitize(userId) && r.inboundId == Sanitize(inboundId) && r.direction == direction && r.value == value
            && Usage([r], 1, UsageKey(userId, inboundId)) == if Clean(userId) && Clean(inboundId) && value > 0 then value else 0
  {
    var r := RecordOf(StatName(AccountingEmail(userId, inboundId), direction), value);
    CounterNameText(userId, inboundId, direction);
    CounterNameRoundTrip(userId, inboundId, direction);
    SanitizeFixpoint(userId);
    SanitizeFixpoint(inboundId);
    assert Usage([r], 0, UsageKey(userId, inboundId)) == 0;
  }

  /** A counter that is not one of a user is charged to nobody. */
  lemma OtherCountersChargeNobody(name: string, value: int, k: UsageKey)
    requires ParseAccountingName(name).None?
    ensures RecordOf(name, value) == TrafficRecord(name, value, "", "", "") && Usage([RecordOf(name, value)], 1, k) == 0
  {
    assert Usage([RecordOf(name, value)], 0, k) == 0;
  }
}
