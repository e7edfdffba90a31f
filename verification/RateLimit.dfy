/** The shared leaky bucket of the patched dispatcher (patches/xray-v26.7.28/xnode_limiter.go.txt).  Times are nanoseconds, and
    a duration is truncated to a whole one. */
module RateLimit {
  const SECOND: nat := 1_000_000_000

  /** Bytes per second; a rate that is not positive never reaches a bucket. */
  type Rate = r: nat | r > 0 witness 1

  function Duration(bytes: nat, rate: Rate): nat
  {
    bytes * SECOND / rate
  }

  /** A wait is the time its bytes take at its rate, in whole nanoseconds: no shorter, and no longer. */
  lemma DurationMeaning(bytes: nat, rate: Rate)
    ensures Duration(bytes, rate) * rate <= bytes * 1_000_000_000 < (Duration(bytes, rate) + 1) * rate
  {
    var d := Duration(bytes, rate);
    assert bytes * SECOND == d * rate + bytes * SECOND % rate;
  }

  function Max(a: int, b: int): int
  {
    if a < b then b else a
  }

  datatype Status = Waiting | Returned(at: int) | Cancelled

  /** One reservation: when it was made, what for, and when its wait may end. */
  datatype Waiter = Waiter(madeAt: int, bytes: nat, rate: Rate, deadline: int, status: Status)

  /** `next` is the bucket's own field; the clock and the waiters are the goroutines around it. */
  datatype State = State(next: int, clock: int, waiters: seq<Waiter>)

  /** The critical section of `xnodeWait`, and how the wait behind it ends: by its timer, or by its context. */
  datatype Event =
    | Reserve(now: int, bytes: nat, rate: Rate)
    | Return(i: nat, now: int)
    | Cancel(i: nat, now: int)

  ghost predicate Legal(s: State, e: Event)
  {
    && s.clock <= e.now
    && match e
       case Reserve(_, bytes, _) => bytes > 0
       case Return(i, now) => i < |s.waiters| && s.waiters[i].status.Waiting? && s.waiters[i].deadline <= now
       case Cancel(i, _) => i < |s.waiters| && s.waiters[i].status.Waiting?
  }

  function After(s: State, e: Event): State
    requires Legal(s, e)
  {
    match e
    case Reserve(now, bytes, rate) =>
      var deadline := Max(s.next, now) + Duration(bytes, rate);
      State(deadline, now, s.waiters + [Waiter(now, bytes, rate, deadline, Waiting)])
    case Return(i, now) => s.(clock := now, waiters := s.waiters[i := s.waiters[i].(status := Returned(now))])
    case Cancel(i, now) => s.(clock := now, waiters := s.waiters[i := s.waiters[i].(status := Cancelled)])
  }

  class Bucket {
    var next: int

    constructor ()
      ensures next == 0
    {
      next := 0;
    }

    method Reserve(now: int, bytes: nat, rate: Rate) returns (deadline: int)
      requires bytes > 0
      modifies this
      ensures deadline == next == Max(old(next), now) + Duration(bytes, rate)
      ensures forall clock, waiters :: clock <= now ==>
                After(State(old(next), clock, waiters), Event.Reserve(now, bytes, rate)) ==
                State(next, now, waiters + [Waiter(now, bytes, rate, deadline, Waiting)])
    {
      if next < now {
        next := now;
      }
      next := next + Duration(bytes, rate);
      deadline := next;
    }
  }

  /* ---------- Histories ---------- */

  /** Time reserved by waiters `from` up to but not including `to`. */
  function Reserved(w: seq<Waiter>, from: nat, to: nat): nat
    requires to <= |w|
  {
    if to <= from then 0 else Reserved(w, from, to - 1) + Duration(w[to - 1].bytes, w[to - 1].rate)
  }

  /** No reservation may end before everything reserved since any earlier one, or since the start, has had its time. */
  ghost predicate NotTooEarly(w: seq<Waiter>, next0: int, i: nat)
    requires i < |w|
  {
    && next0 + Reserved(w, 0, i + 1) <= w[i].deadline
    && forall j :: 0 <= j <= i ==> w[j].madeAt + Reserved(w, j, i + 1) <= w[i].deadline
  }

  /** And it waits no longer than one of these asks for. */
  ghost predicate NotTooLate(w: seq<Waiter>, next0: int, i: nat)
    requires i < |w|
  {
    || w[i].deadline == next0 + Reserved(w, 0, i + 1)
    || exists j :: 0 <= j <= i && w[i].deadline == w[j].madeAt + Reserved(w, j, i + 1)
  }

  ghost predicate Settled(w: Waiter, clock: int)
  {
    w.status.Returned? ==> w.deadline <= w.status.at <= clock
  }

  /** The closed form of every deadline, for a bucket that stood at `next0` at time `t0`. */
  ghost predicate Inv(s: State, next0: int, t0: int)
  {
    && t0 <= s.clock
    && (forall i :: 0 <= i < |s.waiters| ==> t0 <= s.waiters[i].madeAt && Settled(s.waiters[i], s.clock))
    && (forall i :: 0 <= i < |s.waiters| ==> NotTooEarly(s.waiters, next0, i) && NotTooLate(s.waiters, next0, i))
    && s.next == if s.waiters == [] then next0 else s.waiters[|s.waiters| - 1].deadline
  }

  lemma {:induction false} ReservedPrefix(w: seq<Waiter>, v: seq<Waiter>, from: nat, to: nat)
    requires to <= |w| && to <= |v|
    requires forall i :: 0 <= i < to ==> w[i].bytes == v[i].bytes && w[i].rate == v[i].rate
    ensures Reserved(w, from, to) == Reserved(v, from, to)
  {
    if from < to {
      ReservedPrefix(w, v, from, to - 1);
    }
  }

  /** Only the reserved times and deadlines of the waiters up to `i` matter for its closed form. */
  lemma ClosedFormPrefix(w: seq<Waiter>, v: seq<Waiter>, next0: int, i: nat)
    requires i < |w| && i < |v|
    requires forall k :: 0 <= k <= i ==> w[k].(status := Waiting) == v[k].(status := Waiting)
    requires NotTooEarly(w, next0, i) && NotTooLate(w, next0, i)
    ensures NotTooEarly(v, next0, i) && NotTooLate(v, next0, i)
  {
    forall k | 0 <= k <= i ensures w[k].bytes == v[k].bytes && w[k].rate == v[k].rate
                                   && w[k].madeAt == v[k].madeAt && w[k].deadline == v[k].deadline {
      var a, b := w[k].(status := Waiting), v[k].(status := Waiting);
      assert a.bytes == b.bytes && a.rate == b.rate && a.madeAt == b.madeAt && a.deadline == b.deadline;
    }
    var n := i + 1;
    forall j | 0 <= j <= i ensures Reserved(w, j, n) == Reserved(v, j, n) {
      ReservedPrefix(w, v, j, n);
    }
  }

  lemma ReserveIsClosedForm(s: State, e: Event, next0: int, t0: int)
    requires Inv(s, next0, t0) && e.Reserve? && Legal(s, e)
    ensures var w := After(s, e).waiters;
            NotTooEarly(w, next0, |s.waiters|) && NotTooLate(w, next0, |s.waiters|)
  {
    var w, n := After(s, e).waiters, |s.waiters|;
    var d := Duration(e.bytes, e.rate);
    forall j | 0 <= j <= n ensures Reserved(w, j, |w|) == Reserved(w, j, n) + d {
    }
    if n > 0 {
      forall k | 0 <= k < n ensures w[k] == s.waiters[k] {
      }
      ClosedFormPrefix(s.waiters, w, next0, n - 1);
      if s.next < e.now {
        assert w[n].deadline == w[n].madeAt + Reserved(w, n, n + 1);
      } else if w[n - 1].deadline != next0 + Reserved(w, 0, n) {
        var j :| 0 <= j <= n - 1 && w[n - 1].deadline == w[j].madeAt + Reserved(w, j, n);
        assert w[n].deadline == w[j].madeAt + Reserved(w, j, n + 1);
      }
    } else {
      assert Reserved(w, 0, 0) == 0;
    }
  }

  lemma EventKeepsInv(s: State, e: Event, next0: int, t0: int)
    requires Inv(s, next0, t0) && Legal(s, e)
    ensures Inv(After(s, e), next0, t0) && s.next <= After(s, e).next
  {
    var w := After(s, e).waiters;
    if e.Reserve? {
      ReserveIsClosedForm(s, e, next0, t0);
    }
    forall i | 0 <= i < |s.waiters| ensures NotTooEarly(w, next0, i) && NotTooLate(w, next0, i) {
      ClosedFormPrefix(s.waiters, w, next0, i);
    }
  }

  /** A run: `states[i]` before event `i`, from any bucket without waiters. */
  ghost predicate IsRun(states: seq<State>, events: seq<Event>)
  {
    && |states| == |events| + 1 && states[0].waiters == []
    && forall i :: 0 <= i < |events| ==> StepsAt(states, events, i)
  }

  ghost predicate StepsAt(states: seq<State>, events: seq<Event>, i: nat)
    requires i < |events| && |states| == |events| + 1
  {
    Legal(states[i], events[i]) && states[i + 1] == After(states[i], events[i])
  }

  /** Over every interleaving of reservations, returns and cancellations each deadline has its closed form, and `next` never
      goes back. */
  lemma {:induction false} RunKeepsInv(states: seq<State>, events: seq<Event>, k: nat)
    requires IsRun(states, events) && k <= |events|
    ensures Inv(states[k], states[0].next, states[0].clock)
    ensures forall i :: 0 <= i <= k ==> states[i].next <= states[k].next
  {
    if k > 0 {
      RunKeepsInv(states, events, k - 1);
      assert StepsAt(states, events, k - 1);
      EventKeepsInv(states[k - 1], events[k - 1], states[0].next, states[0].clock);
    }
  }

  /* ---------- The rate bound ---------- */

  predicate PassedBy(w: Waiter, t: int)
  {
    w.status.Returned? && w.status.at <= t
  }

  function BytesBy(w: seq<Waiter>, n: nat, t: int): nat
    requires n <= |w|
  {
    if n == 0 then 0 else BytesBy(w, n - 1, t) + (if PassedBy(w[n - 1], t) then w[n - 1].bytes else 0)
  }

  function WaitsBy(w: seq<Waiter>, n: nat, t: int): nat
    requires n <= |w|
  {
    if n == 0 then 0 else WaitsBy(w, n - 1, t) + (if PassedBy(w[n - 1], t) then 1 else 0)
  }

  function TimeBy(w: seq<Waiter>, n: nat, t: int): nat
    requires n <= |w|
  {
    if n == 0 then 0 else TimeBy(w, n - 1, t) + (if PassedBy(w[n - 1], t) then Duration(w[n - 1].bytes, w[n - 1].rate) else 0)
  }

  lemma DurationIsTruncated(bytes: nat, rate: Rate, r: nat)
    requires rate <= r
    ensures SECOND * bytes <= r * (Duration(bytes, rate) + 1)
  {
    var d := Duration(bytes, rate);
    assert bytes * SECOND < rate * (d + 1);
    assert rate * (d + 1) <= r * (d + 1);
  }

  lemma {:induction false} BytesWithinTime(w: seq<Waiter>, n: nat, t: int, r: nat)
    requires n <= |w| && forall i :: 0 <= i < |w| ==> w[i].rate <= r
    ensures SECOND * BytesBy(w, n, t) <= r * (TimeBy(w, n, t) + WaitsBy(w, n, t))
  {
    if n > 0 {
      BytesWithinTime(w, n - 1, t, r);
      if PassedBy(w[n - 1], t) {
        DurationIsTruncated(w[n - 1].bytes, w[n - 1].rate, r);
        var a, b := TimeBy(w, n - 1, t) + WaitsBy(w, n - 1, t), Duration(w[n - 1].bytes, w[n - 1].rate) + 1;
        assert r * (a + b) == r * a + r * b;
      }
    }
  }

  lemma {:induction false} TimeWithinReserved(w: seq<Waiter>, n: nat, t: int)
    requires n <= |w|
    ensures TimeBy(w, n, t) <= Reserved(w, 0, n)
  {
    if n > 0 {
      TimeWithinReserved(w, n - 1, t);
    }
  }

  lemma {:induction false} TimeHasPassed(s: State, next0: int, t0: int, n: nat, t: int)
    requires Inv(s, next0, t0) && n <= |s.waiters| && t0 <= t
    ensures TimeBy(s.waiters, n, t) <= t - t0
  {
    if n > 0 {
      TimeHasPassed(s, next0, t0, n - 1, t);
      if PassedBy(s.waiters[n - 1], t) {
        TimeWithinReserved(s.waiters, n, t);
        assert NotTooEarly(s.waiters, next0, n - 1) && Settled(s.waiters[n - 1], s.clock);
        assert s.waiters[0].madeAt + Reserved(s.waiters, 0, n) <= s.waiters[n - 1].deadline;
      }
    }
  }

  /** However many connections share the bucket, and however they interleave: if no reservation was made at more than rate `r`,
      the bytes whose waits have returned by time `t` exceed `r * (t - t0)` by less than one truncated nanosecond per wait. */
  lemma RateBound(states: seq<State>, events: seq<Event>, k: nat, t: int, r: nat)
    requires IsRun(states, events) && k <= |events| && states[0].clock <= t
    requires forall i :: 0 <= i < |states[k].waiters| ==> states[k].waiters[i].rate <= r
    ensures var w := states[k].waiters;
            1_000_000_000 * BytesBy(w, |w|, t) <= r * ((t - states[0].clock) + WaitsBy(w, |w|, t))
  {
    var w := states[k].waiters;
    RunKeepsInv(states, events, k);
    TimeHasPassed(states[k], states[0].next, states[0].clock, |w|, t);
    BytesWithinTime(w, |w|, t, r);
    WiderTime(r, TimeBy(w, |w|, t), t - states[0].clock, WaitsBy(w, |w|, t));
  }

  lemma WiderTime(r: nat, a: int, b: int, c: nat)
    requires a <= b
    ensures r * (a + c) <= r * (b + c)
  {
  }

  /** A wait that returns passes its bytes at that moment, and no others; one that is cancelled passes nothing. */
  lemma {:induction false} PassedByEvent(w: seq<Waiter>, i: nat, status: Status, n: nat, t: int)
    requires i < |w| && w[i].status.Waiting? && n <= |w|
    ensures BytesBy(w[i := w[i].(status := status)], n, t) ==
            BytesBy(w, n, t) + if i < n && status.Returned? && status.at <= t then w[i].bytes else 0
  {
    if n > 0 {
      PassedByEvent(w, i, status, n - 1, t);
    }
  }

  lemma ReturnPasses(s: State, e: Event, t: int)
    requires Legal(s, e)
    ensures var w, w' := s.waiters, After(s, e).waiters;
            BytesBy(w', |w'|, t) == BytesBy(w, |w|, t) + if e.Return? && e.now <= t then w[e.i].bytes else 0
    ensures e.Return? ==> After(s, e).waiters[e.i].status == Returned(e.now)
    ensures e.Cancel? ==> After(s, e).waiters[e.i].status == Cancelled
  {
    match e
    case Reserve(now, bytes, rate) => BytesOfPrefix(s.waiters, After(s, e).waiters, |s.waiters|, t);
    case Return(i, now) => PassedByEvent(s.waiters, i, Returned(now), |s.waiters|, t);
    case Cancel(i, now) => PassedByEvent(s.waiters, i, Cancelled, |s.waiters|, t);
  }

  lemma {:induction false} BytesOfPrefix(w: seq<Waiter>, v: seq<Waiter>, n: nat, t: int)
    requires n <= |w| && n <= |v| && forall k :: 0 <= k < n ==> w[k] == v[k]
    ensures BytesBy(v, n, t) == BytesBy(w, n, t)
  {
    if n > 0 {
      BytesOfPrefix(w, v, n - 1, t);
    }
  }

  /* ---------- No wait is longer than its rate asks for ---------- */

  /** The bytes reserved by waiters `from` up to but not including `to`. */
  function BytesReserved(w: seq<Waiter>, from: nat, to: nat): nat
    requires to <= |w|
  {
    if to <= from then 0 else BytesReserved(w, from, to - 1) + w[to - 1].bytes
  }

  /** When the bucket was free again before reservation `i`. */
  function FreeBefore(w: seq<Waiter>, next0: int, i: nat): int
    requires i < |w|
  {
    if i == 0 then next0 else w[i - 1].deadline
  }

  /** Each deadline is set from the one before, or from the time of the reservation if that is later. */
  ghost predicate Chained(w: seq<Waiter>, next0: int)
  {
    forall i :: 0 <= i < |w| ==> ChainedAt(w, next0, i)
  }

  ghost predicate ChainedAt(w: seq<Waiter>, next0: int, i: nat)
    requires i < |w|
  {
    w[i].deadline == Duration(w[i].bytes, w[i].rate) + if FreeBefore(w, next0, i) < w[i].madeAt then w[i].madeAt else FreeBefore(w, next0, i)
  }

  lemma EventKeepsChain(s: State, e: Event, next0: int, t0: int)
    requires Inv(s, next0, t0) && Chained(s.waiters, next0) && Legal(s, e)
    ensures Chained(After(s, e).waiters, next0)
  {
    var w := After(s, e).waiters;
    forall i | 0 <= i < |w| ensures ChainedAt(w, next0, i) {
      if i < |s.waiters| {
        assert ChainedAt(s.waiters, next0, i);
      }
    }
  }

  lemma {:induction false} RunIsChained(states: seq<State>, events: seq<Event>, k: nat)
    requires IsRun(states, events) && k <= |events|
    ensures Chained(states[k].waiters, states[0].next)
  {
    if k > 0 {
      RunIsChained(states, events, k - 1);
      RunKeepsInv(states, events, k - 1);
      assert StepsAt(states, events, k - 1);
      EventKeepsChain(states[k - 1], events[k - 1], states[0].next, states[0].clock);
    }
  }

  /** Reservation `j` found the bucket free, and each later one up to `i` found it busy. */
  ghost predicate BusySince(w: seq<Waiter>, next0: int, j: nat, i: nat)
    requires j <= i < |w|
  {
    && FreeBefore(w, next0, j) <= w[j].madeAt
    && forall m :: j < m <= i ==> w[m].madeAt <= w[m - 1].deadline
  }

  lemma {:induction false} StartOfBusy(w: seq<Waiter>, next0: int, i: nat) returns (j: nat)
    requires i < |w| && next0 <= w[0].madeAt
    ensures j <= i && BusySince(w, next0, j, i)
  {
    if FreeBefore(w, next0, i) <= w[i].madeAt {
      j := i;
    } else {
      j := StartOfBusy(w, next0, i - 1);
    }
  }

  lemma {:induction false} BusyDeadline(w: seq<Waiter>, next0: int, j: nat, i: nat)
    requires j <= i < |w| && Chained(w, next0) && BusySince(w, next0, j, i)
    ensures w[i].deadline == w[j].madeAt + Reserved(w, j, i + 1)
  {
    assert ChainedAt(w, next0, i);
    if j < i {
      BusyDeadline(w, next0, j, i - 1);
    } else {
      assert Reserved(w, j, j) == 0;
    }
  }

  /** The time reserved at rate `r` or more is what the bytes take at `r`, at most. */
  lemma {:induction false} TimeWithinBytes(w: seq<Waiter>, from: nat, to: nat, r: nat)
    requires to <= |w| && forall m :: from <= m < to ==> w[m].rate >= r
    ensures r * Reserved(w, from, to) <= 1_000_000_000 * BytesReserved(w, from, to)
  {
    if from < to {
      TimeWithinBytes(w, from, to - 1, r);
      var a, d, x := Reserved(w, from, to - 1), Duration(w[to - 1].bytes, w[to - 1].rate), w[to - 1];
      DurationMeaning(x.bytes, x.rate);
      Scaled(r, x.rate, d);
      Distributed(r, a, d);
    }
  }

  /** And at rate `r` or less it is that much, but for a nanosecond per reservation. */
  lemma {:induction false} BytesWithinReserved(w: seq<Waiter>, from: nat, to: nat, r: nat)
    requires from <= to <= |w| && forall m :: from <= m < to ==> w[m].rate <= r
    ensures 1_000_000_000 * BytesReserved(w, from, to) <= r * (Reserved(w, from, to) + (to - from))
  {
    if from < to {
      BytesWithinReserved(w, from, to - 1, r);
      var a, d, x := Reserved(w, from, to - 1) + (to - 1 - from), Duration(w[to - 1].bytes, w[to - 1].rate) + 1, w[to - 1];
      DurationMeaning(x.bytes, x.rate);
      Scaled(x.rate, r, d);
      Distributed(r, a, d);
    }
  }

  lemma Scaled(a: nat, b: nat, d: nat)
    requires a <= b
    ensures a * d <= b * d
  {
  }

  lemma Distributed(r: nat, a: nat, d: nat)
    ensures r * (a + d) == r * a + r * d
  {
  }

  /** Whatever reservations keep the bucket busy from `j` to `i`: if none of them is made at less than rate `r`, the last one waits no
      longer than all their bytes take at `r`. */
  lemma WaitIsAskedFor(states: seq<State>, events: seq<Event>, k: nat, j: nat, i: nat, r: nat)
    requires IsRun(states, events) && k <= |events| && j <= i < |states[k].waiters|
    requires BusySince(states[k].waiters, states[0].next, j, i) && forall m :: j <= m <= i ==> states[k].waiters[m].rate >= r
    ensures var w := states[k].waiters; r * (w[i].deadline - w[j].madeAt) <= 1_000_000_000 * BytesReserved(w, j, i + 1)
  {
    var w := states[k].waiters;
    RunIsChained(states, events, k);
    BusyDeadline(w, states[0].next, j, i);
    TimeWithinBytes(w, j, i + 1, r);
    assert w[i].deadline - w[j].madeAt == Reserved(w, j, i + 1);
  }

  /** Every reservation of a bucket that began free has such a start; and at one rate its deadline is exactly the time the bytes since
      then take, but for less than a nanosecond per reservation. */
  lemma DeadlineIsExact(states: seq<State>, events: seq<Event>, k: nat, i: nat, r: nat) returns (j: nat)
    requires IsRun(states, events) && k <= |events| && i < |states[k].waiters| && states[0].next <= states[0].clock
    requires forall m :: 0 <= m <= i ==> states[k].waiters[m].rate == r
    ensures var w := states[k].waiters;
            && j <= i && BusySince(w, states[0].next, j, i)
            && r * (w[i].deadline - w[j].madeAt) <= 1_000_000_000 * BytesReserved(w, j, i + 1)
            && 1_000_000_000 * BytesReserved(w, j, i + 1) <= r * (w[i].deadline - w[j].madeAt + (i + 1 - j))
  {
    var w := states[k].waiters;
    RunKeepsInv(states, events, k);
    j := StartOfBusy(w, states[0].next, i);
    WaitIsAskedFor(states, events, k, j, i, r);
    RunIsChained(states, events, k);
    BusyDeadline(w, states[0].next, j, i);
    BytesWithinReserved(w, j, i + 1, r);
  }
}
