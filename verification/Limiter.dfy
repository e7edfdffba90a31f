/** Admission in the patched dispatcher (patches/xray-v26.7.28/xnode_limiter.go.txt): reference counts per user and per source
    IP, changed under one lock, while the mode check and the policy snapshot happen under earlier locks of their own. */
module Limiter {
  import opened Model
  import opened Text
  import opened PolicyFile
  import RateLimit

  const NoPolicy := CorePolicy(0, 0, 0, 0, false, 0, 0)

  /** `xnodePolicyFor` on the loaded policies: nothing for an unknown user, and nothing once a tombstone has expired. */
  function PolicyFor(policies: map<string, CorePolicy>, email: string, now: int): CorePolicy
  {
    var p := if email in policies then policies[email] else NoPolicy;
    if p.tombstoneUntil > 0 && now >= p.tombstoneUntil then NoPolicy else p
  }

  /** An entry counts until its tombstone expires, if it has one; a user without an entry that counts is neither blocked nor limited, and
      has generation zero. */
  lemma PolicyForMeaning(policies: map<string, CorePolicy>, email: string, now: int)
    ensures var p := PolicyFor(policies, email, now);
            if email in policies && (policies[email].tombstoneUntil <= 0 || now < policies[email].tombstoneUntil) then p == policies[email]
            else !p.blocked && p.uploadBps == p.downloadBps == p.connectionLimit == p.ipLimit == p.sessionGeneration == 0
  {
  }

  /** What one call of `xnodeRefreshPolicies` finds. */
  datatype FileRead = Recent | Missing | Unchanged | Broken | Loaded(doc: CorePolicyFile)

  datatype Tables = Tables(connections: map<string, int>, ips: map<string, map<string, int>>)

  function Active(t: Tables, email: string): int
  {
    if email in t.connections then t.connections[email] else 0
  }

  function Refs(t: Tables, email: string): map<string, int>
  {
    if email in t.ips then t.ips[email] else map[]
  }

  function RefCount(t: Tables, email: string, ip: string): int
  {
    if ip in Refs(t, email) then Refs(t, email)[ip] else 0
  }

  predicate WithinLimits(t: Tables, email: string, ip: string, p: CorePolicy)
  {
    && (p.connectionLimit <= 0 || Active(t, email) < p.connectionLimit)
    && (ip == "" || p.ipLimit <= 0 || RefCount(t, email, ip) != 0 || |Refs(t, email)| < p.ipLimit)
  }

  function Admitted(t: Tables, email: string, ip: string): Tables
  {
    Tables(t.connections[email := Active(t, email) + 1],
           if ip == "" then t.ips else t.ips[email := Refs(t, email)[ip := RefCount(t, email, ip) + 1]])
  }

  function WithoutRef(refs: map<string, int>, ip: string): map<string, int>
  {
    if ip in refs && refs[ip] > 1 then refs[ip := refs[ip] - 1] else refs - {ip}
  }

  function WithoutConnection(connections: map<string, int>, email: string): map<string, int>
  {
    if email in connections && connections[email] > 1 then connections[email := connections[email] - 1] else connections - {email}
  }

  function WithoutIp(ips: map<string, map<string, int>>, email: string, ip: string): map<string, map<string, int>>
  {
    if ip == "" || email !in ips then ips
    else if |WithoutRef(ips[email], ip)| == 0 then ips - {email}
    else ips[email := WithoutRef(ips[email], ip)]
  }

  function Released(t: Tables, email: string, ip: string): Tables
  {
    Tables(WithoutConnection(t.connections, email), WithoutIp(t.ips, email, ip))
  }

  function Refreshed(mode: string, policies: map<string, CorePolicy>, read: FileRead): (string, map<string, CorePolicy>)
  {
    match read
    case Missing => ("active", map[])
    case Loaded(doc) =>
      if doc.version != 1 then (mode, policies)
      else (if doc.mode == "" then "active" else doc.mode, doc.users)
    case _ => (mode, policies)
  }

  datatype WaitResult = Passed | UserBlocked | GenerationChanged | OverLimit | Until(deadline: int)

  /** The checks of `xnodeWait` before it reaches a bucket: the rate to wait for, or the end of the wait. */
  function WaitGate(p: CorePolicy, generation: int, active: int, downlink: bool): (WaitResult, int)
  {
    if p.blocked then (UserBlocked, 0)
    else if p.sessionGeneration != generation then (GenerationChanged, 0)
    else if p.connectionLimit > 0 && active > p.connectionLimit then (OverLimit, 0)
    else (Passed, if downlink then p.downloadBps else p.uploadBps)
  }

  function BucketKey(email: string, downlink: bool): string
  {
    email + ":" + (if downlink then "down" else "up")
  }

  /** No two users, and no two directions, share a bucket. */
  lemma BucketsAreApart(a: string, b: string, downA: bool, downB: bool)
    ensures BucketKey(a, downA) == BucketKey(b, downB) <==> a == b && downA == downB
  {
    var x, y := BucketKey(a, downA), BucketKey(b, downB);
    assert x[|x| - 1] == (if downA then 'n' else 'p') && y[|y| - 1] == (if downB then 'n' else 'p');
    if x == y {
      assert |a| == |b|;
      assert a == x[..|a|] && b == y[..|b|];
    }
  }

  class Dispatcher {
    var mode: string
    var policies: map<string, CorePolicy>
    var connections: map<string, int>
    var ips: map<string, map<string, int>>
    var buckets: map<string, RateLimit.Bucket>

    constructor ()
      ensures mode == "" && policies == map[] && connections == map[] && ips == map[] && buckets == map[]
      ensures OwnBuckets()
    {
      mode, policies, connections, ips, buckets := "", map[], map[], map[], map[];
    }

    /** No bucket serves two keys. */
    ghost predicate OwnBuckets()
      reads this`buckets
    {
      forall a, b :: a in buckets && b in buckets && buckets[a] == buckets[b] ==> a == b
    }

    /** When the bucket of a key is free again; a bucket that does not exist yet always is. */
    function NextOf(key: string): int
      reads this`buckets, buckets.Values
    {
      if key in buckets then buckets[key].next else 0
    }

    method BucketFor(key: string) returns (b: RateLimit.Bucket)
      requires OwnBuckets()
      modifies this`buckets
      ensures OwnBuckets() && key in buckets && buckets[key] == b
      ensures b in old(buckets.Values) || fresh(b)
      ensures forall k :: k in buckets <==> k in old(buckets) || k == key
      ensures forall k :: k in old(buckets) ==> buckets[k] == old(buckets)[k]
      ensures forall k :: NextOf(k) == old(NextOf(k))
    {
      if key !in buckets {
        var made := new RateLimit.Bucket();
        buckets := buckets[key := made];
      }
      b := buckets[key];
    }

    function Abs(): Tables
      reads this
    {
      Tables(connections, ips)
    }

    method Refresh(read: FileRead)
      modifies this`mode, this`policies
      ensures (mode, policies) == Refreshed(old(mode), old(policies), read)
    {
      match read
      case Missing =>
        policies := map[];
        mode := "active";
      case Loaded(doc) =>
        if doc.version != 1 {
          return;
        }
        mode := doc.mode;
        if mode == "" {
          mode := "active";
        }
        policies := doc.users;
      case _ =>
    }

    /** The locked section of `xnodeAdmit`.  It may create an empty inner map before it looks at the IP limit, but never
        refuses then. */
    method Admit(email: string, ip: string, p: CorePolicy) returns (ok: bool)
      modifies this`connections, this`ips
      ensures ok == WithinLimits(old(Abs()), email, ip, p)
      ensures Abs() == if ok then Admitted(old(Abs()), email, ip) else old(Abs())
    {
      var active := if email in connections then connections[email] else 0;
      if p.connectionLimit > 0 && active >= p.connectionLimit {
        return false;
      }
      if ip != "" {
        ghost var before := ips;
        if email !in ips {
          ips := ips[email := map[]];
        }
        var refs := ips[email];
        assert refs == Refs(old(Abs()), email);
        var count := if ip in refs then refs[ip] else 0;
        assert count == RefCount(old(Abs()), email, ip);
        if p.ipLimit > 0 && count == 0 && |refs| >= p.ipLimit {
          assert email in before && ips == before;
          return false;
        }
        ips := ips[email := refs[ip := count + 1]];
        assert ips == before[email := refs[ip := count + 1]];
      }
      connections := connections[email := active + 1];
      ok := true;
    }

    /** The callback that runs once when the session's context ends. */
    method Release(email: string, ip: string)
      modifies this`connections, this`ips
      ensures Abs() == Released(old(Abs()), email, ip)
    {
      var n := if email in connections then connections[email] else 0;
      connections := if n <= 1 then connections - {email} else connections[email := n - 1];
      assert connections == WithoutConnection(old(connections), email);
      if ip != "" && email in ips {
        var refs := ips[email];
        var m := if ip in refs then refs[ip] else 0;
        refs := if m <= 1 then refs - {ip} else refs[ip := m - 1];
        assert refs == WithoutRef(ips[email], ip);
        ips := if |refs| == 0 then ips - {email} else ips[email := refs];
      }
    }

    /** `xnodeWait` up to its timer.  `second` is the clock the policy is read at, `now` the one under the bucket's lock. */
    method Wait(email: string, generation: int, downlink: bool, bytes: int, second: int, now: int) returns (r: WaitResult)
      requires OwnBuckets()
      modifies this`buckets, buckets.Values
      ensures OwnBuckets()
      ensures var (gate, rate) := WaitGate(PolicyFor(policies, email, second), generation, Active(Abs(), email), downlink);
              if bytes <= 0 || email == "" then r == Passed
              else if !gate.Passed? || rate <= 0 then r == gate
              else r == Until(RateLimit.Max(old(NextOf(BucketKey(email, downlink))), now) + RateLimit.Duration(bytes, rate))
      ensures forall k :: NextOf(k) == if r.Until? && k == BucketKey(email, downlink) then r.deadline else old(NextOf(k))
    {
      if bytes <= 0 || email == "" {
        return Passed;
      }
      var p := PolicyFor(policies, email, second);
      if p.blocked {
        return UserBlocked;
      }
      if p.sessionGeneration != generation {
        return GenerationChanged;
      }
      if p.connectionLimit > 0 {
        var active := if email in connections then connections[email] else 0;
        if active > p.connectionLimit {
          return OverLimit;
        }
      }
      var rate := if downlink then p.downloadBps else p.uploadBps;
      if rate <= 0 {
        return Passed;
      }
      var b := BucketFor(BucketKey(email, downlink));
      var deadline := b.Reserve(now, bytes, rate);
      r := Until(deadline);
    }
  }

  /* ---------- Tombstones end old sessions ---------- */

  /** A session of a removed identity, under any policy document written since the removal: its reads and writes fail until
      the tombstone's deadline, and afterwards exactly when its generation is not the zero an unknown user has. */
  lemma {:induction false} OldSessionIO(file: Option<CorePolicyFile>, writes: seq<Write>, i: nat, k: nat, email: string, generation: int, second: int,
                     active: int, downlink: bool)
    requires i < k <= |writes| && Monotonic(writes) && writes[k - 1].now <= second
    requires FirstMissing(file, writes, i, email) && AbsentBetween(writes, i, k, email)
    ensures var policies := OldUsers(DocumentAfter(file, writes, k));
            var gate := WaitGate(PolicyFor(policies, email, second), generation, active, downlink).0;
            && (second < writes[i].now + 300 ==> gate == UserBlocked)
            && (!gate.Passed? <==> second < writes[i].now + 300 || generation != 0)
  {
    TombstoneRun(file, writes, i, k, email);
  }

  /** A session of a user of the state, under the document written for it: its I/O goes on, at the user's own rate, while the user is
      enabled, the session has the user's generation, and no more sessions are live than the user may have; and otherwise it is
      refused for the first of these that fails. */
  lemma CurrentSessionIO(file: Option<CorePolicyFile>, state: DesiredState, now: nat, i: nat, j: nat, e: string, second: int,
                         generation: int, active: int, downlink: bool)
    requires LastUser(state.inbounds, i, j, e)
    ensures var u := state.inbounds[i].users[j];
            WaitGate(PolicyFor(Written(file, state, now).users, e, second), generation, active, downlink) ==
            if !u.enabled then (UserBlocked, 0)
            else if u.sessionGeneration != generation then (GenerationChanged, 0)
            else if u.limits.connectionLimit > 0 && active > u.limits.connectionLimit then (OverLimit, 0)
            else (Passed, if downlink then u.limits.downloadBps else u.limits.uploadBps)
  {
    PolicyOfLastUser(file, state, now, i, j, e);
  }

  /* ---------- Sessions and their interleavings ---------- */

  /** Where a session stands.  `Checked` holds the policy snapshot it will be admitted under. */
  datatype Phase = Opened | ModePassed | Checked(policy: CorePolicy) | Live | Uncounted | Closed

  datatype Session = Session(email: string, ip: string, phase: Phase)

  datatype State = State(mode: string, policies: map<string, CorePolicy>, tables: Tables, sessions: seq<Session>)

  /** Each event is one critical section; events of different sessions interleave freely. */
  datatype Event =
    | Open(email: string, ip: string)
    | CheckMode(i: nat)
    | Snapshot(i: nat, second: int)
    | Admit(i: nat)
    | Release(i: nat)
    | Load(read: FileRead)

  ghost predicate Legal(s: State, e: Event)
  {
    match e
    case CheckMode(i) => i < |s.sessions| && s.sessions[i].phase.Opened?
    case Snapshot(i, _) => i < |s.sessions| && s.sessions[i].phase.ModePassed?
    case Admit(i) => i < |s.sessions| && s.sessions[i].phase.Checked?
    case Release(i) => i < |s.sessions| && s.sessions[i].phase.Live?
    case _ => true
  }

  function Moved(s: State, i: nat, phase: Phase): seq<Session>
    requires i < |s.sessions|
  {
    s.sessions[i := s.sessions[i].(phase := phase)]
  }

  function After(s: State, e: Event): State
    requires Legal(s, e)
  {
    match e
    case Open(email, ip) => s.(sessions := s.sessions + [Session(email, ip, Opened)])
    case CheckMode(i) =>
      s.(sessions := Moved(s, i, if s.mode == "draining" then Closed else if s.sessions[i].email == "" then Uncounted else ModePassed))
    case Snapshot(i, second) =>
      var p := PolicyFor(s.policies, s.sessions[i].email, second);
      s.(sessions := Moved(s, i, if p.blocked then Closed else Checked(p)))
    case Admit(i) =>
      var x := s.sessions[i];
      if WithinLimits(s.tables, x.email, x.ip, x.phase.policy)
      then s.(tables := Admitted(s.tables, x.email, x.ip), sessions := Moved(s, i, Live))
      else s.(sessions := Moved(s, i, Closed))
    case Release(i) =>
      s.(tables := Released(s.tables, s.sessions[i].email, s.sessions[i].ip), sessions := Moved(s, i, Closed))
    case Load(read) =>
      var (mode, policies) := Refreshed(s.mode, s.policies, read);
      s.(mode := mode, policies := policies)
  }

  function CountIf(sessions: seq<Session>, p: Session -> bool, n: nat): nat
    requires n <= |sessions|
  {
    if n == 0 then 0 else CountIf(sessions, p, n - 1) + (if p(sessions[n - 1]) then 1 else 0)
  }

  function OfEmail(email: string): Session -> bool
  {
    (x: Session) => x.phase.Live? && x.email == email
  }

  function OfIp(email: string, ip: string): Session -> bool
  {
    (x: Session) => x.phase.Live? && x.email == email && x.ip == ip
  }

  function LiveCount(s: State, email: string): nat
  {
    CountIf(s.sessions, OfEmail(email), |s.sessions|)
  }

  function LiveCountFrom(s: State, email: string, ip: string): nat
  {
    CountIf(s.sessions, OfIp(email, ip), |s.sessions|)
  }

  /** The addresses the live sessions of a user come from. */
  function LiveIps(s: State, email: string): set<string>
  {
    set i | 0 <= i < |s.sessions| && s.sessions[i].phase.Live? && s.sessions[i].email == email && s.sessions[i].ip != "" :: s.sessions[i].ip
  }

  ghost predicate PositiveTables(t: Tables)
  {
    && (forall e :: e in t.connections ==> t.connections[e] > 0)
    && (forall e :: e in t.ips ==> t.ips[e] != map[] && forall ip :: ip in t.ips[e] ==> ip != "" && t.ips[e][ip] > 0)
  }

  ghost predicate CountsAt(s: State, email: string)
  {
    && Active(s.tables, email) == LiveCount(s, email)
    && forall ip :: ip != "" ==> RefCount(s.tables, email, ip) == LiveCountFrom(s, email, ip)
  }

  /** The tables count exactly the admitted sessions that have not been released; nothing is stored for nobody. */
  ghost predicate Inv(s: State)
  {
    PositiveTables(s.tables) && forall email :: CountsAt(s, email)
  }

  lemma {:induction false} CountIfUpdate(sessions: seq<Session>, p: Session -> bool, n: nat, i: nat, x: Session)
    requires i < |sessions| && n <= |sessions|
    ensures CountIf(sessions[i := x], p, n) + (if i < n && p(sessions[i]) then 1 else 0) ==
            CountIf(sessions, p, n) + (if i < n && p(x) then 1 else 0)
  {
    if n > 0 {
      CountIfUpdate(sessions, p, n - 1, i, x);
    }
  }

  lemma {:induction false} CountIfPrefix(sessions: seq<Session>, x: Session, p: Session -> bool, n: nat)
    requires n <= |sessions|
    ensures CountIf(sessions + [x], p, n) == CountIf(sessions, p, n)
  {
    if n > 0 {
      CountIfPrefix(sessions, x, p, n - 1);
    }
  }

  lemma {:induction false} CountIfSome(sessions: seq<Session>, p: Session -> bool, n: nat)
    requires n <= |sessions|
    ensures CountIf(sessions, p, n) > 0 <==> exists i :: 0 <= i < n && p(sessions[i])
  {
    if n > 0 {
      CountIfSome(sessions, p, n - 1);
    }
  }

  /** Moving one session changes its own counts by whether it was and is live. */
  lemma MoveCounts(s: State, s': State, i: nat, phase: Phase, email: string)
    requires i < |s.sessions| && s'.sessions == Moved(s, i, phase)
    ensures var mine := s.sessions[i].email == email;
            && LiveCount(s', email) == LiveCount(s, email) + (if mine && phase.Live? then 1 else 0)
                                       - (if mine && s.sessions[i].phase.Live? then 1 else 0)
            && forall ip :: LiveCountFrom(s', email, ip) == LiveCountFrom(s, email, ip)
                 + (if mine && s.sessions[i].ip == ip && phase.Live? then 1 else 0)
                 - (if mine && s.sessions[i].ip == ip && s.sessions[i].phase.Live? then 1 else 0)
  {
    var x := s.sessions[i].(phase := phase);
    CountIfUpdate(s.sessions, OfEmail(email), |s.sessions|, i, x);
    forall ip ensures LiveCountFrom(s', email, ip) == LiveCountFrom(s, email, ip)
                 + (if s.sessions[i].email == email && s.sessions[i].ip == ip && phase.Live? then 1 else 0)
                 - (if s.sessions[i].email == email && s.sessions[i].ip == ip && s.sessions[i].phase.Live? then 1 else 0) {
      CountIfUpdate(s.sessions, OfIp(email, ip), |s.sessions|, i, x);
    }
  }

  lemma AdmittedCounts(t: Tables, email: string, ip: string, e: string)
    requires PositiveTables(t)
    ensures var t' := Admitted(t, email, ip);
            && PositiveTables(t')
            && Active(t', e) == Active(t, e) + (if e == email then 1 else 0)
            && forall a :: a != "" ==> RefCount(t', e, a) == RefCount(t, e, a) + (if e == email && a == ip then 1 else 0)
  {
    var t' := Admitted(t, email, ip);
    if ip != "" {
      assert ip in t'.ips[email];
    }
  }

  lemma ReleasedConnection(t: Tables, email: string, ip: string, e: string)
    requires PositiveTables(t) && Active(t, email) > 0
    ensures var t' := Released(t, email, ip);
            && (forall m :: m in t'.connections ==> t'.connections[m] > 0)
            && Active(t', e) == Active(t, e) - (if e == email then 1 else 0)
  {
  }

  lemma WithoutRefCounts(refs: map<string, int>, ip: string, a: string)
    requires ip in refs && forall x :: x in refs ==> refs[x] > 0
    ensures var refs' := WithoutRef(refs, ip);
            && (forall x :: x in refs' ==> x in refs && refs'[x] > 0)
            && (if a in refs' then refs'[a] else 0) == (if a in refs then refs[a] else 0) - (if a == ip then 1 else 0)
  {
  }

  lemma ReleasedRef(t: Tables, email: string, ip: string, e: string, a: string)
    requires PositiveTables(t) && (ip != "" ==> RefCount(t, email, ip) > 0) && a != ""
    ensures RefCount(Released(t, email, ip), e, a) == RefCount(t, e, a) - (if e == email && a == ip then 1 else 0)
  {
    if ip != "" && e == email {
      WithoutRefCounts(t.ips[email], ip, a);
    }
  }

  lemma ReleasedIps(t: Tables, email: string, ip: string)
    requires PositiveTables(t) && (ip != "" ==> RefCount(t, email, ip) > 0)
    ensures forall m :: m in Released(t, email, ip).ips ==>
              var refs := Released(t, email, ip).ips[m]; refs != map[] && forall a :: a in refs ==> a != "" && refs[a] > 0
  {
    if ip != "" {
      WithoutRefCounts(t.ips[email], ip, ip);
    }
  }

  lemma ReleasedCounts(t: Tables, email: string, ip: string, e: string)
    requires PositiveTables(t) && Active(t, email) > 0 && (ip != "" ==> RefCount(t, email, ip) > 0)
    ensures var t' := Released(t, email, ip);
            && PositiveTables(t')
            && Active(t', e) == Active(t, e) - (if e == email then 1 else 0)
            && forall a :: a != "" ==> RefCount(t', e, a) == RefCount(t, e, a) - (if e == email && a == ip then 1 else 0)
  {
    ReleasedConnection(t, email, ip, e);
    ReleasedIps(t, email, ip);
    forall a | a != "" ensures RefCount(Released(t, email, ip), e, a) == RefCount(t, e, a) - (if e == email && a == ip then 1 else 0) {
      ReleasedRef(t, email, ip, e, a);
    }
  }

  /** The session being released is counted. */
  lemma LiveIsCounted(s: State, i: nat)
    requires i < |s.sessions| && s.sessions[i].phase.Live?
    ensures LiveCount(s, s.sessions[i].email) > 0 && LiveCountFrom(s, s.sessions[i].email, s.sessions[i].ip) > 0
  {
    var x := s.sessions[i];
    assert OfEmail(x.email)(s.sessions[i]) && OfIp(x.email, x.ip)(s.sessions[i]);
    CountIfSome(s.sessions, OfEmail(x.email), |s.sessions|);
    CountIfSome(s.sessions, OfIp(x.email, x.ip), |s.sessions|);
  }

  lemma OpenCounts(s: State, x: Session, email: string)
    requires !x.phase.Live?
    ensures var s' := s.(sessions := s.sessions + [x]);
            LiveCount(s', email) == LiveCount(s, email) && forall ip :: LiveCountFrom(s', email, ip) == LiveCountFrom(s, email, ip)
  {
    CountIfPrefix(s.sessions, x, OfEmail(email), |s.sessions|);
    forall ip ensures CountIf(s.sessions + [x], OfIp(email, ip), |s.sessions| + 1) == CountIf(s.sessions, OfIp(email, ip), |s.sessions|) {
      CountIfPrefix(s.sessions, x, OfIp(email, ip), |s.sessions|);
    }
  }

  lemma EventCountsAt(s: State, e: Event, email: string)
    requires Inv(s) && Legal(s, e)
    ensures PositiveTables(After(s, e).tables) && CountsAt(After(s, e), email)
  {
    assert CountsAt(s, email);
    var s' := After(s, e);
    match e
    case Open(m, ip) =>
      OpenCounts(s, Session(m, ip, Opened), email);
    case CheckMode(i) =>
      MoveCounts(s, s', i, s'.sessions[i].phase, email);
    case Snapshot(i, _) =>
      MoveCounts(s, s', i, s'.sessions[i].phase, email);
    case Admit(i) =>
      MoveCounts(s, s', i, s'.sessions[i].phase, email);
      AdmittedCounts(s.tables, s.sessions[i].email, s.sessions[i].ip, email);
    case Release(i) =>
      MoveCounts(s, s', i, Closed, email);
      assert CountsAt(s, s.sessions[i].email);
      LiveIsCounted(s, i);
      ReleasedCounts(s.tables, s.sessions[i].email, s.sessions[i].ip, email);
    case Load(_) =>
  }

  /** Every critical section of every session keeps the counts exact. */
  lemma EventKeepsInv(s: State, e: Event)
    requires Inv(s) && Legal(s, e)
    ensures Inv(After(s, e))
  {
    forall email ensures CountsAt(After(s, e), email) {
      EventCountsAt(s, e, email);
    }
    EventCountsAt(s, e, "");
  }
}
