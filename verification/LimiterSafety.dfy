/** What the limiter's interleavings keep: exact counts over every run, limits while the policy stands, and no new session
    once draining has settled. */
module LimiterSafety {
  import opened Model
  import opened Text
  import opened Accounting
  import opened PolicyFile
  import opened Limiter

  /** A run: `states[i]` before event `i`; it starts with empty tables and no session. */
  ghost predicate IsRun(states: seq<State>, events: seq<Event>)
  {
    && |states| == |events| + 1
    && states[0].tables == Tables(map[], map[]) && states[0].sessions == []
    && forall i :: 0 <= i < |events| ==> StepsAt(states, events, i)
  }

  ghost predicate StepsAt(states: seq<State>, events: seq<Event>, i: nat)
    requires i < |events| && |states| == |events| + 1
  {
    Legal(states[i], events[i]) && states[i + 1] == After(states[i], events[i])
  }

  /** Under every interleaving, `connections[e]` is the number of admitted and unreleased sessions of `e`, `ips[e][ip]` the
      number of those from `ip`, every stored count is positive, and no inner map is left empty. */
  lemma {:induction false} RunKeepsCounts(states: seq<State>, events: seq<Event>, k: nat)
    requires IsRun(states, events) && k <= |events|
    ensures Inv(states[k])
  {
    if k == 0 {
      assert states[0].sessions == [];
    } else {
      RunKeepsCounts(states, events, k - 1);
      assert StepsAt(states, events, k - 1);
      EventKeepsInv(states[k - 1], events[k - 1]);
    }
  }

  /** What some run leads to. */
  ghost predicate Reachable(s: State)
  {
    exists states, events :: IsRun(states, events) && states[|events|] == s
  }

  lemma ReachableStep(s: State, e: Event)
    requires Reachable(s) && Legal(s, e)
    ensures Reachable(After(s, e))
  {
    var states, events :| IsRun(states, events) && states[|events|] == s;
    var states', events' := states + [After(s, e)], events + [e];
    forall i | 0 <= i < |events'| ensures StepsAt(states', events', i) {
      assert i < |events| ==> StepsAt(states, events, i);
    }
    assert IsRun(states', events') && states'[|events'|] == After(s, e);
  }

  /* ---------- What an admission decides ---------- */

  /** The inner map's keys are the addresses in use. */
  lemma RefsAreLiveIps(s: State, email: string)
    requires Inv(s)
    ensures Refs(s.tables, email).Keys == LiveIps(s, email)
  {
    assert CountsAt(s, email);
    forall ip | ip in Refs(s.tables, email) ensures ip in LiveIps(s, email) {
      assert RefCount(s.tables, email, ip) == LiveCountFrom(s, email, ip) > 0;
      CountIfSome(s.sessions, OfIp(email, ip), |s.sessions|);
      var i :| 0 <= i < |s.sessions| && OfIp(email, ip)(s.sessions[i]);
      assert s.sessions[i].ip == ip;
    }
    forall ip | ip in LiveIps(s, email) ensures ip in Refs(s.tables, email) {
      var i :| 0 <= i < |s.sessions| && s.sessions[i].phase.Live? && s.sessions[i].email == email && s.sessions[i].ip != ""
               && s.sessions[i].ip == ip;
      LiveIsCounted(s, i);
      assert RefCount(s.tables, email, ip) == LiveCountFrom(s, email, ip);
    }
  }

  /** A session is admitted exactly when, under the snapshot it holds, one more session of its user fits, and its address is
      untracked, in use already, or one more address fits.  The real sessions decide, not the tables. */
  lemma AdmissionMeaning(s: State, i: nat)
    requires Inv(s) && Legal(s, Admit(i))
    ensures var x, p := s.sessions[i], s.sessions[i].phase.policy;
            After(s, Admit(i)).sessions[i].phase.Live? <==>
            && (p.connectionLimit <= 0 || LiveCount(s, x.email) < p.connectionLimit)
            && (x.ip == "" || p.ipLimit <= 0 || x.ip in LiveIps(s, x.email) || |LiveIps(s, x.email)| < p.ipLimit)
  {
    var x := s.sessions[i];
    assert CountsAt(s, x.email);
    RefsAreLiveIps(s, x.email);
    assert |Refs(s.tables, x.email)| == |Refs(s.tables, x.email).Keys|;
    if x.ip != "" {
      assert RefCount(s.tables, x.email, x.ip) != 0 <==> x.ip in Refs(s.tables, x.email);
    }
  }

  lemma MovedIps(s: State, s': State, i: nat, phase: Phase, email: string)
    requires i < |s.sessions| && s'.sessions == Moved(s, i, phase)
    ensures LiveIps(s', email) <= LiveIps(s, email) + (if phase.Live? && s.sessions[i].email == email && s.sessions[i].ip != "" then {s.sessions[i].ip} else {})
  {
    forall ip | ip in LiveIps(s', email) && !(phase.Live? && s.sessions[i].email == email && s.sessions[i].ip == ip)
      ensures ip in LiveIps(s, email)
    {
      var k :| 0 <= k < |s'.sessions| && s'.sessions[k].phase.Live? && s'.sessions[k].email == email && s'.sessions[k].ip != ""
               && s'.sessions[k].ip == ip;
      assert k != i && s.sessions[k] == s'.sessions[k];
    }
  }

  lemma SubsetSize<T>(a: set<T>, b: set<T>)
    requires a <= b
    ensures |a| <= |b|
  {
    assert b == a + (b - a);
    assert |b| == |a| + |b - a|;
  }

  /** An admission adds the address of its session, and no other. */
  lemma AdmittedIps(s: State, i: nat)
    requires Legal(s, Admit(i)) && After(s, Admit(i)).sessions[i].phase.Live?
    ensures var x := s.sessions[i];
            LiveIps(After(s, Admit(i)), x.email) == LiveIps(s, x.email) + (if x.ip == "" then {} else {x.ip})
  {
    var x, s' := s.sessions[i], After(s, Admit(i));
    MovedIps(s, s', i, Live, x.email);
    forall ip | ip in LiveIps(s, x.email) ensures ip in LiveIps(s', x.email) {
      var k :| 0 <= k < |s.sessions| && s.sessions[k].phase.Live? && s.sessions[k].email == x.email && s.sessions[k].ip != ""
               && s.sessions[k].ip == ip;
      assert s'.sessions[k] == s.sessions[k];
    }
    if x.ip != "" {
      assert s'.sessions[i].ip in LiveIps(s', x.email);
    }
  }

  /** Right after an admission its user is within the connection limit of the snapshot.  It is within the IP limit exactly when
      the session brought a new address, or the addresses in use before were within it already. */
  lemma AdmissionRespectsSnapshot(s: State, i: nat)
    requires Inv(s) && Legal(s, Admit(i)) && After(s, Admit(i)).sessions[i].phase.Live?
    ensures var x, p, s' := s.sessions[i], s.sessions[i].phase.policy, After(s, Admit(i));
            && LiveCount(s', x.email) == LiveCount(s, x.email) + 1
            && (p.connectionLimit > 0 ==> LiveCount(s', x.email) <= p.connectionLimit)
            && (p.ipLimit > 0 ==>
                  (|LiveIps(s', x.email)| <= p.ipLimit <==>
                   (x.ip == "" || x.ip in LiveIps(s, x.email) ==> |LiveIps(s, x.email)| <= p.ipLimit)))
            && (x.ip == "" || x.ip in LiveIps(s, x.email) ==> LiveIps(s', x.email) == LiveIps(s, x.email))
  {
    var x, s' := s.sessions[i], After(s, Admit(i));
    AdmissionMeaning(s, i);
    MoveCounts(s, s', i, Live, x.email);
    AdmittedIps(s, i);
    if x.ip == "" || x.ip in LiveIps(s, x.email) {
      assert LiveIps(s', x.email) == LiveIps(s, x.email);
    } else {
      assert |LiveIps(s', x.email)| == |LiveIps(s, x.email)| + 1;
    }
  }

  /** One whole call of `xnodeAdmit` without anything in between: mode check, snapshot, and the locked section. */
  function Entered(s: State, email: string, ip: string, second: int): State
  {
    var i := |s.sessions|;
    var s1 := After(After(s, Open(email, ip)), CheckMode(i));
    if !s1.sessions[i].phase.ModePassed? then s1 else
    var s2 := After(s1, Snapshot(i, second));
    if !s2.sessions[i].phase.Checked? then s2 else After(s2, Admit(i))
  }

  lemma OpenKeepsIps(s: State, x: Session, email: string)
    requires !x.phase.Live?
    ensures LiveIps(s.(sessions := s.sessions + [x]), email) == LiveIps(s, email)
  {
    var s' := s.(sessions := s.sessions + [x]);
    forall ip | ip in LiveIps(s, email) ensures ip in LiveIps(s', email) {
      var k :| 0 <= k < |s.sessions| && s.sessions[k].phase.Live? && s.sessions[k].email == email && s.sessions[k].ip != ""
               && s.sessions[k].ip == ip;
      assert s'.sessions[k] == s.sessions[k];
    }
  }

  /** A session that is not live leaves counts and addresses as they are. */
  lemma NewcomerCounts(s: State, x: Session, t: State, email: string)
    requires Inv(s) && !x.phase.Live? && t == s.(sessions := s.sessions + [x])
    ensures Inv(t) && LiveCount(t, email) == LiveCount(s, email) && LiveIps(t, email) == LiveIps(s, email)
  {
    OpenKeepsIps(s, x, email);
    forall e ensures CountsAt(t, e) && LiveCount(t, e) == LiveCount(s, e) {
      assert CountsAt(s, e);
      OpenCounts(s, x, e);
    }
  }

  /** A new session is let in exactly when the node does not drain, its user is not blocked, and one more session and its address fit
      the user's limits, counted in real sessions; otherwise it is closed. */
  lemma EntryMeaning(s: State, email: string, ip: string, second: int)
    requires Inv(s) && email != ""
    ensures var p, t := PolicyFor(s.policies, email, second), Entered(s, email, ip, second);
            && |t.sessions| == |s.sessions| + 1 && (t.sessions[|s.sessions|].phase.Live? || t.sessions[|s.sessions|].phase.Closed?)
            && (t.sessions[|s.sessions|].phase.Live? <==>
             && s.mode != "draining" && !p.blocked
             && (p.connectionLimit <= 0 || LiveCount(s, email) < p.connectionLimit)
             && (ip == "" || p.ipLimit <= 0 || ip in LiveIps(s, email) || |LiveIps(s, email)| < p.ipLimit))
  {
    var p, i := PolicyFor(s.policies, email, second), |s.sessions|;
    if s.mode != "draining" && !p.blocked {
      var x := Session(email, ip, Checked(p));
      var t := s.(sessions := s.sessions + [x]);
      assert After(After(After(s, Open(email, ip)), CheckMode(i)), Snapshot(i, second)) == t;
      NewcomerCounts(s, x, t, email);
      AdmissionMeaning(t, i);
    }
  }

  /** A session without an authenticated user is let in unless the node drains, and is counted nowhere. */
  lemma AnonymousEntry(s: State, ip: string, second: int)
    ensures var t := Entered(s, "", ip, second);
            && t.tables == s.tables && |t.sessions| == |s.sessions| + 1
            && t.sessions[|s.sessions|].phase == if s.mode == "draining" then Closed else Uncounted
  {
  }

  /** Right after the document of a state is loaded: a new session of a user is let in exactly when the state's mode is not draining,
      the user is enabled, and one more session and its address fit the user's own limits; an inbound can turn the IP limit off. */
  lemma DocumentDecidesEntry(s: State, file: Option<CorePolicyFile>, state: DesiredState, now: nat, i: nat, j: nat, e: string, ip: string,
                             second: int)
    requires Inv(s) && LastUser(state.inbounds, i, j, e)
    ensures var u, t := state.inbounds[i].users[j], Entered(After(s, Load(Loaded(Written(file, state, now)))), e, ip, second);
            |t.sessions| == |s.sessions| + 1 &&
            (t.sessions[|s.sessions|].phase.Live? <==>
             && state.mode != "draining" && u.enabled
             && (u.limits.connectionLimit <= 0 || LiveCount(s, e) < u.limits.connectionLimit)
             && (ip == "" || u.limits.ipLimit <= 0 || ToLower(state.inbounds[i].ipLimitMode) == "off"
                 || ip in LiveIps(s, e) || |LiveIps(s, e)| < u.limits.ipLimit))
  {
    var loaded := After(s, Load(Loaded(Written(file, state, now))));
    EventKeepsInv(s, Load(Loaded(Written(file, state, now))));
    PolicyOfLastUser(file, state, now, i, j, e);
    assert loaded.sessions == s.sessions;
    assert LiveCount(loaded, e) == LiveCount(s, e) && LiveIps(loaded, e) == LiveIps(s, e);
    assert e[0] == 'u';
    EntryMeaning(loaded, e, ip, second);
  }

  /** What a reload takes over: the document of a state brings its mode, active if it names none, and its entries; a missing file lets
      everybody in; a document of another version, like one that cannot be read or has not changed, is ignored. */
  lemma ReloadMeaning(s: State, file: Option<CorePolicyFile>, state: DesiredState, now: nat, doc: CorePolicyFile, read: FileRead)
    ensures var t := After(s, Load(Loaded(Written(file, state, now))));
            t.mode == (if state.mode == "" then "active" else state.mode) && t.policies == Written(file, state, now).users
    ensures var t := After(s, Load(Missing)); t.mode == "active" && t.policies == map[]
    ensures doc.version == 1 ==>
              var t := After(s, Load(Loaded(doc))); t.mode == (if doc.mode == "" then "active" else doc.mode) && t.policies == doc.users
    ensures doc.version != 1 ==> After(s, Load(Loaded(doc))) == s
    ensures !read.Missing? && !read.Loaded? ==> After(s, Load(read)) == s
  {
  }

  /** A live session of a user of the state reads and writes exactly while its user is enabled, has the session's generation, and has
      no more live sessions than it may. */
  lemma LiveSessionIO(s: State, file: Option<CorePolicyFile>, state: DesiredState, now: nat, i: nat, j: nat, e: string, second: int,
                      generation: int, downlink: bool)
    requires Inv(s) && LastUser(state.inbounds, i, j, e) && s.policies == Written(file, state, now).users
    ensures var u := state.inbounds[i].users[j];
            WaitGate(PolicyFor(s.policies, e, second), generation, Active(s.tables, e), downlink).0.Passed? <==>
            && u.enabled && u.sessionGeneration == generation
            && (u.limits.connectionLimit <= 0 || LiveCount(s, e) <= u.limits.connectionLimit)
  {
    assert CountsAt(s, e);
    CurrentSessionIO(file, state, now, i, j, e, second, generation, Active(s.tables, e), downlink);
  }

  /** A new session passes its mode check and takes its snapshot. */
  lemma Approach(s: State, email: string, ip: string) returns (t: State)
    requires Reachable(s) && s.mode != "draining" && email != "" && !PolicyFor(s.policies, email, 0).blocked
    ensures Reachable(t) && t.mode == s.mode && t.policies == s.policies
    ensures t.sessions == s.sessions + [Session(email, ip, Checked(PolicyFor(s.policies, email, 0)))]
  {
    var i := |s.sessions|;
    ReachableStep(s, Open(email, ip));
    var s1 := After(s, Open(email, ip));
    ReachableStep(s1, CheckMode(i));
    var s2 := After(s1, CheckMode(i));
    ReachableStep(s2, Snapshot(i, 0));
    t := After(s2, Snapshot(i, 0));
  }

  /** A session of an unlimited user is admitted. */
  lemma Enter(s: State, email: string, ip: string) returns (t: State)
    requires Reachable(s) && s.mode != "draining" && email != "" && email !in s.policies
    ensures Reachable(t) && t.mode == s.mode && t.policies == s.policies
    ensures t.sessions == s.sessions + [Session(email, ip, Live)]
  {
    var s1 := Approach(s, email, ip);
    ReachableStep(s1, Admit(|s.sessions|));
    t := After(s1, Admit(|s.sessions|));
  }

  lemma EmptyIsReachable()
    ensures Reachable(State("", map[], Tables(map[], map[]), []))
  {
    var s := State("", map[], Tables(map[], map[]), []);
    assert IsRun([s], []);
  }

  const TwoAddresses := CorePolicyFile(1, 0, "active", map["e" := CorePolicy(0, 0, 0, 2, false, 0, 0)])

  lemma ThreeEnter() returns (s: State)
    ensures Reachable(s) && s.mode != "draining"
    ensures s.sessions == [Session("e", "a", Live), Session("e", "b", Live), Session("e", "c", Live)]
  {
    EmptyIsReachable();
    s := Enter(State("", map[], Tables(map[], map[]), []), "e", "a");
    s := Enter(s, "e", "b");
    s := Enter(s, "e", "c");
  }

  /** A reachable failure: three addresses are in use when a document with an IP limit of two is loaded, and a new session from
      one of them is admitted, with three addresses still in use. */
  lemma InUseAddressExceedsLimit() returns (s: State)
    ensures Reachable(s) && Legal(s, Admit(3)) && s.sessions[3] == Session("e", "a", Checked(TwoAddresses.users["e"]))
    ensures After(s, Admit(3)).sessions[3].phase.Live?
    ensures |LiveIps(After(s, Admit(3)), "e")| == 3 > s.sessions[3].phase.policy.ipLimit
  {
    var before := ThreeEnter();
    ReachableStep(before, Load(Loaded(TwoAddresses)));
    s := Approach(After(before, Load(Loaded(TwoAddresses))), "e", "a");
    assert s.sessions[..3] == before.sessions;
    ReachableIsExact(s);
    ThreeAddresses(s);
    AdmissionMeaning(s, 3);
    AdmissionRespectsSnapshot(s, 3);
  }

  lemma ThreeAddresses(s: State)
    requires |s.sessions| == 4 && !s.sessions[3].phase.Live?
    requires s.sessions[..3] == [Session("e", "a", Live), Session("e", "b", Live), Session("e", "c", Live)]
    ensures LiveIps(s, "e") == {"a", "b", "c"} && |LiveIps(s, "e")| == 3
  {
    assert s.sessions[0] == s.sessions[..3][0] && s.sessions[1] == s.sessions[..3][1] && s.sessions[2] == s.sessions[..3][2];
    assert "a" != "b" && "b" != "c" && "a" != "c" by {
      assert "a"[0] == 'a' && "b"[0] == 'b' && "c"[0] == 'c';
    }
  }

  lemma ReachableIsExact(s: State)
    requires Reachable(s)
    ensures Inv(s)
  {
    var states, events :| IsRun(states, events) && states[|events|] == s;
    RunKeepsCounts(states, events, |events|);
  }

  /* ---------- Limits while the policy stands ---------- */

  /** The loaded policies block the user or cap its sessions at `c` and its addresses at `a`, and not by a tombstone that can
      expire.  A cap that is not positive asks for nothing, so a policy always caps at its own limits. */
  predicate Caps(policies: map<string, CorePolicy>, email: string, c: int, a: int)
  {
    email in policies && policies[email].tombstoneUntil <= 0 &&
    (policies[email].blocked || Capped(policies[email], c, a))
  }

  predicate Capped(p: CorePolicy, c: int, a: int)
  {
    (c > 0 ==> 0 < p.connectionLimit <= c) && (a > 0 ==> 0 < p.ipLimit <= a)
  }

  ghost predicate AtMost(s: State, email: string, c: int, a: int)
  {
    (c > 0 ==> LiveCount(s, email) <= c) && (a > 0 ==> |LiveIps(s, email)| <= a)
  }

  /** The user is within the limits, and so are the snapshots of its sessions on their way in. */
  ghost predicate Within(s: State, email: string, c: int, a: int)
  {
    && Caps(s.policies, email, c, a)
    && AtMost(s, email, c, a)
    && forall i :: 0 <= i < |s.sessions| && s.sessions[i].email == email && s.sessions[i].phase.Checked? ==>
                     Capped(s.sessions[i].phase.policy, c, a)
  }

  lemma AdmitKeepsLimits(s: State, i: nat, email: string, c: int, a: int)
    requires Inv(s) && Within(s, email, c, a) && Legal(s, Admit(i))
    ensures AtMost(After(s, Admit(i)), email, c, a)
  {
    var s', x := After(s, Admit(i)), s.sessions[i];
    MoveCounts(s, s', i, s'.sessions[i].phase, email);
    MovedIps(s, s', i, s'.sessions[i].phase, email);
    if s'.sessions[i].phase.Live? && x.email == email {
      AdmissionRespectsSnapshot(s, i);
      if x.ip == "" || x.ip in LiveIps(s, email) {
        SubsetSize(LiveIps(s', email), LiveIps(s, email));
      }
    } else {
      SubsetSize(LiveIps(s', email), LiveIps(s, email));
    }
  }

  lemma OtherKeepsLimits(s: State, e: Event, email: string, c: int, a: int)
    requires Inv(s) && Within(s, email, c, a) && Legal(s, e) && !e.Admit?
    ensures AtMost(After(s, e), email, c, a)
  {
    var s' := After(s, e);
    if e.Open? {
      OpenCounts(s, Session(e.email, e.ip, Opened), email);
      assert LiveIps(s', email) <= LiveIps(s, email);
    } else if e.Load? {
      assert s'.sessions == s.sessions;
      assert LiveIps(s', email) == LiveIps(s, email);
    } else {
      MoveCounts(s, s', e.i, s'.sessions[e.i].phase, email);
      MovedIps(s, s', e.i, s'.sessions[e.i].phase, email);
    }
    SubsetSize(LiveIps(s', email), LiveIps(s, email));
  }

  lemma EventKeepsWithin(s: State, e: Event, email: string, c: int, a: int)
    requires Inv(s) && Within(s, email, c, a) && Legal(s, e) && Caps(After(s, e).policies, email, c, a)
    ensures Within(After(s, e), email, c, a)
  {
    var s' := After(s, e);
    if e.Admit? {
      AdmitKeepsLimits(s, e.i, email, c, a);
    } else {
      OtherKeepsLimits(s, e, email, c, a);
    }
    forall i | 0 <= i < |s'.sessions| && s'.sessions[i].email == email && s'.sessions[i].phase.Checked?
      ensures Capped(s'.sessions[i].phase.policy, c, a)
    {
      if e.Snapshot? && e.i == i {
        assert s'.sessions[i].phase.policy == PolicyFor(s.policies, email, e.second);
      } else {
        assert i < |s.sessions| && s'.sessions[i] == s.sessions[i];
      }
    }
  }

  /** As long as every loaded policy document caps a user, no interleaving takes it above its limits. */
  lemma {:induction false} LimitsHold(states: seq<State>, events: seq<Event>, from: nat, k: nat, email: string, c: int, a: int)
    requires IsRun(states, events) && from <= k <= |events|
    requires Within(states[from], email, c, a)
    requires forall i :: from <= i <= k ==> Caps(states[i].policies, email, c, a)
    ensures Within(states[k], email, c, a)
  {
    if from < k {
      LimitsHold(states, events, from, k - 1, email, c, a);
      RunKeepsCounts(states, events, k - 1);
      assert StepsAt(states, events, k - 1);
      EventKeepsWithin(states[k - 1], events[k - 1], email, c, a);
    }
  }

  /* ---------- Draining ---------- */

  function LiveSet(s: State): set<nat>
  {
    set i: nat | i < |s.sessions| && s.sessions[i].phase.Live?
  }

  predicate InFlight(s: State, i: nat)
    requires i < |s.sessions|
  {
    s.sessions[i].phase.ModePassed? || s.sessions[i].phase.Checked?
  }

  /** Draining is loaded, and no session is between its mode check and its admission. */
  ghost predicate Settled(s: State)
  {
    s.mode == "draining" && forall i :: 0 <= i < |s.sessions| ==> !InFlight(s, i)
  }

  lemma EventKeepsSettled(s: State, e: Event)
    requires Settled(s) && Legal(s, e) && After(s, e).mode == "draining"
    ensures Settled(After(s, e)) && LiveSet(After(s, e)) <= LiveSet(s)
  {
    var s' := After(s, e);
    forall i | 0 <= i < |s'.sessions| ensures !InFlight(s', i) && (i in LiveSet(s') ==> i in LiveSet(s)) {
      if i < |s.sessions| {
        assert !InFlight(s, i);
      }
    }
  }

  /** Any stretch of a run, from whatever state: `states[i]` before event `i`. */
  ghost predicate IsStretch(states: seq<State>, events: seq<Event>)
  {
    |states| == |events| + 1 && forall i :: 0 <= i < |events| ==> StepsAt(states, events, i)
  }

  /** Once draining has settled, the set of live authenticated sessions only shrinks until the mode changes. */
  lemma {:induction false} DrainingNeverAdmits(states: seq<State>, events: seq<Event>, from: nat, k: nat)
    requires IsStretch(states, events) && from <= k <= |events| && Settled(states[from])
    requires forall i :: from <= i <= k ==> states[i].mode == "draining"
    ensures Settled(states[k]) && LiveSet(states[k]) <= LiveSet(states[from])
  {
    if from < k {
      DrainingNeverAdmits(states, events, from, k - 1);
      assert StepsAt(states, events, k - 1);
      EventKeepsSettled(states[k - 1], events[k - 1]);
    }
  }

  /** Some stretch leads from `s` to `t` while the node keeps draining. */
  ghost predicate DrainsInto(s: State, t: State)
  {
    exists states, events :: DrainingStretch(states, events, s, t)
  }

  ghost predicate DrainingStretch(states: seq<State>, events: seq<Event>, s: State, t: State)
  {
    && IsStretch(states, events) && states[0] == s && states[|events|] == t
    && forall i :: 0 <= i < |states| ==> states[i].mode == "draining"
  }

  lemma DrainsIntoItself(s: State)
    requires s.mode == "draining"
    ensures DrainsInto(s, s)
  {
    assert DrainingStretch([s], [], s, s);
  }

  lemma DrainsOn(s: State, t: State, e: Event)
    requires DrainsInto(s, t) && Legal(t, e) && After(t, e).mode == "draining"
    ensures DrainsInto(s, After(t, e))
  {
    var states, events :| DrainingStretch(states, events, s, t);
    var states', events' := states + [After(t, e)], events + [e];
    forall i | 0 <= i < |events'| ensures StepsAt(states', events', i) {
      assert i < |events| ==> StepsAt(states, events, i);
    }
    assert DrainingStretch(states', events', s, After(t, e));
  }

  /** The live sessions of a user can all be released while the node drains. */
  lemma {:induction false} ReleaseAll(s: State, now: State, email: string, i: nat) returns (t: State)
    requires DrainsInto(s, now) && Inv(now) && now.mode == "draining" && i < |now.sessions| && !now.sessions[i].phase.Live?
    ensures DrainsInto(s, t) && Inv(t) && t.mode == "draining" && t.policies == now.policies
    ensures |t.sessions| == |now.sessions| && t.sessions[i] == now.sessions[i] && LiveCount(t, email) == 0
    decreases LiveCount(now, email)
  {
    CountIfSome(now.sessions, OfEmail(email), |now.sessions|);
    if LiveCount(now, email) == 0 {
      t := now;
    } else {
      var k :| 0 <= k < |now.sessions| && OfEmail(email)(now.sessions[k]);
      DrainsOn(s, now, Release(k));
      EventKeepsInv(now, Release(k));
      MoveCounts(now, After(now, Release(k)), k, Closed, email);
      t := ReleaseAll(s, After(now, Release(k)), email, i);
    }
  }

  /** Without live sessions of its user a session is within any limits. */
  lemma NobodyLiveFits(s: State, i: nat)
    requires Inv(s) && Legal(s, Admit(i)) && LiveCount(s, s.sessions[i].email) == 0
    ensures After(s, Admit(i)).sessions[i].phase.Live?
  {
    var email := s.sessions[i].email;
    AdmissionMeaning(s, i);
    forall ip ensures ip !in LiveIps(s, email) {
      if ip in LiveIps(s, email) {
        var k :| 0 <= k < |s.sessions| && s.sessions[k].phase.Live? && s.sessions[k].email == email && s.sessions[k].ip != ""
                 && s.sessions[k].ip == ip;
        LiveIsCounted(s, k);
      }
    }
    assert LiveIps(s, email) == {};
  }

  const DrainingDocument := CorePolicyFile(1, 0, "draining", map[])

  /** A session on its way in gets a snapshot while the node drains. */
  lemma GetsSnapshot(s: State, i: nat) returns (t: State)
    requires Inv(s) && s.mode == "draining" && i < |s.sessions| && InFlight(s, i)
    ensures DrainsInto(s, t) && Inv(t) && t.mode == "draining" && |t.sessions| == |s.sessions| && t.sessions[i].phase.Checked?
  {
    DrainsIntoItself(s);
    t := s;
    if s.sessions[i].phase.ModePassed? {
      DrainsOn(s, t, Load(Loaded(DrainingDocument)));
      EventKeepsInv(t, Load(Loaded(DrainingDocument)));
      t := After(t, Load(Loaded(DrainingDocument)));
      DrainsOn(s, t, Snapshot(i, 0));
      EventKeepsInv(t, Snapshot(i, 0));
      t := After(t, Snapshot(i, 0));
    }
  }

  /** Any session on its way in can still be admitted while the node drains. */
  lemma InFlightIsAdmitted(s: State, i: nat) returns (t: State)
    requires Inv(s) && s.mode == "draining" && i < |s.sessions| && InFlight(s, i)
    ensures DrainsInto(s, t) && i in LiveSet(t) && i !in LiveSet(s)
  {
    var s1 := GetsSnapshot(s, i);
    var s2 := ReleaseAll(s, s1, s1.sessions[i].email, i);
    NobodyLiveFits(s2, i);
    DrainsOn(s, s2, Admit(i));
    t := After(s2, Admit(i));
  }

  /** A draining node admits nobody any more, however it goes on, exactly when no session is on its way in. */
  lemma DrainingHoldsExactlyWhenSettled(s: State)
    requires Inv(s) && s.mode == "draining"
    ensures (forall t :: DrainsInto(s, t) ==> LiveSet(t) <= LiveSet(s)) <==> Settled(s)
  {
    if Settled(s) {
      forall t | DrainsInto(s, t) ensures LiveSet(t) <= LiveSet(s) {
        var states, events :| DrainingStretch(states, events, s, t);
        DrainingNeverAdmits(states, events, 0, |events|);
      }
    } else {
      var i :| 0 <= i < |s.sessions| && InFlight(s, i);
      var t := InFlightIsAdmitted(s, i);
    }
  }

  /** In one step: a session that passed the mode check before draining was loaded is still admitted after it,
      whenever its limits allow. */
  lemma InFlightSlipsThrough(s: State, doc: CorePolicyFile, i: nat)
    requires Legal(s, Admit(i)) && doc.version == 1 && doc.mode == "draining"
    requires WithinLimits(s.tables, s.sessions[i].email, s.sessions[i].ip, s.sessions[i].phase.policy)
    ensures var draining := After(s, Load(Loaded(doc)));
            draining.mode == "draining" && Legal(draining, Admit(i)) && LiveSet(After(draining, Admit(i))) == LiveSet(draining) + {i}
            && i !in LiveSet(draining)
  {
    var draining := After(s, Load(Loaded(doc)));
    var after := After(draining, Admit(i));
    forall k: nat ensures k in LiveSet(after) <==> k in LiveSet(draining) || k == i {
    }
  }
}
