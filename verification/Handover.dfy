/**
 * Several sessions over one replica set. Legs of an old session may still be in flight
 * when a new one logs in; what the login returns must cover all of them that count.
 */
module Handover {
  import opened CraftTypes
  import opened Replica
  import opened Cluster

  /** A login that happened: the members it reached and the dLSN it returned. */
  datatype Login = Login(live: set<nat>, dlsn: Lsn)

  /** `acks` holds (term, dLSN, member) for every leg a replica accepted. */
  datatype World = World(pageSize: nat, reps: seq<Rep>, term: nat, logins: map<nat, Login>, acks: set<(nat, Lsn, nat)>)

  datatype Event =
    | LogIn(live: set<nat>, token: nat)
    | LogOut(live: set<nat>)
    | Arrive(t: nat, d: Lsn, i: nat, c: Lsn, addr: nat, len: nat, data: Option<seq<u8>>)  // a leg of session `t`
    | KeepAlive(t: nat, i: nat, c: Lsn)
    | Resolve(live: set<nat>, upto: Lsn)

  ghost predicate Sane(w: World) {
    w.pageSize > 0 && Journals(w.reps, w.pageSize)
  }

  ghost predicate Possible(w: World, e: Event) {
    match e
    case LogIn(live, token) => LiveQuorum(w.reps, live)
    case LogOut(live) => live <= Members(|w.reps|)
    case Arrive(t, d, i, c, addr, len, data) => i < |w.reps| && t in w.logins && w.logins[t].dlsn < d
    case KeepAlive(t, i, c) => i < |w.reps|
    case Resolve(live, upto) => LiveQuorum(w.reps, live)
  }

  ghost function After(w: World, e: Event): (w': World)
    requires Sane(w) && Possible(w, e)
  {
    match e
    case LogIn(live, token) =>
      w.(reps := RunLogin(w.reps, live, token, w.term + 1), term := w.term + 1,
         logins := w.logins[w.term + 1 := Login(live, LoginDlsn(w.reps, live))])
    case LogOut(live) => w.(reps := LogOutAll(w.reps, live))
    case Arrive(t, d, i, c, addr, len, data) =>
      var (r, result) := DoWrite(w.reps[i], Hdr(t, c), d, addr, len, data);
      w.(reps := w.reps[i := r], acks := if result.Ok? then w.acks + {(t, d, i)} else w.acks)
    case KeepAlive(t, i, c) => w.(reps := w.reps[i := DoKeepAlive(w.reps[i], Hdr(t, c)).0])
    case Resolve(live, upto) => w.(reps := RunResolution(w.reps, live, upto, w.pageSize))
  }

  ghost predicate History(w: World, events: seq<Event>, w': World)
    decreases |events|
  {
    if events == [] then w' == w
    else Sane(w) && Possible(w, events[0]) && History(After(w, events[0]), events[1..], w')
  }

  /** Before the first login. */
  ghost predicate Unborn(w: World) {
    && Sane(w) && w.term == 0 && w.logins == map[] && w.acks == {}
    && forall i :: 0 <= i < |w.reps| ==> w.reps[i].term == 0
  }

  // ---------------------------------------------------------------- the invariant

  /** A replica in session `t` took part in no later login. */
  ghost predicate TermOk(w: World, i: nat)
    requires i < |w.reps|
  {
    && w.reps[i].term <= w.term
    && forall t :: t in w.logins && i in w.logins[t].live && w.reps[i].term > 0 ==> t <= w.reps[i].term
  }

  ghost predicate LoginOk(w: World, t: nat)
    requires t in w.logins
  {
    0 < t <= w.term && LiveQuorum(w.reps, w.logins[t].live)
  }

  /** An accepted leg is below its member's append mark and below every later login that reached the member. */
  ghost predicate AckOk(w: World, a: (nat, Lsn, nat)) {
    var (t, d, i) := a;
    && i < |w.reps| && d <= w.reps[i].lastAppend && t in w.logins && w.logins[t].dlsn < d
    && forall t' :: t' in w.logins && t < t' && i in w.logins[t'].live ==> d <= w.logins[t'].dlsn
  }

  ghost predicate Covered(w: World) {
    && Sane(w)
    && (forall i: nat :: i < |w.reps| ==> TermOk(w, i))
    && (forall t :: t in w.logins ==> LoginOk(w, t))
    && (forall a :: a in w.acks ==> AckOk(w, a))
  }

  /** Outside a login: append marks only grow, terms stay or are cleared, nothing else moves. */
  ghost predicate Quiet(w: World, w': World) {
    && w'.pageSize == w.pageSize && w'.term == w.term && w'.logins == w.logins && |w'.reps| == |w.reps|
    && (forall i :: 0 <= i < |w.reps| ==> w.reps[i].lastAppend <= w'.reps[i].lastAppend)
    && (forall i :: 0 <= i < |w.reps| ==> w'.reps[i].term in {0, w.reps[i].term})
  }

  lemma QuietKeeps(w: World, w': World)
    requires Covered(w) && Sane(w') && Quiet(w, w')
    requires forall a :: a in w'.acks && a !in w.acks ==> AckOk(w', a)
    ensures Covered(w')
  {
    forall i: nat | i < |w'.reps| ensures TermOk(w', i) { assert TermOk(w, i); }
    forall t | t in w'.logins ensures LoginOk(w', t) { assert LoginOk(w, t); }
    forall a | a in w'.acks ensures AckOk(w', a) {
      if a in w.acks { AckStays(w, w', a); }
    }
  }

  lemma AckStays(w: World, w': World, a: (nat, Lsn, nat))
    requires AckOk(w, a) && Quiet(w, w')
    ensures AckOk(w', a)
  {
    assert w.reps[a.2].lastAppend <= w'.reps[a.2].lastAppend;
  }

  lemma ArriveKeeps(w: World, e: Event)
    requires Covered(w) && e.Arrive? && Possible(w, e)
    ensures Covered(After(w, e))
  {
    var w' := After(w, e);
    assert TermOk(w, e.i);
    QuietKeeps(w, w');
  }

  /** A login moves the members it reaches to the new term and keeps every append mark. */
  ghost predicate Joined(w: World, w': World, live: set<nat>) {
    && w'.pageSize == w.pageSize && w'.term == w.term + 1 && w'.acks == w.acks && |w'.reps| == |w.reps|
    && w'.logins == w.logins[w'.term := Login(live, LoginDlsn(w.reps, live))]
    && (forall i :: 0 <= i < |w.reps| ==> w'.reps[i].lastAppend == w.reps[i].lastAppend)
    && (forall i :: 0 <= i < |w.reps| ==> w'.reps[i].term == if i in live then w'.term else w.reps[i].term)
  }

  lemma LogInJoins(w: World, live: set<nat>, token: nat)
    requires Sane(w) && LiveQuorum(w.reps, live)
    ensures var w' := After(w, LogIn(live, token)); Sane(w') && Joined(w, w', live)
  {
    var rs := LoginDlsn(w.reps, live);
    forall i | 0 <= i < |w.reps| && i in live
      ensures var r := LoginOne(w.reps[i], rs, token, w.term + 1);
        r.lastAppend == w.reps[i].lastAppend && r.term == w.term + 1 && r.journal == w.reps[i].journal
    {
      assert w.reps[i].lastAppend <= rs;
    }
  }

  lemma LogInKeeps(w: World, w': World, live: set<nat>)
    requires Covered(w) && Sane(w') && LiveQuorum(w.reps, live) && Joined(w, w', live)
    ensures Covered(w')
  {
    forall i: nat | i < |w'.reps| ensures TermOk(w', i) {
      assert TermOk(w, i);
      forall t | t in w'.logins && i in w'.logins[t].live && w'.reps[i].term > 0 ensures t <= w'.reps[i].term {
        assert t in w.logins ==> LoginOk(w, t);
      }
    }
    forall t | t in w'.logins ensures LoginOk(w', t) { assert t in w.logins ==> LoginOk(w, t); }
    forall a | a in w'.acks ensures AckOk(w', a) { AckCovered(w, w', live, a); }
  }

  lemma AckCovered(w: World, w': World, live: set<nat>, a: (nat, Lsn, nat))
    requires Covered(w) && Joined(w, w', live) && a in w.acks
    ensures AckOk(w', a)
  {
    assert AckOk(w, a) && LoginOk(w, a.0);
    if a.2 in live { assert w.reps[a.2].lastAppend <= LoginDlsn(w.reps, live); }
  }

  lemma EventKeeps(w: World, e: Event)
    requires Covered(w) && Possible(w, e)
    ensures Covered(After(w, e))
  {
    match e
    case LogIn(live, token) =>
      LogInJoins(w, live, token);
      LogInKeeps(w, After(w, e), live);
    case LogOut(live) => QuietKeeps(w, After(w, e));
    case Arrive(_, _, _, _, _, _, _) => ArriveKeeps(w, e);
    case KeepAlive(t, i, c) => QuietKeeps(w, After(w, e));
    case Resolve(live, upto) =>
      RoundJournals(w.reps, live, upto, w.pageSize);
      forall i: nat | i < |w.reps| ensures Moved(w.reps[i], After(w, e).reps[i]) {
        RoundAt(w.reps, live, upto, w.pageSize, i, 0);
      }
      QuietKeeps(w, After(w, e));
  }

  ghost predicate Moved(r: Rep, r': Rep) {
    r'.term == r.term && r.lastAppend <= r'.lastAppend
  }

  lemma {:induction false} HistoryKeeps(w: World, events: seq<Event>, w': World)
    requires Covered(w) && History(w, events, w')
    ensures Covered(w')
    decreases |events|
  {
    if events != [] {
      EventKeeps(w, events[0]);
      HistoryKeeps(After(w, events[0]), events[1..], w');
    }
  }

  // ---------------------------------------------------------------- a deposed session

  /** Member `i` has left session `t`, by a later login or by a logout. */
  predicate Left(w: World, t: nat, i: nat) {
    0 < t <= w.term && i < |w.reps| && w.reps[i].term != t
  }

  /** Taking part in a later login, or in a logout, leaves every session there has been. */
  lemma LeavesSession(w: World, e: Event, t: nat, i: nat)
    requires Covered(w) && Possible(w, e) && 0 < t <= w.term && i < |w.reps|
    requires (e.LogIn? || e.LogOut?) && i in e.live
    ensures Left(After(w, e), t, i)
  {
    if e.LogIn? { LogInJoins(w, e.live, e.token); }
  }

  /** A member never comes back to a session it has left. */
  lemma StaysLeft(w: World, e: Event, t: nat, i: nat)
    requires Covered(w) && Possible(w, e) && Left(w, t, i)
    ensures Left(After(w, e), t, i)
  {
    match e
    case LogIn(live, token) => LogInJoins(w, live, token);
    case Resolve(live, upto) => RoundAt(w.reps, live, upto, w.pageSize, i, 0);
    case _ =>
  }

  /** What it says to a write or a keep_alive of that session: no, and nothing has changed. */
  lemma LeftRefuses(w: World, t: nat, i: nat, c: Lsn, d: Lsn, addr: nat, len: nat, data: Option<seq<u8>>)
    requires Sane(w) && Left(w, t, i)
    ensures DoKeepAlive(w.reps[i], Hdr(t, c)) == (w.reps[i], Err(StaleTerm))
    ensures var (r, result) := DoWrite(w.reps[i], Hdr(t, c), d, addr, len, data);
      r == w.reps[i] && result in {Err(StaleTerm), Err(InvalidArgument)}
    ensures w.pageSize > 0 && Aligned(w.pageSize, addr, len) && (data.Some? ==> |data.value| == len) ==>
      DoWrite(w.reps[i], Hdr(t, c), d, addr, len, data).1 == Err(StaleTerm)
  {
  }

  /** An event that is a request of session `t` to member `i`. */
  predicate AsksIn(e: Event, t: nat, i: nat) {
    (e.Arrive? || e.KeepAlive?) && e.t == t && e.i == i
  }

  /**
   * From a later login or a logout on, whatever else happens, no request of the old session
   * changes the member or is acked by it.
   */
  lemma {:induction false} DeposedForGood(w: World, events: seq<Event>, w': World, t: nat, i: nat, e: Event)
    requires Covered(w) && Left(w, t, i) && History(w, events, w')
    ensures Left(w', t, i) && Covered(w')
    ensures Possible(w', e) && AsksIn(e, t, i) ==> After(w', e).reps == w'.reps && After(w', e).acks == w'.acks
    decreases |events|
  {
    if events == [] {
      if Possible(w', e) && AsksIn(e, t, i) {
        if e.Arrive? {
          LeftRefuses(w', t, i, e.c, e.d, e.addr, e.len, e.data);
        } else {
          LeftRefuses(w', t, i, e.c, 0, 0, 0, None);
        }
        assert w'.reps[i := w'.reps[i]] == w'.reps;
      }
    } else {
      EventKeeps(w, events[0]);
      StaysLeft(w, events[0], t, i);
      DeposedForGood(After(w, events[0]), events[1..], w', t, i, e);
    }
  }

  // ---------------------------------------------------------------- the theorems

  /** The members that accepted dLSN `d` of session `t`. */
  ghost function Ackers(w: World, t: nat, d: Lsn): (m: set<nat>)
    ensures forall i :: i in m <==> i < |w.reps| && (t, d, i) in w.acks
  {
    set i | i in Members(|w.reps|) && (t, d, i) in w.acks
  }

  ghost predicate QuorumAckedIn(w: World, t: nat, d: Lsn) {
    |Ackers(w, t, d)| >= Quorum(|w.reps|)
  }

  /**
   * Every write quorum-acked under an earlier term, even with acks that arrived after
   * the later login, has a dLSN at most the one that login returned.
   */
  lemma LoginCoversAcked(w0: World, events: seq<Event>, w: World, t: nat, d: Lsn, t': nat)
    requires Unborn(w0) && History(w0, events, w)
    requires QuorumAckedIn(w, t, d) && t' in w.logins && t < t'
    ensures d <= w.logins[t'].dlsn
  {
    HistoryKeeps(w0, events, w);
    assert LoginOk(w, t');
    var i := QuorumsIntersect(|w.reps|, Ackers(w, t, d), w.logins[t'].live);
    assert AckOk(w, (t, d, i));
  }

  /** So no two sessions ever share a quorum-acked dLSN. */
  lemma SessionsDisjoint(w0: World, events: seq<Event>, w: World, t: nat, t': nat, d: Lsn)
    requires Unborn(w0) && History(w0, events, w)
    requires QuorumAckedIn(w, t, d) && QuorumAckedIn(w, t', d)
    ensures t == t'
  {
    HistoryKeeps(w0, events, w);
    SomeAcker(w, t, d);
    SomeAcker(w, t', d);
    if t < t' { LoginCoversAcked(w0, events, w, t, d, t'); }
    if t' < t { LoginCoversAcked(w0, events, w, t', d, t); }
  }

  lemma SomeAcker(w: World, t: nat, d: Lsn)
    requires Covered(w) && QuorumAckedIn(w, t, d)
    ensures t in w.logins && w.logins[t].dlsn < d
  {
    assert Ackers(w, t, d) != {};
    var i :| i in Ackers(w, t, d);
    assert AckOk(w, (t, d, i));
  }
}
