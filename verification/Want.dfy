/**
 * Failed writes record how far they need the set resolved and start one resolution leg
 * per member; each leg drains the want. Every atomic access is one step, and any number
 * of failed writes and legs interleave freely.
 */
module Want {
  import opened CraftTypes

  /** A failed write in request_resolution_round: before recording its want, then at member `m`. */
  datatype Requester = Noting(upto: nat) | Firing(m: nat)

  /** A resolution leg to member `m`. From `Peeking` to `Failing` it owns the member's flag. */
  datatype Leg =
    | Peeking(m: nat)
    | Calling(m: nat, upto: Lsn)
    | Retiring(m: nat, resolved: Lsn)
    | Releasing(m: nat)
    | Failing(m: nat)
    | Rechecking(m: nat)
    | Retrying(m: nat)
    | Gone(m: nat, error: bool)

  predicate Owns(l: Leg) {
    l.Peeking? || l.Calling? || l.Retiring? || l.Releasing? || l.Failing?
  }

  /** Between giving the flag up and deciding whether to go on. */
  predicate Lingers(l: Leg) {
    l.Rechecking? || l.Retrying?
  }

  /** `want` is -1 when nothing is pending; `errors` holds the members whose last leg ended in an error. */
  datatype Wants = Wants(
    n: nat,
    want: Lsn,
    flags: seq<bool>,
    reqs: map<nat, Requester>,
    legs: map<nat, Leg>,
    errors: set<nat>)

  datatype Move =
    | Note(q: nat)
    | Fire(q: nat, id: nat)                      // try_begin_resolution on the next member; `id` names a new leg
    | Peek(id: nat)                              // is a want pending?
    | Reply(id: nat, resolved: Option<Lsn>)      // the member answered, or refused
    | Clear(id: nat)                             // retire, then consume the want the round covered
    | Release(id: nat)                           // end_resolution, nothing pending
    | Fail(id: nat)                              // end_resolution after an error
    | Recheck(id: nat)                           // a want that slipped in between?
    | Retry(id: nat)                             // try to take the flag back

  predicate CanMove(s: Wants, m: Move) {
    match m
    case Note(q) => q in s.reqs && s.reqs[q].Noting?
    case Fire(q, id) =>
      q in s.reqs && s.reqs[q].Firing? && s.reqs[q].m < s.n && s.reqs[q].m < |s.flags| && id !in s.legs
    case Peek(id) => id in s.legs && s.legs[id].Peeking?
    case Reply(id, resolved) => id in s.legs && s.legs[id].Calling?
    case Clear(id) => id in s.legs && s.legs[id].Retiring?
    case Release(id) => id in s.legs && s.legs[id].Releasing? && s.legs[id].m < |s.flags|
    case Fail(id) => id in s.legs && s.legs[id].Failing? && s.legs[id].m < |s.flags|
    case Recheck(id) => id in s.legs && s.legs[id].Rechecking?
    case Retry(id) => id in s.legs && s.legs[id].Retrying? && s.legs[id].m < |s.flags|
  }

  function Moved(s: Wants, m: Move): (s': Wants)
    requires CanMove(s, m)
  {
    match m
    case Note(q) => s.(want := Max(s.want, s.reqs[q].upto), reqs := s.reqs[q := Firing(0)])
    case Fire(q, id) =>
      var k := s.reqs[q].m;
      var s1 := s.(reqs := s.reqs[q := Firing(k + 1)]);
      if s.flags[k] then s1
      else s1.(flags := s.flags[k := true], legs := s.legs[id := Peeking(k)], errors := s.errors - {k})
    case Peek(id) =>
      s.(legs := s.legs[id := if s.want < 0 then Releasing(s.legs[id].m) else Calling(s.legs[id].m, s.want)])
    case Reply(id, resolved) =>
      s.(legs := s.legs[id := if resolved.Some? then Retiring(s.legs[id].m, resolved.value) else Failing(s.legs[id].m)])
    case Clear(id) =>
      s.(want := if 0 <= s.want <= s.legs[id].resolved then -1 else s.want, legs := s.legs[id := Peeking(s.legs[id].m)])
    case Release(id) => s.(flags := s.flags[s.legs[id].m := false], legs := s.legs[id := Rechecking(s.legs[id].m)])
    case Fail(id) =>
      s.(flags := s.flags[s.legs[id].m := false], legs := s.legs[id := Gone(s.legs[id].m, true)],
         errors := s.errors + {s.legs[id].m})
    case Recheck(id) =>
      s.(legs := s.legs[id := if s.want < 0 then Gone(s.legs[id].m, false) else Retrying(s.legs[id].m)])
    case Retry(id) =>
      var k := s.legs[id].m;
      if s.flags[k] then s.(legs := s.legs[id := Gone(k, false)])
      else s.(flags := s.flags[k := true], legs := s.legs[id := Peeking(k)], errors := s.errors - {k})
  }

  predicate Steps(s: Wants, ms: seq<Move>, s': Wants)
    decreases |ms|
  {
    if ms == [] then s' == s else CanMove(s, ms[0]) && Steps(Moved(s, ms[0]), ms[1..], s')
  }

  /** A fresh session: nothing wanted, no flag taken, no leg, failed writes yet to come. */
  predicate Start(s: Wants) {
    && s.want == -1 && |s.flags| == s.n && s.legs == map[] && s.errors == {}
    && (forall m :: 0 <= m < s.n ==> !s.flags[m])
    && (forall q :: q in s.reqs ==> s.reqs[q].Noting?)
  }

  // ---------------------------------------------------------------- the invariant

  predicate OwnsFlag(s: Wants, id: nat, m: nat) {
    id in s.legs && Owns(s.legs[id]) && s.legs[id].m == m
  }

  ghost predicate LegsOk(s: Wants) {
    && |s.flags| == s.n
    && (forall id :: id in s.legs ==> s.legs[id].m < s.n)
    && (forall a: nat, b: nat, m: nat :: OwnsFlag(s, a, m) && OwnsFlag(s, b, m) ==> a == b)
    && (forall m: nat :: m < s.n ==> (s.flags[m] <==> exists id: nat :: OwnsFlag(s, id, m)))
  }

  predicate Looks(s: Wants, id: nat, m: nat) {
    id in s.legs && Lingers(s.legs[id]) && s.legs[id].m == m
  }

  predicate Coming(s: Wants, q: nat, m: nat) {
    q in s.reqs && s.reqs[q].Firing? && s.reqs[q].m <= m
  }

  /** Somebody still has to look at the want on behalf of member `m`, or its last leg failed. */
  ghost predicate Attended(s: Wants, m: nat)
    requires m < |s.flags|
  {
    s.flags[m] || m in s.errors || (exists id: nat :: Looks(s, id, m)) || (exists q: nat :: Coming(s, q, m))
  }

  ghost predicate WantInv(s: Wants) {
    && LegsOk(s) && -1 <= s.want
    && (s.want >= 0 ==> forall m: nat :: m < s.n ==> Attended(s, m))
  }

  // ---------------------------------------------------------------- every move keeps it

  lemma FlagTaken(s: Wants, s': Wants, id: nat, m: nat)
    requires LegsOk(s) && m < s.n && !s.flags[m] && (id in s.legs ==> !Owns(s.legs[id]))
    requires s'.n == s.n && s'.flags == s.flags[m := true] && s'.legs == s.legs[id := Peeking(m)]
    ensures LegsOk(s')
  {
    forall k: nat | k < s.n ensures s'.flags[k] <==> exists j: nat :: OwnsFlag(s', j, k) {
      if k == m { assert OwnsFlag(s', id, m); }
      if s.flags[k] {
        var j: nat :| OwnsFlag(s, j, k);
        assert OwnsFlag(s', j, k);
      }
      assert forall j: nat :: OwnsFlag(s', j, k) && j != id ==> OwnsFlag(s, j, k);
    }
    forall a: nat, b: nat, k: nat | OwnsFlag(s', a, k) && OwnsFlag(s', b, k) ensures a == b {
      assert a != id ==> OwnsFlag(s, a, k);
      assert b != id ==> OwnsFlag(s, b, k);
    }
  }

  lemma FlagDropped(s: Wants, s': Wants, id: nat)
    requires LegsOk(s) && id in s.legs && Owns(s.legs[id])
    requires s'.n == s.n && s'.flags == s.flags[s.legs[id].m := false]
    requires id in s'.legs && s'.legs == s.legs[id := s'.legs[id]] && !Owns(s'.legs[id])
    requires s'.legs[id].m == s.legs[id].m
    ensures LegsOk(s')
  {
    var m := s.legs[id].m;
    assert OwnsFlag(s, id, m);
    forall a: nat, k: nat | OwnsFlag(s', a, k) ensures OwnsFlag(s, a, k) && k != m { assert OwnsFlag(s, a, k); }
    forall k: nat | k < s.n ensures s'.flags[k] <==> exists j: nat :: OwnsFlag(s', j, k) {
      if k != m && s.flags[k] {
        var j: nat :| OwnsFlag(s, j, k);
        assert OwnsFlag(s', j, k);
      }
    }
  }

  /** A step of one leg that neither takes nor drops the flag. */
  lemma FlagKept(s: Wants, s': Wants, id: nat)
    requires LegsOk(s) && id in s.legs && s'.n == s.n && s'.flags == s.flags
    requires id in s'.legs && s'.legs == s.legs[id := s'.legs[id]]
    requires Owns(s'.legs[id]) == Owns(s.legs[id]) && s'.legs[id].m == s.legs[id].m
    ensures LegsOk(s')
  {
    assert forall a: nat, k: nat :: OwnsFlag(s', a, k) == OwnsFlag(s, a, k);
  }

  lemma MoveKeepsLegs(s: Wants, m: Move)
    requires LegsOk(s) && CanMove(s, m)
    ensures LegsOk(Moved(s, m))
  {
    var s' := Moved(s, m);
    match m
    case Note(q) => assert forall a: nat, k: nat :: OwnsFlag(s', a, k) == OwnsFlag(s, a, k);
    case Fire(q, id) =>
      if s.flags[s.reqs[q].m] {
        assert forall a: nat, k: nat :: OwnsFlag(s', a, k) == OwnsFlag(s, a, k);
      } else {
        FlagTaken(s, s', id, s.reqs[q].m);
      }
    case Release(id) => FlagDropped(s, s', id);
    case Fail(id) => FlagDropped(s, s', id);
    case Retry(id) => if s.flags[s.legs[id].m] { FlagKept(s, s', id); } else { FlagTaken(s, s', id, s.legs[id].m); }
    case _ => FlagKept(s, s', m.id);
  }

  lemma MoveKeepsAttended(s: Wants, mv: Move, m: nat)
    requires WantInv(s) && CanMove(s, mv) && m < s.n && Moved(s, mv).want >= 0
    ensures |Moved(s, mv).flags| == s.n && Attended(Moved(s, mv), m)
  {
    var s' := Moved(s, mv);
    if mv.Note? {
      assert Coming(s', mv.q, m);
    } else {
      assert Attended(s, m);
      if exists id: nat :: Looks(s, id, m) {
        var id: nat :| Looks(s, id, m);
        if !((mv.Recheck? || mv.Retry?) && mv.id == id) { assert Looks(s', id, m); }
        if mv.Recheck? && mv.id == id { assert Looks(s', id, m); }
      }
      if exists q: nat :: Coming(s, q, m) {
        var q: nat :| Coming(s, q, m);
        if !(mv.Fire? && mv.q == q && s.reqs[q].m == m) { assert Coming(s', q, m); }
      }
      if mv.Release? && s.legs[mv.id].m == m { assert Looks(s', mv.id, m); }
    }
  }

  lemma MoveKeepsWant(s: Wants, m: Move)
    requires WantInv(s) && CanMove(s, m)
    ensures WantInv(Moved(s, m))
  {
    StepsKeep(s, [m], Moved(s, m));
  }

  lemma {:induction false} StepsKeep(s: Wants, ms: seq<Move>, s': Wants)
    requires WantInv(s) && Steps(s, ms, s')
    ensures WantInv(s')
    decreases |ms|
  {
    if ms != [] {
      var t := Moved(s, ms[0]);
      MoveKeepsLegs(s, ms[0]);
      forall m: nat | t.want >= 0 && m < s.n ensures |t.flags| == s.n && Attended(t, m) {
        MoveKeepsAttended(s, ms[0], m);
      }
      StepsKeep(t, ms[1..], s');
    }
  }

  lemma StartInv(s: Wants)
    requires Start(s)
    ensures WantInv(s)
  {
  }

  // ---------------------------------------------------------------- the theorems

  /** At most one leg per member holds its flag, and the flag is set exactly while one does. */
  lemma OneLegPerMember(s0: Wants, ms: seq<Move>, s: Wants, m: nat)
    requires Start(s0) && Steps(s0, ms, s) && m < s.n
    ensures |s.flags| == s.n && (s.flags[m] <==> exists id: nat :: OwnsFlag(s, id, m))
    ensures forall a: nat, b: nat :: OwnsFlag(s, a, m) && OwnsFlag(s, b, m) ==> a == b
  {
    StepsKeep(s0, ms, s);
  }

  /** Along the run no round that covers `w` is consumed. */
  predicate NeverCovered(s: Wants, ms: seq<Move>, w: Lsn)
    decreases |ms|
  {
    ms != [] && CanMove(s, ms[0]) ==>
      (ms[0].Clear? ==> s.legs[ms[0].id].resolved < w) && NeverCovered(Moved(s, ms[0]), ms[1..], w)
  }

  /** The want falls only when a round covered it: until then it stays at least as high. */
  lemma {:induction false} WantKept(s: Wants, ms: seq<Move>, s': Wants, w: nat)
    requires Steps(s, ms, s') && s.want >= w && NeverCovered(s, ms, w)
    ensures s'.want >= w
    decreases |ms|
  {
    if ms != [] { WantKept(Moved(s, ms[0]), ms[1..], s', w); }
  }

  /** A reply that covers the want consumes it, and the leg looks again. */
  lemma CoveringReplyConsumes(s: Wants, id: nat, resolved: Lsn)
    requires CanMove(s, Reply(id, Some(resolved))) && s.want <= resolved && -1 <= s.want
    ensures var s1 := Moved(s, Reply(id, Some(resolved)));
      && CanMove(s1, Clear(id)) && Moved(s1, Clear(id)).want == -1
      && Moved(s1, Clear(id)).legs[id] == Peeking(s.legs[id].m)
  {
  }

  /** A leg that ends without an error leaves no want pending, or another owner of its member's flag. */
  lemma CleanExit(s0: Wants, ms: seq<Move>, s: Wants, mv: Move, id: nat)
    requires Start(s0) && Steps(s0, ms, s) && CanMove(s, mv)
    requires id in s.legs && !s.legs[id].Gone? && Moved(s, mv).legs[id] == Gone(s.legs[id].m, false)
    ensures Moved(s, mv).want < 0 || exists k: nat :: k != id && OwnsFlag(Moved(s, mv), k, s.legs[id].m)
  {
    StepsKeep(s0, ms, s);
    var m := s.legs[id].m;
    if mv.Retry? {
      var k: nat :| OwnsFlag(s, k, m);
      assert OwnsFlag(Moved(s, mv), k, m);
    }
  }

  /** Every leg has ended, and no failed write is still starting legs. */
  ghost predicate Quiet(s: Wants) {
    && (forall id :: id in s.legs ==> s.legs[id].Gone?)
    && (forall q :: q in s.reqs && s.reqs[q].Firing? ==> s.reqs[q].m >= s.n)
  }

  /**
   * No stranded want: while a want is pending, every member has a leg that will look at
   * it, a failed write about to start one, or had its last leg end in an error.
   */
  lemma NoStrandedWant(s0: Wants, ms: seq<Move>, s: Wants, m: nat)
    requires Start(s0) && Steps(s0, ms, s) && s.want >= 0 && m < s.n
    ensures |s.flags| == s.n && Attended(s, m)
    ensures Quiet(s) ==> m in s.errors
  {
    StepsKeep(s0, ms, s);
    if Quiet(s) { assert !s.flags[m]; }
  }
}
