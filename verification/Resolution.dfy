/** The client's resolution legs over its tracker and router objects, access by access. */
module ResolutionLegs {
  import opened CraftTypes
  import opened DlsnTracking
  import opened RouteMapping
  import opened ClientVerbs
  import W = Want
  import T = Tracker
  import P = Protocol

  /**
   * The failed writes and detached legs of a session. Each method is one atomic access to
   * the want or to a member's flag, made by one of them.
   */
  class ResolutionClient {
    const tracker: DlsnTracker
    const route: ReadRouteMap
    var reqs: map<nat, W.Requester>
    var legs: map<nat, W.Leg>
    var errors: set<nat>

    ghost function View(): W.Wants
      reads this, tracker, route
    {
      W.Wants(route.n, tracker.want, route.rrInflight, reqs, legs, errors)
    }

    ghost predicate Valid()
      reads this, tracker, route
    {
      tracker.Valid() && route.Valid() && W.WantInv(View())
    }

    /** A failed write records how far it needs the set resolved. */
    method Note(q: nat)
      requires Valid() && q in reqs && reqs[q].Noting?
      modifies this`reqs, tracker`want
      ensures Valid() && View() == W.Moved(old(View()), W.Note(q))
      ensures tracker.want == Max(old(tracker.want), old(reqs[q].upto))
    {
      W.MoveKeepsWant(View(), W.Note(q));
      hide W.WantInv;
      tracker.NoteWant(reqs[q].upto);
      reqs := reqs[q := W.Firing(0)];
    }

    /** It starts a leg to the next member unless one is outstanding. */
    method Fire(q: nat, id: nat) returns (fired: bool)
      requires Valid() && q in reqs && reqs[q].Firing? && reqs[q].m < route.n && id !in legs
      modifies this, route`rrInflight
      ensures Valid() && View() == W.Moved(old(View()), W.Fire(q, id))
      ensures fired ==> W.OwnsFlag(View(), id, old(reqs[q].m))
      ensures !fired ==> exists k: nat :: W.OwnsFlag(View(), k, old(reqs[q].m))
    {
      var m := reqs[q].m;
      W.MoveKeepsWant(View(), W.Fire(q, id));
      assert route.rrInflight[m] ==> exists k: nat :: W.OwnsFlag(View(), k, m);
      hide W.WantInv;
      fired := route.TryBeginResolution(m);
      reqs := reqs[q := W.Firing(m + 1)];
      if fired {
        legs, errors := legs[id := W.Peeking(m)], errors - {m};
      } else {
        assert route.rrInflight == old(route.rrInflight);
        assert forall k: nat :: W.OwnsFlag(old(View()), k, m) ==> W.OwnsFlag(View(), k, m);
      }
    }

    /** The leg asks for the pending want. */
    method Peek(id: nat) returns (want: Option<Lsn>)
      requires Valid() && id in legs && legs[id].Peeking?
      modifies this`legs
      ensures Valid() && View() == W.Moved(old(View()), W.Peek(id))
      ensures want == if tracker.want < 0 then None else Some(tracker.want)
      ensures legs[id] == if want.Some? then W.Calling(old(legs[id].m), want.value) else W.Releasing(old(legs[id].m))
    {
      W.MoveKeepsWant(View(), W.Peek(id));
      hide W.WantInv;
      want := tracker.Want();
      var m := legs[id].m;
      legs := legs[id := if want.Some? then W.Calling(m, want.value) else W.Releasing(m)];
    }

    /** The member answers: how far it resolved, or that it cannot. */
    method Reply(id: nat, resolved: Option<Lsn>)
      requires Valid() && id in legs && legs[id].Calling?
      modifies this`legs
      ensures Valid() && View() == W.Moved(old(View()), W.Reply(id, resolved))
    {
      W.MoveKeepsWant(View(), W.Reply(id, resolved));
      hide W.WantInv;
      var m := legs[id].m;
      legs := legs[id := if resolved.Some? then W.Retiring(m, resolved.value) else W.Failing(m)];
    }

    /** The leg retires the reply and consumes the want if the round covered it. */
    method Clear(id: nat, empties: seq<Lsn>)
      requires Valid() && id in legs && legs[id].Retiring?
      modifies this`legs, tracker, route
      ensures Valid() && View() == W.Moved(old(View()), W.Clear(id))
      ensures tracker.want == if 0 <= old(tracker.want) <= old(legs[id].resolved) then -1 else old(tracker.want)
      ensures legs == old(legs)[id := W.Peeking(old(legs[id].m))]
      ensures var lo, hi := old(tracker.frontier) + 1, Min(old(legs[id].resolved), old(tracker.next) - 1);
        && tracker.View() == T.Retire(old(tracker.View()), lo, hi, SetOf(empties)).(want := tracker.want)
        && route.View() == P.NoteAll(old(route.View()), old(tracker.View()), lo, hi, SetOf(empties), old(legs[id].m))
    {
      hide T.Retire, P.NoteAll, SetOf, T.TrkInv;
      W.MoveKeepsWant(View(), W.Clear(id));
      assert legs[id].m < route.n;
      hide W.WantInv;
      var m, upto := legs[id].m, legs[id].resolved;
      RetireUpTo(tracker, route, upto, empties, m);
      tracker.ClearWant(upto);
      legs := legs[id := W.Peeking(m)];
    }

    /** Nothing is pending: the leg gives the flag back, to look once more. */
    method Release(id: nat)
      requires Valid() && id in legs && legs[id].Releasing?
      modifies this`legs, route`rrInflight
      ensures Valid() && View() == W.Moved(old(View()), W.Release(id))
      ensures !route.rrInflight[old(legs[id].m)] && legs == old(legs)[id := W.Rechecking(old(legs[id].m))]
    {
      assert legs[id].m < route.n;
      W.MoveKeepsWant(View(), W.Release(id));
      hide W.WantInv;
      var m := legs[id].m;
      route.EndResolution(m);
      legs := legs[id := W.Rechecking(m)];
    }

    /** The member cannot resolve: the leg gives the flag back and ends. */
    method Fail(id: nat)
      requires Valid() && id in legs && legs[id].Failing?
      modifies this, route`rrInflight
      ensures Valid() && View() == W.Moved(old(View()), W.Fail(id))
      ensures !route.rrInflight[old(legs[id].m)] && legs == old(legs)[id := W.Gone(old(legs[id].m), true)]
    {
      assert legs[id].m < route.n;
      W.MoveKeepsWant(View(), W.Fail(id));
      hide W.WantInv;
      var m := legs[id].m;
      route.EndResolution(m);
      legs, errors := legs[id := W.Gone(m, true)], errors + {m};
    }

    /** Did a want slip in while the flag was held? */
    method Recheck(id: nat)
      requires Valid() && id in legs && legs[id].Rechecking?
      modifies this`legs
      ensures Valid() && View() == W.Moved(old(View()), W.Recheck(id))
      ensures legs[id] == if tracker.want < 0 then W.Gone(old(legs[id].m), false) else W.Retrying(old(legs[id].m))
    {
      W.MoveKeepsWant(View(), W.Recheck(id));
      hide W.WantInv;
      var m := legs[id].m;
      var want := tracker.Want();
      legs := legs[id := if want.Some? then W.Retrying(m) else W.Gone(m, false)];
    }

    /** Then the leg goes on, unless another one has the flag by now. */
    method Retry(id: nat) returns (mine: bool)
      requires Valid() && id in legs && legs[id].Retrying?
      modifies this, route`rrInflight
      ensures Valid() && View() == W.Moved(old(View()), W.Retry(id))
      ensures mine <==> !old(route.rrInflight[legs[id].m])
      ensures legs[id] == if mine then W.Peeking(old(legs[id].m)) else W.Gone(old(legs[id].m), false)
    {
      assert legs[id].m < route.n;
      W.MoveKeepsWant(View(), W.Retry(id));
      hide W.WantInv;
      var m := legs[id].m;
      mine := route.TryBeginResolution(m);
      if mine {
        legs, errors := legs[id := W.Peeking(m)], errors - {m};
      } else {
        assert route.rrInflight == old(route.rrInflight);
        legs := legs[id := W.Gone(m, false)];
      }
    }

    constructor (t: DlsnTracker, r: ReadRouteMap, failed: map<nat, nat>)
      requires t.Valid() && r.Valid() && t.want == -1 && forall m :: 0 <= m < r.n ==> !r.rrInflight[m]
      ensures Valid() && tracker == t && route == r && W.Start(View())
      ensures forall q :: q in reqs <==> q in failed
    {
      tracker, route := t, r;
      reqs := map q | q in failed :: W.Noting(failed[q]);
      legs, errors := map[], {};
      new;
      W.StartInv(View());
    }
  }
}
