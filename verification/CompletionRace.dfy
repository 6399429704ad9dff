/**
 * record_completion() and note_filled() on one dLSN, access by access. The legs of the
 * write complete on arbitrary threads while a resolution round may fill the slot; what
 * matters is that a fold which sees the completed bit finds the miss queued.
 */
module CompletionRace {
  import opened CraftTypes
  import R = Router

  /** Where the completion of one leg is. `Last` found every leg counted. */
  datatype Leg =
    | Waiting
    | Recorded
    | Last
    | Handed
    | Finished

  /** Where a fill is. */
  datatype Filler = Absent | Holding | Deciding | Settled

  /** `queue` holds the holder sets pushed for this dLSN; `done` is its completed bit. */
  datatype Cell = Cell(
    n: nat,
    holders: set<nat>,
    completed: set<nat>,
    verdict: bool,
    queue: seq<set<nat>>,
    done: bool,
    legs: seq<Leg>,
    filler: Filler)

  datatype Move =
    | Record(i: nat, acked: bool)  // set the holder bit if the leg was acked
    | Tally(i: nat)                // set the leg's completed bit; was it the last?
    | Hand(i: nat)                 // the last one reads the holders and queues a durable, not universal slot
    | Finish(i: nat)               // and sets the dLSN's completed bit
    | FillHold(leader: nat)        // a fill sets the leader's holder bit
    | FillMark                     // then the verdict
    | FillPush(held: set<nat>)     // then queues what it read, if somebody missed it

  predicate CanMove(c: Cell, m: Move) {
    match m
    case Record(i, acked) => i < |c.legs| && c.legs[i].Waiting?
    case Tally(i) => i < |c.legs| && c.legs[i].Recorded?
    case Hand(i) => i < |c.legs| && c.legs[i].Last?
    case Finish(i) => i < |c.legs| && c.legs[i].Handed?
    case FillHold(leader) => leader < c.n && c.filler.Absent?
    case FillMark => c.filler.Holding?
    case FillPush(held) => c.filler.Deciding? && held <= c.holders
  }

  function Moved(c: Cell, m: Move): (c': Cell)
    requires CanMove(c, m)
  {
    match m
    case Record(i, acked) =>
      c.(holders := c.holders + (if acked then {i} else {}), legs := c.legs[i := Recorded])
    case Tally(i) =>
      var completed := c.completed + {i};
      c.(completed := completed, legs := c.legs[i := if completed == Members(c.n) then Last else Finished])
    case Hand(i) =>
      c.(queue := if |c.holders| >= Quorum(c.n) && c.holders != Members(c.n) then c.queue + [c.holders] else c.queue,
         legs := c.legs[i := Handed])
    case Finish(i) => c.(done := true, legs := c.legs[i := Finished])
    case FillHold(leader) => c.(holders := c.holders + {leader}, filler := Holding)
    case FillMark => c.(verdict := true, filler := Deciding)
    case FillPush(held) =>
      c.(queue := if held != Members(c.n) then c.queue + [held] else c.queue, filler := Settled)
  }

  predicate Steps(c: Cell, ms: seq<Move>, c': Cell)
    decreases |ms|
  {
    if ms == [] then c' == c else CanMove(c, ms[0]) && Steps(Moved(c, ms[0]), ms[1..], c')
  }

  predicate Start(c: Cell) {
    && c.n > 0 && c.holders == {} && c.completed == {} && !c.verdict && c.queue == [] && !c.done
    && |c.legs| == c.n && (forall i :: 0 <= i < c.n ==> c.legs[i].Waiting?) && c.filler.Absent?
  }

  // ---------------------------------------------------------------- the invariant

  /** A fill has raised the holder count and not queued the slot yet. */
  predicate FillUnderWay(c: Cell) {
    c.filler.Holding? || c.filler.Deciding?
  }

  ghost predicate LegsOk(c: Cell) {
    && |c.legs| == c.n && c.completed <= Members(c.n)
    && (forall i :: i in c.completed <==> 0 <= i < c.n && !c.legs[i].Waiting? && !c.legs[i].Recorded?)
    && (forall i :: 0 <= i < c.n && InTurn(c.legs[i]) ==> c.completed == Members(c.n) && !c.done)
    && (forall i, j :: 0 <= i < j < c.n ==> !(InTurn(c.legs[i]) && InTurn(c.legs[j])))
    && (c.done ==> c.completed == Members(c.n))
  }

  ghost predicate QueueOk(c: Cell) {
    && c.holders <= Members(c.n) && (forall k :: 0 <= k < |c.queue| ==> c.queue[k] <= c.holders)
    && (c.verdict <==> c.filler.Deciding? || c.filler.Settled?)
    && (Passed(c) && |c.holders| >= Quorum(c.n) && c.holders != Members(c.n) ==> c.queue != [] || FillUnderWay(c))
    && (c.filler.Settled? && c.holders != Members(c.n) ==> c.queue != [])
  }

  predicate InTurn(l: Leg) {
    l.Last? || l.Handed?
  }

  /** The last leg has handed the slot over. */
  ghost predicate Passed(c: Cell) {
    c.done || exists i :: 0 <= i < |c.legs| && c.legs[i].Handed?
  }

  predicate Counted(l: Leg) {
    !l.Waiting? && !l.Recorded?
  }

  lemma TallyKeeps(c: Cell, i: nat)
    requires LegsOk(c) && CanMove(c, Tally(i))
    ensures LegsOk(Moved(c, Tally(i)))
  {
    hide Members;
    var c' := Moved(c, Tally(i));
    assert i !in c.completed && i in Members(c.n);
    assert forall j :: 0 <= j < c.n ==> !InTurn(c.legs[j]);
    assert c'.legs[i] == Last || c'.legs[i] == Finished;
    assert forall j :: 0 <= j < c.n && j != i ==> c'.legs[j] == c.legs[j];
  }

  /** A leg that moves on without being counted anew, at most into or out of its turn. */
  lemma LegMoves(c: Cell, c': Cell, i: nat)
    requires LegsOk(c) && i < c.n && c'.n == c.n && c'.completed == c.completed && |c'.legs| == |c.legs|
    requires c'.legs == c.legs[i := c'.legs[i]] && Counted(c'.legs[i]) == Counted(c.legs[i])
    requires InTurn(c'.legs[i]) ==> InTurn(c.legs[i]) && c'.done == c.done
    requires c'.done ==> c.done || (InTurn(c.legs[i]) && !InTurn(c'.legs[i]))
    ensures LegsOk(c')
  {
    hide Members;
  }

  lemma MoveKeepsLegs(c: Cell, m: Move)
    requires LegsOk(c) && CanMove(c, m)
    ensures LegsOk(Moved(c, m))
  {
    hide LegsOk, Members, Quorum;
    assert |c.legs| == c.n by { LegCount(c); }
    match m
    case Tally(i) => TallyKeeps(c, i);
    case Record(i, acked) => LegMoves(c, Moved(c, m), i);
    case Hand(i) => LegMoves(c, Moved(c, m), i);
    case Finish(i) => LegMoves(c, Moved(c, m), i);
    case _ => SameLegs(c, Moved(c, m));
  }

  lemma LegCount(c: Cell)
    requires LegsOk(c)
    ensures |c.legs| == c.n
  {
  }

  lemma SameLegs(c: Cell, c': Cell)
    requires LegsOk(c) && c'.n == c.n && c'.completed == c.completed && c'.legs == c.legs && c'.done == c.done
    ensures LegsOk(c')
  {
  }

  /** While a leg is not counted nothing has been handed over. */
  lemma NotPassed(c: Cell, i: nat)
    requires LegsOk(c) && i < c.n && (c.legs[i].Waiting? || c.legs[i].Recorded?)
    ensures !Passed(c)
  {
    assert i !in c.completed && i in Members(c.n);
  }

  /** Nothing is handed over in `c'` that was not in `c`. */
  lemma PassedSame(c: Cell, c': Cell, i: nat)
    requires i < |c.legs| && |c'.legs| == |c.legs| && c'.legs == c.legs[i := c'.legs[i]] && c'.done == c.done
    requires !c'.legs[i].Handed? && !Passed(c)
    ensures !Passed(c')
  {
    assert forall j :: 0 <= j < |c'.legs| && c'.legs[j].Handed? ==> c.legs[j].Handed?;
  }

  /** A leg counts itself, and its member if it acked. */
  lemma LegKeepsQueue(c: Cell, m: Move)
    requires LegsOk(c) && QueueOk(c) && CanMove(c, m) && (m.Record? || m.Tally?)
    ensures QueueOk(Moved(c, m))
  {
    hide LegsOk, Passed, Members, Quorum;
    LegCount(c);
    var c' := Moved(c, m);
    NotPassed(c, m.i);
    PassedSame(c, c', m.i);
    if m.Record? { MemberIs(c, m.i); }
  }

  lemma MemberIs(c: Cell, i: nat)
    requires LegsOk(c) && i < |c.legs|
    ensures i in Members(c.n)
  {
  }

  /** The last leg hands the slot over and sets the completed bit. */
  lemma TurnKeepsQueue(c: Cell, m: Move)
    requires QueueOk(c) && CanMove(c, m) && (m.Hand? || m.Finish?)
    ensures QueueOk(Moved(c, m))
  {
    assert m.Finish? ==> Passed(c);
    hide Passed, Members, Quorum;
  }

  /** The accesses of a fill do not touch the legs. */
  lemma FillKeepsQueue(c: Cell, m: Move)
    requires QueueOk(c) && CanMove(c, m) && (m.FillHold? || m.FillMark? || m.FillPush?)
    ensures QueueOk(Moved(c, m))
  {
    SamePassed(c, Moved(c, m));
    hide Passed, Quorum;
  }

  lemma SamePassed(c: Cell, c': Cell)
    requires c'.legs == c.legs && c'.done == c.done
    ensures Passed(c') == Passed(c)
  {
  }

  lemma MoveKeepsQueue(c: Cell, m: Move)
    requires LegsOk(c) && QueueOk(c) && CanMove(c, m)
    ensures QueueOk(Moved(c, m))
  {
    hide LegsOk, QueueOk, Moved, CanMove;
    if m.Record? || m.Tally? {
      LegKeepsQueue(c, m);
    } else if m.Hand? || m.Finish? {
      TurnKeepsQueue(c, m);
    } else {
      FillKeepsQueue(c, m);
    }
  }

  lemma {:induction false} StepsKeep(c: Cell, ms: seq<Move>, c': Cell)
    requires LegsOk(c) && QueueOk(c) && Steps(c, ms, c')
    ensures LegsOk(c') && QueueOk(c') && c'.n == c.n
    decreases |ms|
  {
    if ms != [] {
      MoveKeepsLegs(c, ms[0]);
      MoveKeepsQueue(c, ms[0]);
      StepsKeep(Moved(c, ms[0]), ms[1..], c');
    }
  }

  /**
   * Once the completed bit is visible every leg is counted, and a durable slot somebody
   * missed is queued, unless a fill has just raised its count and is about to queue it.
   * What is queued never names a member that is not a holder.
   */
  lemma SeenMeansQueued(c0: Cell, ms: seq<Move>, c: Cell)
    requires Start(c0) && Steps(c0, ms, c) && c.done
    ensures c.completed == Members(c.n)
    ensures (|c.holders| >= Quorum(c.n) || c.verdict) && c.holders != Members(c.n) ==> c.queue != [] || FillUnderWay(c)
    ensures forall k :: 0 <= k < |c.queue| ==> c.queue[k] <= c.holders
  {
    assert forall i :: 0 <= i < c0.n ==> !c0.legs[i].Handed?;
    StepsKeep(c0, ms, c);
    assert Passed(c);
  }

  // ---------------------------------------------------------------- against the one-step form

  /** What the router has on `d`, as a cell in which leg `i` is about to complete. */
  ghost predicate CellOf(r: R.Route, d: Lsn, i: nat, c: Cell)
    requires d in r.overlay
  {
    && c.n == r.n && i < |c.legs| && c.legs[i].Waiting? && c.done == (d in r.done)
    && c.holders == r.overlay[d].holders && c.completed == r.overlay[d].completed && c.verdict == r.overlay[d].verdict
  }

  /** All accesses of one completion, one after the other. */
  function Alone(c: Cell, i: nat, acked: bool): (c': Cell)
    requires i < |c.legs| && c.legs[i].Waiting?
  {
    var c2 := Moved(Moved(c, Record(i, acked)), Tally(i));
    if c2.legs[i].Last? then Moved(Moved(c2, Hand(i)), Finish(i)) else c2
  }

  /**
   * A completion that nobody interrupts does to the slot, the queue and the completed bit what
   * the one-step form does.
   */
  lemma AloneIsCompletion(r: R.Route, d: Lsn, i: nat, acked: bool, c: Cell)
    requires d in r.overlay && CellOf(r, d, i, c)
    ensures var r', c' := R.RecordCompletion(r, d, i, acked), Alone(c, i, acked);
      && c'.holders == r'.overlay[d].holders && c'.completed == r'.overlay[d].completed
      && c'.done == (d in r'.done)
      && (c'.queue == c.queue <==> r'.pending == r.pending)
      && (c'.queue != c.queue ==>
            c'.queue == c.queue + [c'.holders] &&
            r'.pending == r.pending + [R.PendingMiss(d, c'.holders, r.overlay[d].addr, r.overlay[d].len)])
  {
    hide Members, Quorum;
    var s := R.CompletedSlot(r.overlay[d], i, acked);
    var c2 := Moved(Moved(c, Record(i, acked)), Tally(i));
    assert c2.holders == s.holders && c2.completed == s.completed && c2.queue == c.queue;
    assert |c.queue + [s.holders]| == |c.queue| + 1;
    assert |r.pending + [R.PendingMiss(d, s.holders, s.addr, s.len)]| == |r.pending| + 1;
    assert c2.legs[i] == if s.completed == Members(c.n) then Last else Finished;
  }
}
