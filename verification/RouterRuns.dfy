/**
 * The routing index over arbitrary interleavings of its own atomic regions, against who
 * really holds what. Folds run their regions one by one: the queue swap, the map apply
 * and the publication of a slow fold, the decision and the publication of a fast one.
 */
module RouterRuns {
  import opened CraftTypes
  import opened Router

  /** The index and the relation it has to agree with, which only grows. */
  datatype View = View(r: Route, held: Holdings)

  datatype Op =
    | Acquire(d: Lsn, i: nat)                       // member `i` comes to hold `d`
    | Open(d: Lsn, addr: nat, len: nat)
    | Complete(d: Lsn, i: nat, acked: bool)
    | Fill(d: Lsn, leader: nat)
    | Fold(m: FoldMove)
    | Report(i: nat, c: Lsn)

  /**
   * Each leg completes once and is acked only by a holder; a fill precedes every fold that
   * could pass it; a report takes the fold lock and certifies what it covers.
   */
  ghost predicate Allowed(v: View, op: Op) {
    var (r, held) := (v.r, v.held);
    match op
    case Acquire(d, i) => true
    case Open(d, addr, len) => r.login < d && d !in r.overlay
    case Complete(d, i, acked) =>
      d in r.overlay && i < r.n && i !in r.overlay[d].completed && (acked ==> (d, i) in held)
    case Fill(d, leader) => d in r.overlay && AboveFolds(r, d) && leader < r.n && (d, leader) in held
    case Fold(m) => CanFold(r, m)
    case Report(i, c) =>
      && i < r.n && i < |r.synced| && i < |r.miss| && r.flight.None?
      && forall d :: d <= c && d <= r.folded && d in r.overlay && Durable(r, r.overlay[d]) ==> (d, i) in held
  }

  ghost function Do(v: View, op: Op): (v': View)
    requires Allowed(v, op)
  {
    match op
    case Acquire(d, i) => v.(held := v.held + {(d, i)})
    case Open(d, addr, len) => v.(r := OpenSlot(v.r, d, addr, len))
    case Complete(d, i, acked) => v.(r := RecordCompletion(v.r, d, i, acked))
    case Fill(d, leader) => v.(r := NoteFilled(v.r, d, leader))
    case Fold(m) => v.(r := FoldNext(v.r, m))
    case Report(i, c) => v.(r := AdvanceSynced(v.r, i, c))
  }

  ghost predicate Done(v: View, ops: seq<Op>, v': View)
    decreases |ops|
  {
    if ops == [] then v' == v else Allowed(v, ops[0]) && Done(Do(v, ops[0]), ops[1..], v')
  }

  lemma OpAgrees(v: View, op: Op)
    requires RouteInv(v.r, v.held) && Allowed(v, op)
    ensures RouteInv(Do(v, op).r, Do(v, op).held)
  {
    hide RouteInv;
    match op
    case Acquire(d, i) => MoreHoldings(v.r, v.held, v.held + {(d, i)});
    case Open(d, addr, len) => OpenSlotAgrees(v.r, v.held, d, addr, len);
    case Complete(d, i, acked) => CompletionAgrees(v.r, v.held, d, i, acked);
    case Fill(d, leader) => FilledAgrees(v.r, v.held, d, leader);
    case Fold(m) => FoldMoveAgrees(v.r, v.held, m);
    case Report(i, c) => SyncedAgrees(v.r, v.held, i, c);
  }

  /** Slots and holdings only grow. */
  ghost predicate Grown(v: View, v': View) {
    RouteGrows(v.r, v'.r) && v.held <= v'.held
  }

  lemma OpGrows(v: View, op: Op)
    requires Shape(v.r) && Allowed(v, op)
    ensures Grown(v, Do(v, op))
  {
    hide Shape, RecordCompletion, NoteFilled, AboveFolds, CanFold, FoldNext, Durable, LowestSynced;
    match op
    case Complete(d, i, acked) => CompletionFrame(v.r, d, i, acked);
    case Fill(d, leader) => FilledFrame(v.r, d, leader);
    case Fold(m) => FoldMoveFrame(v.r, m);
    case _ => assert forall e :: e in v.r.overlay ==> SlotGrows(v.r.overlay[e], v.r.overlay[e]);
  }

  lemma {:induction false} OpsAgree(v: View, ops: seq<Op>, v': View)
    requires RouteInv(v.r, v.held) && Done(v, ops, v')
    ensures RouteInv(v'.r, v'.held) && Grown(v, v')
    decreases |ops|
  {
    assert Shape(v.r);
    hide RouteInv, Allowed, SlotGrows;
    if ops == [] {
      GrownReflexive(v);
    } else {
      var m := Do(v, ops[0]);
      OpAgrees(v, ops[0]);
      OpGrows(v, ops[0]);
      OpsAgree(m, ops[1..], v');
      GrownTransitive(v, m, v');
    }
  }

  lemma GrownReflexive(v: View)
    ensures Grown(v, v)
  {
  }

  lemma GrownTransitive(a: View, b: View, c: View)
    requires Grown(a, b) && Grown(b, c)
    ensures Grown(a, c)
  {
    forall d | d in a.r.overlay ensures d in c.r.overlay && SlotGrows(a.r.overlay[d], c.r.overlay[d]) {
      assert SlotGrows(a.r.overlay[d], b.r.overlay[d]) && SlotGrows(b.r.overlay[d], c.r.overlay[d]);
    }
  }

  // ---------------------------------------------------------------- eligible() while others go on

  /** `v'` comes from `v` by some operations. */
  ghost predicate Leads(v: View, v': View) {
    exists ops :: Done(v, ops, v')
  }

  lemma {:induction false} DoneThen(a: View, ops: seq<Op>, b: View, more: seq<Op>, c: View)
    requires Done(a, ops, b) && Done(b, more, c)
    ensures Done(a, ops + more, c)
    decreases |ops|
  {
    if ops == [] {
      assert ops + more == more;
    } else {
      DoneThen(Do(a, ops[0]), ops[1..], b, more, c);
      assert (ops + more)[0] == ops[0] && (ops + more)[1..] == ops[1..] + more;
    }
  }

  lemma DoneOne(v: View, op: Op)
    requires Allowed(v, op)
    ensures Done(v, [op], Do(v, op))
  {
    assert Done(Do(v, op), [], Do(v, op));
  }

  lemma Stays(v: View)
    ensures Leads(v, v)
  {
    assert Done(v, [], v);
  }

  lemma LeadsThen(a: View, b: View, c: View)
    requires Leads(a, b) && Leads(b, c)
    ensures Leads(a, c)
  {
    var x :| Done(a, x, b);
    var y :| Done(b, y, c);
    DoneThen(a, x, b, y, c);
  }

  lemma LeadsAgrees(v: View, v': View)
    requires RouteInv(v.r, v.held) && Leads(v, v')
    ensures RouteInv(v'.r, v'.held) && Grown(v, v')
  {
    var ops :| Done(v, ops, v');
    OpsAgree(v, ops, v');
  }

  /** The scan read slot `d` at some moment between `b` and `c`. */
  ghost predicate SlotRead(b: View, c: View, d: Lsn, idx: nat, addr: nat, len: nat) {
    exists u :: Leads(b, u) && Leads(u, c) && SlotClear(u.r, d, idx, addr, len)
  }

  /**
   * eligible() says yes: the map is read in `a`, the fold is loaded in `b`, and every slot
   * above it is read at some moment of its own before `c`.
   */
  ghost predicate SaysYes(a: View, b: View, c: View, idx: nat, addr: nat, len: nat, hmax: Lsn)
    requires idx < |a.r.synced| && idx < |a.r.miss|
  {
    && Leads(a, b) && Leads(b, c) && MapClear(a.r, idx, addr, len)
    && forall d :: b.r.folded < d <= hmax ==> SlotRead(b, c, d, idx, addr, len)
  }

  /** The dLSNs at or below which the scan may have seen nothing: folded when it began, or truncated under it. */
  function Blind(b: View, c: View): Lsn {
    Max(b.r.folded, c.r.trunc)
  }

  /** The answer holds for the winner at horizon `h` as of the map read. */
  ghost predicate Holds(a: View, c: View, idx: nat, h: Lsn, y: nat) {
    Winner(a.r, h, y) > a.r.login ==> (Winner(a.r, h, y), idx) in c.held
  }

  /**
   * After any interleaving of completions, fills, folds, truncations and watermark reports
   * from a fresh reset, a timely yes is right: the member holds the highest durable write
   * at or below `h` on every byte of the range.
   */
  lemma NeverRoutedStale(n: nat, login: Lsn, held: Holdings, ops: seq<Op>, a: View, b: View, c: View,
                         idx: nat, addr: nat, len: nat, hmax: Lsn, h: Lsn, y: nat)
    requires n > 0 && Done(View(Reset(n, login), held), ops, a) && idx < n
    requires |a.r.synced| == |a.r.miss| == n && SaysYes(a, b, c, idx, addr, len, hmax)
    requires h <= hmax && CoversByte(addr, len, y) && Timely(login, MapLevel(a.r), Blind(b, c), h)
    ensures Holds(a, c, idx, h, y)
  {
    ResetAgrees(n, login, held);
    OpsAgree(View(Reset(n, login), held), ops, a);
    LeadsAgrees(a, b);
    LeadsAgrees(b, c);
    var w := Winner(a.r, h, y);
    if w > Blind(b, c) && w > login {
      assert SlotRead(b, c, w, idx, addr, len);
      var u :| Leads(b, u) && Leads(u, c) && SlotClear(u.r, w, idx, addr, len);
      LeadsAgrees(b, u);
      LeadsAgrees(u, c);
      GrownTransitive(a, b, u);
      SlotSeen(a.r, u.r, u.held, w, idx, addr, len, y);
    }
    if h > login { AnswerHolds(a.r, a.held, c.held, idx, addr, len, Blind(b, c), h, y); }
  }

  /** Along the way every pending miss stays above the fold and not below the hint. */
  lemma PendingStaysAbove(n: nat, login: Lsn, held: Holdings, ops: seq<Op>, v: View, e: PendingMiss)
    requires n > 0 && Done(View(Reset(n, login), held), ops, v) && e in v.r.pending
    ensures AboveFolds(v.r, e.dlsn) && v.r.hint.Some? && v.r.hint.value <= e.dlsn
  {
    ResetAgrees(n, login, held);
    OpsAgree(View(Reset(n, login), held), ops, v);
    assert PendingEntryOk(v.r, v.held, e);
  }
}
