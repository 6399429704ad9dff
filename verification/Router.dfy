/**
 * The client's two-tier index of who holds what. Above `folded` every dLSN keeps
 * its holder set; at or below it each member keeps a map of the bytes it misses.
 */
module Router {
  import opened CraftTypes
  import opened Tracker

  datatype RouteSlot = RouteSlot(addr: nat, len: nat, holders: set<nat>, completed: set<nat>, verdict: bool)

  /** A durable write somebody missed, on its way from a completion to the fold. */
  datatype PendingMiss = PendingMiss(dlsn: Lsn, held: set<nat>, addr: nat, len: nat)

  /** Byte offset to the dLSN the member is known to miss there. */
  type MissMap = map<nat, Lsn>

  /** A slow fold between taking its batch off the queue and publishing its target; it holds the fold lock. */
  datatype Flight = Flight(target: Lsn, batch: seq<PendingMiss>, applied: bool)

  /**
   * `hint` is a lower bound on the pending dLSNs; `None` stands for the source's kNever.
   * `flight` is the slow fold under way, `ready` the targets that fast folds have decided
   * on and not yet published. Slots at or below `trunc` are no longer visible to a scan;
   * the model keeps them as the record of what was written.
   */
  datatype Route = Route(
    n: nat,
    login: Lsn,
    overlay: map<Lsn, RouteSlot>,
    done: set<Lsn>,
    pending: seq<PendingMiss>,
    hint: Option<Lsn>,
    miss: seq<MissMap>,
    synced: seq<Lsn>,
    allCommitted: Lsn,
    folded: Lsn,
    flight: Option<Flight>,
    ready: set<Lsn>,
    trunc: Lsn)

  const UNSYNCED: Lsn := -1
  const TRUNC_BATCH := 512

  function Reset(n: nat, login: Lsn): (r: Route) {
    Route(n, login, map[], {}, [], None, seq(n, _ => map[]), seq(n, _ => UNSYNCED), UNSYNCED,
          login, None, {}, login)
  }

  function OpenSlot(r: Route, d: Lsn, addr: nat, len: nat): (r': Route) {
    r.(overlay := r.overlay[d := RouteSlot(addr, len, {}, {}, false)])
  }

  predicate CoversByte(addr: nat, len: nat, y: nat) {
    addr <= y < addr + len
  }

  /** A slot a read may have to see: quorum-held, or declared durable by a resolution round. */
  predicate Durable(r: Route, s: RouteSlot) {
    |s.holders| >= Quorum(r.n) || s.verdict
  }

  function PushMiss(r: Route, d: Lsn, s: RouteSlot): (r': Route) {
    r.(pending := r.pending + [PendingMiss(d, s.holders, s.addr, s.len)],
       hint := if r.hint.None? then Some(d) else Some(Min(r.hint.value, d)))
  }

  function CompletedSlot(s: RouteSlot, idx: nat, acked: bool): RouteSlot {
    s.(holders := s.holders + (if acked then {idx} else {}), completed := s.completed + {idx})
  }

  /** record_completion: one leg of `d` finished on member `idx`; the last one queues a durable, not universal slot. */
  function RecordCompletion(r: Route, d: Lsn, idx: nat, acked: bool): (r': Route)
    requires d in r.overlay
  {
    var s := CompletedSlot(r.overlay[d], idx, acked);
    var last := s.completed == Members(r.n);
    var push := last && |s.holders| >= Quorum(r.n) && s.holders != Members(r.n);
    var q := if push then PushMiss(r, d, s) else r;
    q.(overlay := r.overlay[d := s], done := if last then r.done + {d} else r.done)
  }

  /** note_filled: a round made `d` durable; the leader and the original ackers hold it for certain. */
  function NoteFilled(r: Route, d: Lsn, leader: nat): (r': Route)
    requires d in r.overlay
  {
    var s := r.overlay[d].(holders := r.overlay[d].holders + {leader}, verdict := true);
    var r1 := r.(overlay := r.overlay[d := s]);
    if s.holders != Members(r.n) then PushMiss(r1, d, s) else r1
  }

  function EraseMiss(m: MissMap, addr: nat, len: nat): (m': MissMap) {
    m - Span(addr, len)
  }

  function SetMiss(m: MissMap, addr: nat, len: nat, d: Lsn): (m': MissMap) {
    m + map y | y in Span(addr, len) :: d
  }

  /** Fold one miss into every member's map: holders forget the range, the others mark it. */
  function ApplyMiss(miss: seq<MissMap>, e: PendingMiss): (miss': seq<MissMap>)
    ensures |miss'| == |miss|
  {
    seq(|miss|, i requires 0 <= i < |miss| =>
      if i in e.held then EraseMiss(miss[i], e.addr, e.len) else SetMiss(miss[i], e.addr, e.len, e.dlsn))
  }

  function ApplyBatch(miss: seq<MissMap>, batch: seq<PendingMiss>): (miss': seq<MissMap>)
    ensures |miss'| == |miss|
  {
    if batch == [] then miss
    else ApplyMiss(ApplyBatch(miss, batch[..|batch| - 1]), batch[|batch| - 1])
  }

  /** The pending misses at or below (`due`) or above (`!due`) the fold target, in queue order. */
  function Select(pending: seq<PendingMiss>, target: Lsn, due: bool): (s: seq<PendingMiss>)
    ensures forall e :: e in s <==> e in pending && (e.dlsn <= target) == due
  {
    if pending == [] then [] else
    var rest := Select(pending[..|pending| - 1], target, due);
    var e := pending[|pending| - 1];
    if (e.dlsn <= target) == due then rest + [e] else rest
  }

  function LowestDlsn(s: seq<PendingMiss>): (h: Option<Lsn>)
    ensures h.None? <==> s == []
    ensures h.Some? ==> forall e :: e in s ==> h.value <= e.dlsn
  {
    if s == [] then None else
    var rest := LowestDlsn(s[..|s| - 1]);
    if rest.None? then Some(s[|s| - 1].dlsn) else Some(Min(rest.value, s[|s| - 1].dlsn))
  }

  ghost predicate Ascending(s: seq<PendingMiss>) {
    forall i, j :: 0 <= i < j < |s| ==> s[i].dlsn <= s[j].dlsn
  }

  /** Any order std::sort may leave the due misses in: ascending, ties broken either way. */
  ghost predicate SortedBatch(batch: seq<PendingMiss>, due: seq<PendingMiss>) {
    multiset(batch) == multiset(due) && Ascending(batch)
  }

  function FoldTarget(r: Route, f: Lsn): (t: Lsn) {
    Min(f, CompletedUpTo(r.done, r.folded + 1))
  }

  // ---------------------------------------------------------------- fold_to, one atomic region at a time

  /** Everything up to `t` is complete on every member. */
  predicate Foldable(r: Route, t: Lsn) {
    forall d :: r.folded < d <= t ==> d in r.done
  }

  /** The fast path found nothing queued at or below its target. */
  predicate CanChoose(r: Route, t: Lsn) {
    Foldable(r, t) && (r.hint.None? || r.hint.value > t)
  }

  function ChooseFast(r: Route, t: Lsn): (r': Route) {
    r.(ready := r.ready + {t})
  }

  /** The fast path publishes its target, without any lock. */
  function JumpFast(r: Route, t: Lsn): (r': Route) {
    r.(folded := Max(r.folded, t), ready := r.ready - {t})
  }

  ghost predicate CanTake(r: Route, t: Lsn, batch: seq<PendingMiss>) {
    r.flight.None? && Foldable(r, t) && SortedBatch(batch, Select(r.pending, t, true))
  }

  /** The slow path takes the due misses off the queue. */
  function TakeBatch(r: Route, t: Lsn, batch: seq<PendingMiss>): (r': Route) {
    var keep := Select(r.pending, t, false);
    r.(pending := keep, hint := LowestDlsn(keep), flight := Some(Flight(t, batch, false)))
  }

  predicate CanApply(r: Route) {
    r.flight.Some? && !r.flight.value.applied
  }

  /** It applies them to the maps, under the map lock. */
  function ApplyTaken(r: Route): (r': Route)
    requires CanApply(r)
  {
    r.(miss := ApplyBatch(r.miss, r.flight.value.batch), flight := Some(r.flight.value.(applied := true)))
  }

  predicate CanClose(r: Route) {
    r.flight.Some? && r.flight.value.applied
  }

  /** It publishes its target and releases the fold lock. */
  function CloseFold(r: Route): (r': Route)
    requires CanClose(r)
  {
    r.(folded := Max(r.folded, r.flight.value.target), flight := None)
  }

  /** Slots at or below a published target are dropped from the overlay. */
  function DropSlots(r: Route, t: Lsn): (r': Route) {
    r.(trunc := Max(r.trunc, t))
  }

  /** One atomic region of some fold. */
  datatype FoldMove =
    | Take(t: Lsn, batch: seq<PendingMiss>)  // slow: swap the queue
    | Mark                                   // slow: apply the batch to the maps
    | Close                                  // slow: publish the target
    | Choose(t: Lsn)                         // fast: nothing is due
    | Jump(t: Lsn)                           // fast: publish the target
    | Forget(t: Lsn)                         // truncate the overlay, a batch at a time

  ghost predicate CanFold(r: Route, m: FoldMove) {
    match m
    case Take(t, batch) => CanTake(r, t, batch)
    case Mark => CanApply(r)
    case Close => CanClose(r)
    case Choose(t) => CanChoose(r, t)
    case Jump(t) => t in r.ready
    case Forget(t) => t <= r.folded && t - r.trunc >= TRUNC_BATCH
  }

  ghost function FoldNext(r: Route, m: FoldMove): (r': Route)
    requires CanFold(r, m)
  {
    match m
    case Take(t, batch) => TakeBatch(r, t, batch)
    case Mark => ApplyTaken(r)
    case Close => CloseFold(r)
    case Choose(t) => ChooseFast(r, t)
    case Jump(t) => JumpFast(r, t)
    case Forget(t) => DropSlots(r, t)
  }

  /** What a fold under way aims at with this move. */
  predicate AimsAtMost(m: FoldMove, f: Lsn) {
    (m.Take? || m.Choose?) ==> m.t <= f
  }

  function MaybeTruncate(r: Route, t: Lsn): (r': Route) {
    if t - r.trunc >= TRUNC_BATCH then DropSlots(r, t) else r
  }

  /** fold_to when nobody else is folding: the fast path if nothing is due, else swap, apply and publish. */
  function FoldTo(r: Route, f: Lsn, batch: seq<PendingMiss>): (r': Route) {
    var target := FoldTarget(r, f);
    if f <= r.folded || target <= r.folded then r
    else if r.hint.None? || r.hint.value > target then MaybeTruncate(JumpFast(ChooseFast(r, target), target), target)
    else MaybeTruncate(CloseFold(ApplyTaken(TakeBatch(r, target, batch))), target)
  }

  // ---------------------------------------------------------------- eligible(), one atomic region at a time

  /** A durable slot overlapping the range must be held by the member. */
  predicate CanServe(r: Route, s: RouteSlot, idx: nat, addr: nat, len: nat) {
    Durable(r, s) && Overlaps(addr, len, s.addr, s.len) ==> idx in s.holders
  }

  /** The first region: the member has proved itself and its map has no miss in the range. */
  predicate MapClear(r: Route, idx: nat, addr: nat, len: nat)
    requires idx < |r.synced| && idx < |r.miss|
  {
    r.synced[idx] >= r.login && forall y :: y in r.miss[idx] ==> !CoversByte(addr, len, y)
  }

  /** What the scan makes of one slot; a truncated slot is not seen. */
  predicate SlotClear(r: Route, d: Lsn, idx: nat, addr: nat, len: nat) {
    d in r.overlay && r.trunc < d ==> CanServe(r, r.overlay[d], idx, addr, len)
  }

  /** The whole of eligible() when nothing else happens: map, then fold and scan. */
  predicate Eligible(r: Route, idx: nat, addr: nat, len: nat, hmax: Lsn)
    requires idx < |r.synced| && idx < |r.miss|
  {
    && MapClear(r, idx, addr, len)
    && (forall d :: d in r.overlay && r.folded < d <= hmax ==> SlotClear(r, d, idx, addr, len))
  }

  function LowestSynced(s: seq<Lsn>): (m: Lsn)
    requires |s| > 0
    ensures forall i :: 0 <= i < |s| ==> m <= s[i]
    ensures m in s
  {
    if |s| == 1 then s[0] else Min(LowestSynced(s[..|s| - 1]), s[|s| - 1])
  }

  /** advance_synced: member `idx` reported that it committed up to `c`. */
  function AdvanceSynced(r: Route, idx: nat, c: Lsn): (r': Route)
    requires idx < |r.synced| && idx < |r.miss|
  {
    if c <= r.synced[idx] then r else
    var synced := r.synced[idx := c];
    r.(synced := synced,
       allCommitted := LowestSynced(synced),
       miss := r.miss[idx := map y | y in r.miss[idx] && r.miss[idx][y] > c :: r.miss[idx][y]])
  }

  // ---------------------------------------------------------------- the relation the index must agree with

  /** Who really holds which dLSN. */
  type Holdings = set<(Lsn, nat)>

  /** The highest durable dLSN in (login, h] that wrote byte `y`, or `login`. */
  function Winner(r: Route, h: Lsn, y: nat): (w: Lsn)
    ensures r.login <= w
    ensures w > r.login ==> w <= h && DurableOn(r, w, y)
    ensures forall d :: w < d <= h ==> !DurableOn(r, d, y)
    decreases h - r.login
  {
    if h <= r.login then r.login
    else if DurableOn(r, h, y) then h
    else Winner(r, h - 1, y)
  }

  predicate DurableOn(r: Route, d: Lsn, y: nat) {
    d in r.overlay && Durable(r, r.overlay[d]) && CoversByte(r.overlay[d].addr, r.overlay[d].len, y)
  }

  ghost predicate Shape(r: Route) {
    && r.n > 0 && |r.miss| == r.n && |r.synced| == r.n
    && r.login <= r.folded
    && (forall d :: d in r.overlay ==> r.login < d)
    && (forall d :: d in r.overlay ==> r.overlay[d].completed <= Members(r.n))
    && (forall d :: d in r.overlay ==> r.overlay[d].holders <= Members(r.n))
    && (forall d :: d in r.done <==> d in r.overlay && r.overlay[d].completed == Members(r.n))
    && (forall d :: r.login < d <= r.folded ==> d in r.done)
    && (forall t :: t in r.ready ==> AllDone(r, t))
    && (r.flight.Some? ==> AllDone(r, r.flight.value.target))
    && r.trunc <= r.folded
  }

  predicate AllDone(r: Route, t: Lsn) {
    forall d :: r.login < d <= t ==> d in r.done
  }

  /** `d` is above the fold and above everything a fold under way aims at. */
  predicate AboveFolds(r: Route, d: Lsn) {
    r.folded < d && (r.flight.Some? ==> r.flight.value.target < d) && forall t :: t in r.ready ==> t < d
  }

  /**
   * The dLSN up to which the maps reflect exactly what was missed. It lags behind `folded`
   * while a fast fold has overtaken a batch that is not applied, and runs ahead of it
   * between the apply and the publication of a slow fold.
   */
  function MapLevel(r: Route): Lsn {
    if r.flight.None? then r.folded
    else if r.flight.value.applied then Max(r.folded, r.flight.value.target)
    else
      var low := LowestDlsn(r.flight.value.batch);
      if low.None? then r.folded else Min(r.folded, low.value - 1)
  }

  /** Every recorded holder really holds the write. */
  ghost predicate HoldersTrue(r: Route, held: Holdings) {
    forall d, i :: d in r.overlay && i in r.overlay[d].holders ==> (d, i) in held
  }

  /** A miss on its way to the maps tells the truth about a durable slot. */
  ghost predicate MissTrue(r: Route, held: Holdings, e: PendingMiss) {
    && e.dlsn in r.overlay && Durable(r, r.overlay[e.dlsn])
    && e.addr == r.overlay[e.dlsn].addr && e.len == r.overlay[e.dlsn].len
    && (forall i :: i in e.held ==> (e.dlsn, i) in held)
  }

  ghost predicate PendingEntryOk(r: Route, held: Holdings, e: PendingMiss) {
    AboveFolds(r, e.dlsn) && MissTrue(r, held, e) && r.hint.Some? && r.hint.value <= e.dlsn
  }

  /** Every pending miss is above every fold and not below the hint. */
  ghost predicate PendingOk(r: Route, held: Holdings) {
    forall e :: e in r.pending ==> PendingEntryOk(r, held, e)
  }

  ghost predicate FlightOk(r: Route, held: Holdings) {
    r.flight.Some? ==>
      && Ascending(r.flight.value.batch)
      && forall e :: e in r.flight.value.batch ==> MissTrue(r, held, e) && e.dlsn <= r.flight.value.target
  }

  predicate Queued(r: Route, d: Lsn) {
    exists e :: e in r.pending && e.dlsn == d
  }

  /** In the batch of a slow fold that has not applied it. */
  predicate InBatch(r: Route, d: Lsn) {
    CanApply(r) && exists e :: e in r.flight.value.batch && e.dlsn == d
  }

  /** A durable write the maps do not reflect and somebody missed is on its way to them. */
  ghost predicate HandedOver(r: Route) {
    forall d :: d in r.overlay && MapLevel(r) < d ==> HandedOverAt(r, d)
  }

  ghost predicate HandedOverAt(r: Route, d: Lsn)
    requires d in r.overlay
  {
    var s := r.overlay[d];
    (s.verdict || (d in r.done && Durable(r, s))) && s.holders != Members(r.n) ==> Queued(r, d) || InBatch(r, d)
  }

  /** Unheld winners at the map level stay in the Missing map. */
  ghost predicate MissesMarked(r: Route, held: Holdings) {
    forall i: nat, y: nat :: i < |r.miss| ==> MissMarked(r, held, i, y)
  }

  ghost predicate MissMarked(r: Route, held: Holdings, i: nat, y: nat)
    requires i < |r.miss|
  {
    var w := Winner(r, MapLevel(r), y);
    w > r.login && (w, i) !in held ==> y in r.miss[i] && r.miss[i][y] == w
  }

  ghost predicate RouteInv(r: Route, held: Holdings) {
    && Shape(r) && HoldersTrue(r, held) && PendingOk(r, held) && FlightOk(r, held)
    && HandedOver(r) && MissesMarked(r, held)
  }

  /** The map level is at least the login dLSN, and everything up to it is complete. */
  lemma LevelDone(r: Route, held: Holdings)
    requires Shape(r) && FlightOk(r, held)
    ensures r.login <= MapLevel(r) && AllDone(r, MapLevel(r))
  {
    if CanApply(r) {
      var low := LowestDlsn(r.flight.value.batch);
      if low.Some? { LowestIn(r.flight.value.batch); }
    }
  }

  lemma {:induction false} LowestIn(s: seq<PendingMiss>)
    requires s != []
    ensures exists e :: e in s && LowestDlsn(s) == Some(e.dlsn)
  {
    var last := s[|s| - 1];
    assert last in s;
    if |s| > 1 {
      LowestIn(s[..|s| - 1]);
      var e :| e in s[..|s| - 1] && LowestDlsn(s[..|s| - 1]) == Some(e.dlsn);
      assert e in s;
    }
  }

  // ---------------------------------------------------------------- soundness of eligible()

  /** Slots only gain holders, legs and verdicts; the fold and the truncation only rise. */
  ghost predicate RouteGrows(r: Route, r': Route) {
    && r'.n == r.n && r'.login == r.login && r.folded <= r'.folded && r.trunc <= r'.trunc
    && (forall d :: d in r.overlay ==> d in r'.overlay && SlotGrows(r.overlay[d], r'.overlay[d]))
  }

  predicate SlotGrows(s: RouteSlot, s': RouteSlot) {
    s'.addr == s.addr && s'.len == s.len && s.holders <= s'.holders && (s.verdict ==> s'.verdict)
  }

  /** A durable slot found clear by a later scan is held by the member. */
  lemma SlotSeen(r: Route, u: Route, held: Holdings, d: Lsn, idx: nat, addr: nat, len: nat, y: nat)
    requires RouteGrows(r, u) && HoldersTrue(u, held) && Shape(u)
    requires DurableOn(r, d, y) && CoversByte(addr, len, y) && u.trunc < d && SlotClear(u, d, idx, addr, len)
    ensures (d, idx) in held
  {
    SubsetSize(r.overlay[d].holders, u.overlay[d].holders);
  }

  /** The maps, when read, reflected at most `h` and at least all the scan did not look at below `h`. */
  predicate Timely(login: Lsn, level: Lsn, blind: Lsn, h: Lsn) {
    h <= login || blind <= login || Min(blind, h) <= level <= h
  }

  /**
   * A clear map and, later, a clear scan above `f` certify the winner at `h` as of the map
   * read whenever the map level then was at most `h` and at least the lower of `f` and `h`.
   */
  lemma AnswerHolds(r: Route, held: Holdings, held': Holdings, idx: nat, addr: nat, len: nat, f: Lsn, h: Lsn, y: nat)
    requires RouteInv(r, held) && idx < r.n && held <= held'
    requires MapClear(r, idx, addr, len) && CoversByte(addr, len, y)
    requires f <= r.login || Min(f, h) <= MapLevel(r) <= h
    requires Winner(r, h, y) > f ==> (Winner(r, h, y), idx) in held'
    ensures Winner(r, h, y) > r.login ==> (Winner(r, h, y), idx) in held'
  {
    var w := Winner(r, h, y);
    if r.login < w <= f {
      WinnerBelow(r, MapLevel(r), h, y);
      assert MissMarked(r, held, idx, y);
    }
  }

  /** A winner at `h` that is at or below `m` is the winner at `m`. */
  lemma {:induction false} WinnerBelow(r: Route, m: Lsn, h: Lsn, y: nat)
    requires m <= h && Winner(r, h, y) <= m
    ensures Winner(r, h, y) == Winner(r, m, y)
    decreases h - m
  {
    if m < h { WinnerBelow(r, m, h - 1, y); }
  }

  /**
   * With nobody folding and nothing happening between the two reads, a member that does
   * not hold the highest durable write at or below `h` on some byte is not eligible at any
   * `hmax >= h`, whenever the fold has not passed `h`.
   */
  lemma EligibleHoldsWinner(r: Route, held: Holdings, idx: nat, addr: nat, len: nat, hmax: Lsn, h: Lsn, y: nat)
    requires RouteInv(r, held) && idx < r.n && r.flight.None?
    requires r.folded <= h <= hmax
    requires CoversByte(addr, len, y)
    requires Winner(r, h, y) > r.login && (Winner(r, h, y), idx) !in held
    ensures !Eligible(r, idx, addr, len, hmax)
  {
    if Eligible(r, idx, addr, len, hmax) {
      var w := Winner(r, h, y);
      if w > r.folded { SlotSeen(r, r, held, w, idx, addr, len, y); }
      AnswerHolds(r, held, held, idx, addr, len, r.folded, h, y);
    }
  }

  // ---------------------------------------------------------------- every operation keeps the agreement

  lemma ResetAgrees(n: nat, login: Lsn, held: Holdings)
    requires n > 0
    ensures RouteInv(Reset(n, login), held)
  {
  }

  lemma MoreHoldings(r: Route, held: Holdings, held': Holdings)
    requires RouteInv(r, held) && held <= held'
    ensures RouteInv(r, held')
  {
    forall e | e in r.pending ensures PendingEntryOk(r, held', e) { assert PendingEntryOk(r, held, e); }
    assert FlightOk(r, held') by {
      if r.flight.Some? {
        forall e | e in r.flight.value.batch ensures MissTrue(r, held', e) { assert MissTrue(r, held, e); }
      }
    }
    forall i: nat, y: nat | i < |r.miss| ensures MissMarked(r, held', i, y) { assert MissMarked(r, held, i, y); }
  }

  /** The winner at `h` depends only on the overlay at or below `h`. */
  lemma {:induction false} WinnerSame(r: Route, r': Route, h: Lsn, y: nat)
    requires r'.login == r.login && r'.n == r.n
    requires forall d :: d <= h ==> (d in r.overlay <==> d in r'.overlay)
    requires forall d :: d <= h && d in r.overlay ==> r.overlay[d] == r'.overlay[d]
    ensures Winner(r', h, y) == Winner(r, h, y)
    decreases h - r.login
  {
    if h > r.login { WinnerSame(r, r', h - 1, y); }
  }

  /** A step of the client's books that no fold takes part in. */
  ghost predicate SameFolds(r: Route, r': Route) {
    && r'.login == r.login && r'.n == r.n && r'.folded == r.folded && r'.miss == r.miss
    && r'.flight == r.flight && r'.ready == r.ready && r'.trunc == r.trunc
  }

  /** A change above the map level leaves the Missing maps right. */
  lemma MissesKept(r: Route, r': Route, held: Holdings)
    requires MissesMarked(r, held) && SameFolds(r, r')
    requires forall d :: d <= MapLevel(r) ==> (d in r.overlay <==> d in r'.overlay)
    requires forall d :: d <= MapLevel(r) && d in r.overlay ==> r.overlay[d] == r'.overlay[d]
    ensures MissesMarked(r', held)
  {
    forall i: nat, y: nat | i < |r'.miss| ensures MissMarked(r', held, i, y) {
      assert MissMarked(r, held, i, y);
      WinnerSame(r, r', MapLevel(r), y);
    }
  }

  /** What is not complete is above every fold. */
  lemma OpenIsAbove(r: Route, held: Holdings, d: Lsn)
    requires Shape(r) && FlightOk(r, held) && r.login < d && d !in r.done
    ensures AboveFolds(r, d) && MapLevel(r) < d
  {
    LevelDone(r, held);
    forall t | t in r.ready ensures t < d { assert AllDone(r, t); }
  }

  lemma SameLevel(r: Route, r': Route)
    requires SameFolds(r, r')
    ensures MapLevel(r') == MapLevel(r)
  {
  }

  lemma OpenKeepsShape(r: Route, d: Lsn, addr: nat, len: nat)
    requires Shape(r) && r.login < d && d !in r.overlay
    ensures Shape(OpenSlot(r, d, addr, len))
  {
    var r' := OpenSlot(r, d, addr, len);
    assert 0 in Members(r.n);
    forall t | t in r'.ready ensures AllDone(r', t) { assert AllDone(r, t); }
  }

  lemma OpenHandsOver(r: Route, d: Lsn, addr: nat, len: nat)
    requires HandedOver(r) && d !in r.overlay && d !in r.done && r.n > 0
    ensures HandedOver(OpenSlot(r, d, addr, len))
  {
    var r' := OpenSlot(r, d, addr, len);
    hide MapLevel, Quorum;
    SameLevel(r, r');
    forall e | e in r'.overlay && MapLevel(r') < e ensures HandedOverAt(r', e) {
      if e != d {
        assert HandedOverAt(r, e);
        assert Queued(r, e) ==> Queued(r', e);
        assert InBatch(r, e) ==> InBatch(r', e);
      }
    }
  }

  lemma OpenSlotAgrees(r: Route, held: Holdings, d: Lsn, addr: nat, len: nat)
    requires RouteInv(r, held) && r.login < d && d !in r.overlay
    ensures RouteInv(OpenSlot(r, d, addr, len), held)
  {
    var r' := OpenSlot(r, d, addr, len);
    assert d !in r.done;
    hide MapLevel, MissesMarked, HandedOver, FlightOk, PendingOk, Shape;
    OpenKeepsShape(r, d, addr, len);
    OpenIsAbove(r, held, d);
    MissesKept(r, r', held);
    ShapeN(r);
    OpenHandsOver(r, d, addr, len);
    PendingKept(r, r', held);
    FlightKept(r, r', held);
  }

  lemma ShapeN(r: Route)
    requires Shape(r)
    ensures r.n > 0
  {
  }

  lemma GrownIsDurable(r: Route, r': Route, d: Lsn)
    requires d in r.overlay && d in r'.overlay && r'.n == r.n && SlotGrows(r.overlay[d], r'.overlay[d])
    requires Durable(r, r.overlay[d])
    ensures Durable(r', r'.overlay[d])
  {
    SubsetSize(r.overlay[d].holders, r'.overlay[d].holders);
  }

  lemma FlightKept(r: Route, r': Route, held: Holdings)
    requires FlightOk(r, held) && SameFolds(r, r')
    requires forall d :: d in r.overlay ==> d in r'.overlay && SlotGrows(r.overlay[d], r'.overlay[d])
    ensures FlightOk(r', held)
  {
    if r'.flight.Some? {
      forall e | e in r'.flight.value.batch ensures MissTrue(r', held, e) {
        assert MissTrue(r, held, e);
        GrownIsDurable(r, r', e.dlsn);
      }
    }
  }

  /** Slots that grow leave the queue right. */
  lemma PendingKept(r: Route, r': Route, held: Holdings)
    requires PendingOk(r, held) && SameFolds(r, r') && r'.hint == r.hint && r'.pending == r.pending
    requires forall d :: d in r.overlay ==> d in r'.overlay && SlotGrows(r.overlay[d], r'.overlay[d])
    ensures PendingOk(r', held)
  {
    forall e | e in r'.pending ensures PendingEntryOk(r', held, e) {
      assert PendingEntryOk(r, held, e);
      GrownIsDurable(r, r', e.dlsn);
    }
  }

  lemma PushKeepsPending(r: Route, held: Holdings, d: Lsn)
    requires PendingOk(r, held) && HoldersTrue(r, held)
    requires d in r.overlay && AboveFolds(r, d) && Durable(r, r.overlay[d])
    ensures PendingOk(PushMiss(r, d, r.overlay[d]), held)
    ensures Queued(PushMiss(r, d, r.overlay[d]), d)
    ensures forall e :: Queued(r, e) ==> Queued(PushMiss(r, d, r.overlay[d]), e)
  {
    var r' := PushMiss(r, d, r.overlay[d]);
    forall e | e in r'.pending ensures PendingEntryOk(r', held, e) {
      if e in r.pending { assert PendingEntryOk(r, held, e); }
    }
    var p := PendingMiss(d, r.overlay[d].holders, r.overlay[d].addr, r.overlay[d].len);
    assert p in r'.pending && p.dlsn == d;
    forall e | Queued(r, e) ensures Queued(r', e) {
      var q :| q in r.pending && q.dlsn == e;
      assert q in r'.pending;
    }
  }

  /** A quorum holds the slot, but not everybody. */
  predicate Missed(r: Route, s: RouteSlot) {
    |s.holders| >= Quorum(r.n) && s.holders != Members(r.n)
  }

  /** The queue after the last leg of `d` reported: a quorum-held, not universal slot is pushed. */
  lemma CompletionQueues(r: Route, held: Holdings, d: Lsn, idx: nat, acked: bool)
    requires PendingOk(r, held) && HoldersTrue(r, held)
    requires d in r.overlay && AboveFolds(r, d)
    requires acked ==> (d, idx) in held
    ensures var r' := RecordCompletion(r, d, idx, acked);
      && PendingOk(r', held)
      && (forall e :: Queued(r, e) ==> Queued(r', e))
      && (d in r'.done && d !in r.done && Missed(r, r'.overlay[d]) ==> Queued(r', d))
  {
    var s := CompletedSlot(r.overlay[d], idx, acked);
    var r1 := r.(overlay := r.overlay[d := s]);
    PendingKept(r, r1, held);
    var push := s.completed == Members(r.n) && |s.holders| >= Quorum(r.n) && s.holders != Members(r.n);
    if push { PushKeepsPending(r1, held, d); }
    var r2 := if push then PushMiss(r1, d, s) else r1;
    var r' := RecordCompletion(r, d, idx, acked);
    assert r' == r2.(done := r'.done);
    DoneKeepsQueue(r2, held, r'.done);
    forall e | Queued(r, e) ensures Queued(r', e) {
      assert Queued(r1, e);
      assert Queued(r2, e);
    }
    if push { assert Queued(r2, d); }
  }

  lemma CompletionQueuesAt(r: Route, held: Holdings, d: Lsn, idx: nat, acked: bool, e: Lsn)
    requires PendingOk(r, held) && HoldersTrue(r, held)
    requires d in r.overlay && AboveFolds(r, d) && d !in r.done
    requires acked ==> (d, idx) in held
    ensures var r' := RecordCompletion(r, d, idx, acked);
      && (Queued(r, e) ==> Queued(r', e)) && d in r'.overlay
      && (e == d && d in r'.done && Missed(r, r'.overlay[d]) ==> Queued(r', e))
  {
    CompletionQueues(r, held, d, idx, acked);
  }

  lemma DoneKeepsQueue(r: Route, held: Holdings, done: set<Lsn>)
    requires PendingOk(r, held)
    ensures PendingOk(r.(done := done), held)
    ensures forall e :: Queued(r, e) == Queued(r.(done := done), e)
  {
    var r' := r.(done := done);
    forall e | e in r'.pending ensures PendingEntryOk(r', held, e) { assert PendingEntryOk(r, held, e); }
  }

  /** What a completion changes besides the queue. */
  lemma CompletionFrame(r: Route, d: Lsn, idx: nat, acked: bool)
    requires Shape(r) && d in r.overlay && idx < r.n
    ensures var r' := RecordCompletion(r, d, idx, acked);
      && Shape(r')
      && r'.overlay == r.overlay[d := CompletedSlot(r.overlay[d], idx, acked)]
      && r'.done - {d} == r.done - {d}
      && SameFolds(r, r') && r'.synced == r.synced
      && (forall e :: e in r.overlay ==> e in r'.overlay && SlotGrows(r.overlay[e], r'.overlay[e]))
  {
    var r' := RecordCompletion(r, d, idx, acked);
    assert r.done <= r'.done;
    forall t | t in r'.ready ensures AllDone(r', t) { assert AllDone(r, t); }
  }

  lemma Parts(r: Route, held: Holdings)
    requires RouteInv(r, held)
    ensures Shape(r) && HoldersTrue(r, held) && PendingOk(r, held) && FlightOk(r, held) && HandedOver(r)
    ensures MissesMarked(r, held)
  {
  }

  /** A slot with a leg still out is not complete. */
  lemma LegOut(r: Route, d: Lsn, idx: nat)
    requires Shape(r) && d in r.overlay && idx < r.n && idx !in r.overlay[d].completed
    ensures d !in r.done
  {
  }

  lemma CompletedGrows(r: Route, r': Route, d: Lsn, idx: nat, acked: bool)
    requires Shape(r') && d in r.overlay && r'.n == r.n
    requires r'.overlay == r.overlay[d := CompletedSlot(r.overlay[d], idx, acked)]
    ensures d in r'.overlay && r'.overlay == r.overlay[d := r'.overlay[d]]
    ensures r'.overlay[d].verdict == r.overlay[d].verdict
    ensures r.overlay[d].holders <= r'.overlay[d].holders <= Members(r.n)
  {
  }

  /** Nothing but slot `d` has changed, and that is queued if it has to be. */
  lemma HandedStays(r: Route, r': Route, d: Lsn, e: Lsn)
    requires HandedOver(r) && SameFolds(r, r') && d in r.overlay && d !in r.done && r'.done - {d} == r.done - {d}
    requires d in r'.overlay && r'.overlay == r.overlay[d := r'.overlay[d]]
    requires r'.overlay[d].verdict == r.overlay[d].verdict
    requires r.overlay[d].holders <= r'.overlay[d].holders <= Members(r.n)
    requires e in r'.overlay && MapLevel(r) < e && (Queued(r, e) ==> Queued(r', e))
    requires e == d && d in r'.done && Missed(r, r'.overlay[d]) ==> Queued(r', e)
    ensures HandedOverAt(r', e)
  {
    hide Quorum, Members;
    assert HandedOverAt(r, e);
    assert InBatch(r, e) ==> InBatch(r', e);
    assert e in r'.done - {d} <==> e in r.done - {d};
  }

  lemma CompletionHandsOver(r: Route, held: Holdings, d: Lsn, idx: nat, acked: bool, e: Lsn)
    requires RouteInv(r, held)
    requires d in r.overlay && idx < r.n && idx !in r.overlay[d].completed && AboveFolds(r, d)
    requires acked ==> (d, idx) in held
    requires e in RecordCompletion(r, d, idx, acked).overlay && MapLevel(r) < e
    ensures HandedOverAt(RecordCompletion(r, d, idx, acked), e)
  {
    hide *;
    var r' := RecordCompletion(r, d, idx, acked);
    Parts(r, held);
    LegOut(r, d, idx);
    CompletionFrame(r, d, idx, acked);
    CompletedGrows(r, r', d, idx, acked);
    CompletionQueuesAt(r, held, d, idx, acked, e);
    HandedStays(r, r', d, e);
  }

  lemma CompletionHolders(r: Route, held: Holdings, d: Lsn, idx: nat, acked: bool)
    requires Shape(r) && HoldersTrue(r, held) && MissesMarked(r, held)
    requires d in r.overlay && idx < r.n && MapLevel(r) < d
    requires acked ==> (d, idx) in held
    ensures HoldersTrue(RecordCompletion(r, d, idx, acked), held)
    ensures MissesMarked(RecordCompletion(r, d, idx, acked), held)
  {
    CompletionFrame(r, d, idx, acked);
    MissesKept(r, RecordCompletion(r, d, idx, acked), held);
  }

  lemma CompletionAgrees(r: Route, held: Holdings, d: Lsn, idx: nat, acked: bool)
    requires RouteInv(r, held)
    requires d in r.overlay && idx < r.n && idx !in r.overlay[d].completed
    requires acked ==> (d, idx) in held
    ensures RouteInv(RecordCompletion(r, d, idx, acked), held)
  {
    var r' := RecordCompletion(r, d, idx, acked);
    assert d !in r.done;
    OpenIsAbove(r, held, d);
    CompletionFrame(r, d, idx, acked);
    CompletionQueues(r, held, d, idx, acked);
    CompletionHolders(r, held, d, idx, acked);
    FlightKept(r, r', held);
    hide RecordCompletion;
    assert HandedOver(r') by {
      forall e | e in r'.overlay && MapLevel(r') < e ensures HandedOverAt(r', e) {
        CompletionHandsOver(r, held, d, idx, acked, e);
      }
    }
  }

  lemma LevelBelow(r: Route, d: Lsn)
    requires AboveFolds(r, d)
    ensures MapLevel(r) < d
  {
  }

  /** What a fill changes besides the queue. */
  lemma FilledFrame(r: Route, d: Lsn, leader: nat)
    requires Shape(r) && d in r.overlay && leader < r.n
    ensures var r' := NoteFilled(r, d, leader);
      && Shape(r') && SameFolds(r, r') && r'.synced == r.synced && r'.done == r.done
      && r'.overlay == r.overlay[d := r.overlay[d].(holders := r.overlay[d].holders + {leader}, verdict := true)]
      && (forall e :: e in r.overlay ==> e in r'.overlay && SlotGrows(r.overlay[e], r'.overlay[e]))
  {
    var r' := NoteFilled(r, d, leader);
    forall t | t in r'.ready ensures AllDone(r', t) { assert AllDone(r, t); }
  }

  lemma FilledQueues(r: Route, held: Holdings, d: Lsn, leader: nat)
    requires PendingOk(r, held) && HoldersTrue(r, held)
    requires d in r.overlay && AboveFolds(r, d) && (d, leader) in held
    ensures var r' := NoteFilled(r, d, leader);
      && PendingOk(r', held) && HoldersTrue(r', held)
      && (forall e :: Queued(r, e) ==> Queued(r', e))
      && (r'.overlay[d].holders != Members(r.n) ==> Queued(r', d))
  {
    var s := r.overlay[d].(holders := r.overlay[d].holders + {leader}, verdict := true);
    var r1 := r.(overlay := r.overlay[d := s]);
    PendingKept(r, r1, held);
    if s.holders != Members(r.n) { PushKeepsPending(r1, held, d); }
    forall e | Queued(r, e) ensures Queued(r1, e) { }
  }

  lemma FilledAgrees(r: Route, held: Holdings, d: Lsn, leader: nat)
    requires RouteInv(r, held)
    requires d in r.overlay && AboveFolds(r, d) && leader < r.n && (d, leader) in held
    ensures RouteInv(NoteFilled(r, d, leader), held)
  {
    var r' := NoteFilled(r, d, leader);
    FilledFrame(r, d, leader);
    FilledQueues(r, held, d, leader);
    LevelBelow(r, d);
    hide NoteFilled, Queued, AboveFolds, MissMarked, PendingEntryOk;
    MissesKept(r, r', held);
    FlightKept(r, r', held);
    forall e | e in r'.overlay && MapLevel(r') < e ensures HandedOverAt(r', e) {
      assert HandedOverAt(r, e);
      assert Queued(r, e) ==> Queued(r', e);
      assert InBatch(r, e) ==> InBatch(r', e);
    }
  }

  /** A report may erase a miss only because the member has committed past the missed dLSN. */
  lemma SyncedAgrees(r: Route, held: Holdings, idx: nat, c: Lsn)
    requires RouteInv(r, held) && idx < r.n && r.flight.None?
    requires forall d :: d <= c && d <= r.folded && d in r.overlay && Durable(r, r.overlay[d]) ==> (d, idx) in held
    ensures RouteInv(AdvanceSynced(r, idx, c), held)
  {
    var r' := AdvanceSynced(r, idx, c);
    forall e | e in r'.pending ensures PendingEntryOk(r', held, e) { assert PendingEntryOk(r, held, e); }
    forall t | t in r'.ready ensures AllDone(r', t) { assert AllDone(r, t); }
    forall d | d in r'.overlay && MapLevel(r') < d ensures HandedOverAt(r', d) {
      assert HandedOverAt(r, d);
      assert Queued(r, d) ==> Queued(r', d);
    }
    forall i: nat, y: nat | i < |r'.miss| ensures MissMarked(r', held, i, y) {
      assert MissMarked(r, held, i, y);
      WinnerSame(r, r', r.folded, y);
    }
  }

  // ---------------------------------------------------------------- the fold

  /** What one miss does to one byte of one member's map. */
  lemma ApplyMissAt(miss: seq<MissMap>, e: PendingMiss, i: nat, y: nat)
    requires i < |miss|
    ensures var m, m' := miss[i], ApplyMiss(miss, e)[i];
      if !CoversByte(e.addr, e.len, y) then (y in m' <==> y in m) && (y in m ==> m'[y] == m[y])
      else if i in e.held then y !in m' else y in m' && m'[y] == e.dlsn
  {
  }

  /** The last miss of a batch, on one byte of one member's map. */
  lemma BatchStep(miss: seq<MissMap>, batch: seq<PendingMiss>, i: nat, y: nat)
    requires i < |miss| && batch != []
    ensures var init, e := batch[..|batch| - 1], batch[|batch| - 1];
      var m, m' := ApplyBatch(miss, init)[i], ApplyBatch(miss, batch)[i];
      if !CoversByte(e.addr, e.len, y) then (y in m' <==> y in m) && (y in m ==> m'[y] == m[y])
      else if i in e.held then y !in m' else y in m' && m'[y] == e.dlsn
  {
    hide ApplyMiss;
    ApplyMissAt(ApplyBatch(miss, batch[..|batch| - 1]), batch[|batch| - 1], i, y);
  }

  /** A batch that does not touch byte `y` leaves it alone. */
  lemma {:induction false} BatchMissesByte(miss: seq<MissMap>, batch: seq<PendingMiss>, i: nat, y: nat)
    requires i < |miss|
    requires forall e :: e in batch ==> !CoversByte(e.addr, e.len, y)
    ensures y in ApplyBatch(miss, batch)[i] <==> y in miss[i]
    ensures y in miss[i] ==> ApplyBatch(miss, batch)[i][y] == miss[i][y]
  {
    if batch != [] {
      BatchStep(miss, batch, i, y);
      var init, last := batch[..|batch| - 1], batch[|batch| - 1];
      assert last in batch;
      assert forall e :: e in init ==> e in batch;
      hide ApplyBatch, CoversByte;
      BatchMissesByte(miss, init, i, y);
    }
  }

  /** Applied in ascending order, the highest missed write on a byte is what the map ends up showing. */
  lemma {:induction false} BatchMarksWinner(miss: seq<MissMap>, batch: seq<PendingMiss>, i: nat, y: nat, k: nat)
    requires i < |miss| && Ascending(batch)
    requires k < |batch| && CoversByte(batch[k].addr, batch[k].len, y)
    requires forall j :: 0 <= j < |batch| && CoversByte(batch[j].addr, batch[j].len, y) ==>
      batch[j].dlsn <= batch[k].dlsn
    requires forall j :: 0 <= j < |batch| && batch[j].dlsn == batch[k].dlsn ==> i !in batch[j].held
    ensures y in ApplyBatch(miss, batch)[i] && ApplyBatch(miss, batch)[i][y] == batch[k].dlsn
  {
    hide ApplyBatch, CoversByte;
    var n := |batch| - 1;
    BatchStep(miss, batch, i, y);
    assert k < n ==> batch[k].dlsn <= batch[n].dlsn;
    if !CoversByte(batch[n].addr, batch[n].len, y) {
      assert k < n && batch[..n][k] == batch[k];
      BatchMarksWinner(miss, batch[..n], i, y, k);
    }
  }

  lemma BatchIsDue(r: Route, target: Lsn, batch: seq<PendingMiss>)
    requires SortedBatch(batch, Select(r.pending, target, true))
    ensures forall e :: e in batch <==> e in r.pending && e.dlsn <= target
  {
    forall e ensures e in batch <==> e in Select(r.pending, target, true) {
      assert e in batch <==> e in multiset(batch);
    }
  }

  lemma FoldableIsDone(r: Route, t: Lsn)
    requires Shape(r) && Foldable(r, t)
    ensures AllDone(r, t)
  {
  }

  lemma ChooseAgrees(r: Route, held: Holdings, t: Lsn)
    requires RouteInv(r, held) && CanChoose(r, t)
    ensures RouteInv(ChooseFast(r, t), held)
  {
    var r' := ChooseFast(r, t);
    FoldableIsDone(r, t);
    forall u | u in r'.ready ensures AllDone(r', u) { assert u in r.ready ==> AllDone(r, u); }
    forall e | e in r'.pending ensures PendingEntryOk(r', held, e) { assert PendingEntryOk(r, held, e); }
    FlightMoved(r, r', held);
    forall d | d in r'.overlay && MapLevel(r') < d ensures HandedOverAt(r', d) { HandedMoved(r, r', d); }
    SameLevelMarks(r, r', held);
  }

  /** Steps that leave the books alone leave a batch under way right. */
  lemma FlightMoved(r: Route, r': Route, held: Holdings)
    requires FlightOk(r, held) && r'.overlay == r.overlay && r'.n == r.n
    requires r'.flight.Some? ==>
      r.flight.Some? && r'.flight == Some(r.flight.value.(applied := r'.flight.value.applied))
    ensures FlightOk(r', held)
  {
    if r'.flight.Some? {
      forall e | e in r'.flight.value.batch ensures MissTrue(r', held, e) { assert MissTrue(r, held, e); }
    }
  }

  lemma HandedMoved(r: Route, r': Route, d: Lsn)
    requires HandedOver(r) && d in r.overlay && MapLevel(r) < d
    requires r'.overlay == r.overlay && r'.n == r.n && r'.done == r.done && r'.pending == r.pending
    requires r'.flight == r.flight
    ensures HandedOverAt(r', d)
  {
    assert HandedOverAt(r, d);
    assert Queued(r, d) ==> Queued(r', d);
    assert InBatch(r, d) ==> InBatch(r', d);
  }

  lemma SameLevelMarks(r: Route, r': Route, held: Holdings)
    requires MissesMarked(r, held) && r'.overlay == r.overlay && r'.n == r.n && r'.login == r.login
    requires r'.miss == r.miss && MapLevel(r') == MapLevel(r)
    ensures MissesMarked(r', held)
  {
    forall i: nat, y: nat | i < |r'.miss| ensures MissMarked(r', held, i, y) {
      assert MissMarked(r, held, i, y);
      WinnerSame(r, r', MapLevel(r), y);
    }
  }

  lemma QueuedAbove(r: Route, held: Holdings, d: Lsn)
    requires PendingOk(r, held) && Queued(r, d)
    ensures AboveFolds(r, d)
  {
    var e :| e in r.pending && e.dlsn == d;
    assert PendingEntryOk(r, held, e);
  }

  lemma BatchAboveLevel(r: Route, d: Lsn)
    requires InBatch(r, d)
    ensures MapLevel(r) < d
  {
  }

  /** Between the map level and a dLSN no batch or queue entry reaches, everybody holds what is durable. */
  lemma NothingOnTheWay(r: Route, held: Holdings, m: Lsn, d: Lsn, i: nat)
    requires RouteInv(r, held) && AllDone(r, m) && MapLevel(r) < d <= m && i < r.n
    requires d in r.overlay && Durable(r, r.overlay[d]) && !Queued(r, d) && !InBatch(r, d)
    ensures (d, i) in held
  {
    LevelDone(r, held);
    assert HandedOverAt(r, d);
    assert i in r.overlay[d].holders;
  }

  lemma JumpAgrees(r: Route, held: Holdings, t: Lsn)
    requires RouteInv(r, held) && t in r.ready
    ensures RouteInv(JumpFast(r, t), held)
  {
    var r' := JumpFast(r, t);
    assert AllDone(r, t);
    forall u | u in r'.ready ensures AllDone(r', u) { assert AllDone(r, u); }
    forall e | e in r'.pending ensures PendingEntryOk(r', held, e) { assert PendingEntryOk(r, held, e); }
    FlightMoved(r, r', held);
    forall d | d in r'.overlay && MapLevel(r') < d ensures HandedOverAt(r', d) { HandedMoved(r, r', d); }
    JumpKeepsMarks(r, held, t);
  }

  lemma JumpKeepsMarks(r: Route, held: Holdings, t: Lsn)
    requires RouteInv(r, held) && t in r.ready
    ensures MissesMarked(JumpFast(r, t), held)
  {
    var r', m, m' := JumpFast(r, t), MapLevel(r), MapLevel(JumpFast(r, t));
    assert AllDone(r, t);
    assert m <= m' && AllDone(r, m') by { LevelDone(r, held); }
    forall i: nat, y: nat | i < |r'.miss| ensures MissMarked(r', held, i, y) {
      assert MissMarked(r, held, i, y);
      WinnerSame(r, r', m', y);
      var w := Winner(r, m', y);
      if w > r.login && (w, i) !in held {
        if w > m {
          if Queued(r, w) { QueuedAbove(r, held, w); }
          if InBatch(r', w) { BatchAboveLevel(r', w); }
          assert InBatch(r, w) ==> InBatch(r', w);
          NothingOnTheWay(r, held, m', w, i);
        } else {
          WinnerBelow(r, m, m', y);
        }
      }
    }
  }

  /** Where the queue goes in a swap. */
  lemma TakeMoves(r: Route, held: Holdings, t: Lsn, batch: seq<PendingMiss>)
    requires PendingOk(r, held) && CanTake(r, t, batch)
    ensures var r' := TakeBatch(r, t, batch);
      && PendingOk(r', held) && FlightOk(r', held) && MapLevel(r') == MapLevel(r)
      && (forall d :: Queued(r, d) ==> Queued(r', d) || InBatch(r', d))
  {
    var r' := TakeBatch(r, t, batch);
    BatchIsDue(r, t, batch);
    forall e | e in r'.pending ensures PendingEntryOk(r', held, e) { assert PendingEntryOk(r, held, e); }
    forall e | e in batch ensures MissTrue(r', held, e) && e.dlsn <= t && r.folded < e.dlsn {
      assert PendingEntryOk(r, held, e);
    }
    if batch != [] { LowestIn(batch); }
    forall d | Queued(r, d) ensures Queued(r', d) || InBatch(r', d) {
      var e :| e in r.pending && e.dlsn == d;
      if e.dlsn <= t { assert e in r'.flight.value.batch; } else { assert e in r'.pending; }
    }
  }

  lemma TakeAgrees(r: Route, held: Holdings, t: Lsn, batch: seq<PendingMiss>)
    requires RouteInv(r, held) && CanTake(r, t, batch)
    ensures RouteInv(TakeBatch(r, t, batch), held) && MapLevel(TakeBatch(r, t, batch)) == MapLevel(r)
  {
    var r' := TakeBatch(r, t, batch);
    TakeMoves(r, held, t, batch);
    FoldableIsDone(r, t);
    hide PendingOk, FlightOk, Queued, MissMarked;
    forall u | u in r'.ready ensures AllDone(r', u) { assert AllDone(r, u); }
    forall d | d in r'.overlay && MapLevel(r') < d ensures HandedOverAt(r', d) { assert HandedOverAt(r, d); }
    SameLevelMarks(r, r', held);
  }

  /** After the apply, a member that misses the new winner of byte `y` has it marked. */
  lemma ApplyMarks(r: Route, held: Holdings, i: nat, y: nat)
    requires RouteInv(r, held) && i < r.n && CanApply(r)
    ensures MissMarked(ApplyTaken(r), held, i, y)
  {
    var r', batch := ApplyTaken(r), r.flight.value.batch;
    var m, m' := MapLevel(r), MapLevel(ApplyTaken(r));
    var w := Winner(r, m', y);
    WinnerSame(r, r', m', y);
    if w > r.login && (w, i) !in held {
      forall e | e in batch && CoversByte(e.addr, e.len, y) ensures m < e.dlsn <= w {
        assert MissTrue(r, held, e);
        assert DurableOn(r, e.dlsn, y);
      }
      if w > m {
        WinnerIsInBatch(r, held, m', w, i);
        var e :| e in batch && e.dlsn == w;
        assert MissTrue(r, held, e);
        var k :| 0 <= k < |batch| && batch[k] == e;
        forall j | 0 <= j < |batch| && batch[j].dlsn == w ensures i !in batch[j].held {
          assert batch[j] in batch && MissTrue(r, held, batch[j]);
        }
        BatchMarksWinner(r.miss, batch, i, y, k);
      } else {
        WinnerBelow(r, m, m', y);
        assert MissMarked(r, held, i, y);
        BatchMissesByte(r.miss, batch, i, y);
      }
    }
  }

  lemma WinnerIsInBatch(r: Route, held: Holdings, m': Lsn, w: Lsn, i: nat)
    requires RouteInv(r, held) && i < r.n && CanApply(r) && m' == Max(r.folded, r.flight.value.target)
    requires MapLevel(r) < w <= m' && w in r.overlay && Durable(r, r.overlay[w]) && (w, i) !in held
    ensures InBatch(r, w)
  {
    if !InBatch(r, w) {
      if Queued(r, w) { QueuedAbove(r, held, w); }
      NothingOnTheWay(r, held, m', w, i);
    }
  }

  lemma ApplyTakenAgrees(r: Route, held: Holdings)
    requires RouteInv(r, held) && CanApply(r)
    ensures RouteInv(ApplyTaken(r), held)
  {
    var r' := ApplyTaken(r);
    forall u | u in r'.ready ensures AllDone(r', u) { assert AllDone(r, u); }
    forall e | e in r'.pending ensures PendingEntryOk(r', held, e) { assert PendingEntryOk(r, held, e); }
    FlightMoved(r, r', held);
    forall d | d in r'.overlay && MapLevel(r') < d ensures HandedOverAt(r', d) {
      assert HandedOverAt(r, d);
      assert Queued(r, d) ==> Queued(r', d);
    }
    forall i: nat, y: nat | i < |r'.miss| ensures MissMarked(r', held, i, y) { ApplyMarks(r, held, i, y); }
  }

  lemma CloseAgrees(r: Route, held: Holdings)
    requires RouteInv(r, held) && CanClose(r)
    ensures RouteInv(CloseFold(r), held) && MapLevel(CloseFold(r)) == MapLevel(r)
  {
    var r' := CloseFold(r);
    forall u | u in r'.ready ensures AllDone(r', u) { assert AllDone(r, u); }
    forall e | e in r'.pending ensures PendingEntryOk(r', held, e) { assert PendingEntryOk(r, held, e); }
    forall d | d in r'.overlay && MapLevel(r') < d ensures HandedOverAt(r', d) {
      assert HandedOverAt(r, d);
      assert Queued(r, d) ==> Queued(r', d);
    }
    SameLevelMarks(r, r', held);
  }

  lemma DropAgrees(r: Route, held: Holdings, t: Lsn)
    requires RouteInv(r, held) && t <= r.folded
    ensures RouteInv(DropSlots(r, t), held)
  {
    var r' := DropSlots(r, t);
    forall u | u in r'.ready ensures AllDone(r', u) { assert AllDone(r, u); }
    forall e | e in r'.pending ensures PendingEntryOk(r', held, e) { assert PendingEntryOk(r, held, e); }
    FlightMoved(r, r', held);
    forall d | d in r'.overlay && MapLevel(r') < d ensures HandedOverAt(r', d) { HandedMoved(r, r', d); }
    SameLevelMarks(r, r', held);
  }

  lemma FoldMoveAgrees(r: Route, held: Holdings, m: FoldMove)
    requires RouteInv(r, held) && CanFold(r, m)
    ensures RouteInv(FoldNext(r, m), held)
  {
    hide RouteInv, CanTake, CanChoose;
    match m
    case Take(t, batch) => TakeAgrees(r, held, t, batch);
    case Mark => ApplyTakenAgrees(r, held);
    case Close => CloseAgrees(r, held);
    case Choose(t) => ChooseAgrees(r, held, t);
    case Jump(t) => JumpAgrees(r, held, t);
    case Forget(t) => DropAgrees(r, held, t);
  }

  /** What no fold changes, and what it only raises. */
  lemma FoldMoveFrame(r: Route, m: FoldMove)
    requires CanFold(r, m)
    ensures var r' := FoldNext(r, m);
      && RouteGrows(r, r') && r'.overlay == r.overlay && r'.done == r.done && r'.synced == r.synced
      && r'.allCommitted == r.allCommitted && |r'.miss| == |r.miss|
  {
    hide ApplyBatch, Select, CanTake, CanChoose, LowestDlsn;
  }

  /** A whole fold with nobody else folding keeps the agreement. */
  lemma FoldAgrees(r: Route, held: Holdings, f: Lsn, batch: seq<PendingMiss>)
    requires RouteInv(r, held) && r.flight.None?
    requires SortedBatch(batch, Select(r.pending, FoldTarget(r, f), true))
    ensures RouteInv(FoldTo(r, f, batch), held)
  {
    hide RouteInv;
    var t := FoldTarget(r, f);
    if f > r.folded && t > r.folded {
      if r.hint.None? || r.hint.value > t {
        ChooseAgrees(r, held, t);
        JumpAgrees(ChooseFast(r, t), held, t);
        DropAgrees(JumpFast(ChooseFast(r, t), t), held, t);
      } else {
        TakeAgrees(r, held, t, batch);
        ApplyTakenAgrees(TakeBatch(r, t, batch), held);
        CloseAgrees(ApplyTaken(TakeBatch(r, t, batch)), held);
        DropAgrees(CloseFold(ApplyTaken(TakeBatch(r, t, batch))), held, t);
      }
    }
  }
}
