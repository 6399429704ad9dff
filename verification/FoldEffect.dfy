/** What a whole fold achieves, said of the fields before and after it. */
module FoldEffect {
  import opened CraftTypes
  import opened Router

  /** The queue holds nothing the fold has passed, and the hint is not above any of it. */
  predicate QueueOk(r: Route) {
    forall e :: e in r.pending ==> r.folded < e.dlsn && r.hint.Some? && r.hint.value <= e.dlsn
  }

  lemma QueueAgrees(r: Route, held: Holdings)
    requires RouteInv(r, held)
    ensures QueueOk(r)
  {
    forall e | e in r.pending ensures r.folded < e.dlsn && r.hint.Some? && r.hint.value <= e.dlsn {
      assert PendingEntryOk(r, held, e);
    }
  }

  /**
   * The fold rises as far as every dLSN is complete and no further than `f`; slots are
   * dropped once it is 512 past the last drop; what does not belong to a fold stays.
   */
  ghost predicate Advanced(r: Route, r': Route, f: Lsn) {
    && r.folded <= r'.folded <= Max(r.folded, f)
    && (forall d :: r.folded < d <= r'.folded ==> d in r.done)
    && (r'.folded < f ==> r'.folded + 1 !in r.done)
    && r'.trunc == (if r'.folded > r.folded && r'.folded - r.trunc >= 512 then r'.folded else r.trunc)
    && r'.n == r.n && r'.login == r.login && r'.overlay == r.overlay && r'.done == r.done
    && r'.synced == r.synced && r'.allCommitted == r.allCommitted && r'.flight == r.flight && |r'.miss| == |r.miss|
  }

  /** A queued miss on byte `y` that a fold to `t` takes. */
  predicate DueOn(r: Route, t: Lsn, y: nat, e: PendingMiss) {
    e in r.pending && e.dlsn <= t && CoversByte(e.addr, e.len, y)
  }

  ghost predicate NewestDue(r: Route, t: Lsn, y: nat, e: PendingMiss) {
    DueOn(r, t, y, e) && forall e' :: DueOn(r, t, y, e') ==> e'.dlsn <= e.dlsn
  }

  /** The map of member `i` says of byte `y` whether the member was on the miss `e`. */
  predicate Says(m: MissMap, i: nat, y: nat, e: PendingMiss) {
    if i in e.held then y !in m else y in m && m[y] == e.dlsn
  }

  predicate SameAt(m: MissMap, m': MissMap, y: nat) {
    (y in m' <==> y in m) && (y in m ==> m'[y] == m[y])
  }

  /** Byte `y` of member `i` shows the newest miss folded onto it, or what it showed before. */
  ghost predicate ByteFolded(r: Route, r': Route, i: nat, y: nat)
    requires i < |r.miss| == |r'.miss|
  {
    || (exists e :: NewestDue(r, r'.folded, y, e) && Says(r'.miss[i], i, y, e))
    || ((forall e :: !DueOn(r, r'.folded, y, e)) && SameAt(r.miss[i], r'.miss[i], y))
  }

  /** Exactly the misses above the new fold stay queued, and every map shows the others. */
  ghost predicate Drained(r: Route, r': Route)
    requires |r'.miss| == |r.miss|
  {
    && (forall e :: e in r'.pending <==> e in r.pending && r'.folded < e.dlsn) && QueueOk(r')
    && forall i: nat, y: nat :: i < |r.miss| ==> ByteFolded(r, r', i, y)
  }

  // ---------------------------------------------------------------- a batch on one byte

  /** The last miss of a batch that covers the byte decides what the map shows. */
  lemma {:induction false} LastMissDecides(miss: seq<MissMap>, batch: seq<PendingMiss>, i: nat, y: nat) returns (k: nat)
    requires i < |miss| && exists j :: 0 <= j < |batch| && CoversByte(batch[j].addr, batch[j].len, y)
    ensures k < |batch| && CoversByte(batch[k].addr, batch[k].len, y)
    ensures forall j :: k < j < |batch| ==> !CoversByte(batch[j].addr, batch[j].len, y)
    ensures Says(ApplyBatch(miss, batch)[i], i, y, batch[k])
  {
    hide ApplyBatch, CoversByte;
    var n := |batch| - 1;
    BatchStep(miss, batch, i, y);
    if CoversByte(batch[n].addr, batch[n].len, y) {
      k := n;
    } else {
      var j :| 0 <= j < |batch| && CoversByte(batch[j].addr, batch[j].len, y);
      assert batch[..n][j] == batch[j];
      k := LastMissDecides(miss, batch[..n], i, y);
    }
  }

  lemma BatchFolded(r: Route, r': Route, batch: seq<PendingMiss>, i: nat, y: nat)
    requires i < |r.miss| && r'.miss == ApplyBatch(r.miss, batch) && Ascending(batch)
    requires forall e :: e in batch <==> e in r.pending && e.dlsn <= r'.folded
    ensures ByteFolded(r, r', i, y)
  {
    hide ApplyBatch, CoversByte;
    if j :| 0 <= j < |batch| && CoversByte(batch[j].addr, batch[j].len, y) {
      var k := LastMissDecides(r.miss, batch, i, y);
      forall e | DueOn(r, r'.folded, y, e) ensures e.dlsn <= batch[k].dlsn {
        assert e in batch;
        var m :| 0 <= m < |batch| && batch[m] == e;
        assert m <= k;
      }
      assert batch[k] in batch;
      assert NewestDue(r, r'.folded, y, batch[k]);
    } else {
      forall e | e in batch ensures !CoversByte(e.addr, e.len, y) {
        var m :| 0 <= m < |batch| && batch[m] == e;
      }
      BatchMissesByte(r.miss, batch, i, y);
    }
  }

  // ---------------------------------------------------------------- the fold

  lemma FoldAdvances(r: Route, f: Lsn, batch: seq<PendingMiss>)
    requires r.flight.None?
    ensures Advanced(r, FoldTo(r, f, batch), f)
  {
    hide ApplyBatch, Select, LowestDlsn;
  }

  /** Nothing is due: the queue and the maps are as they were. */
  lemma NothingDue(r: Route, r': Route)
    requires QueueOk(r) && r'.pending == r.pending && r'.hint == r.hint && r'.miss == r.miss
    requires r'.folded == r.folded || r.hint.None? || r'.folded < r.hint.value
    ensures Drained(r, r')
  {
  }

  lemma LowestIsHint(keep: seq<PendingMiss>, e: PendingMiss)
    requires e in keep
    ensures LowestDlsn(keep).Some? && LowestDlsn(keep).value <= e.dlsn
  {
  }

  lemma BatchDrains(r: Route, r': Route, batch: seq<PendingMiss>)
    requires SortedBatch(batch, Select(r.pending, r'.folded, true)) && r'.miss == ApplyBatch(r.miss, batch)
    requires r'.pending == Select(r.pending, r'.folded, false) && r'.hint == LowestDlsn(r'.pending)
    ensures Drained(r, r')
  {
    hide ApplyBatch, Select, LowestDlsn;
    BatchIsDue(r, r'.folded, batch);
    forall e | e in r'.pending ensures r'.folded < e.dlsn && r'.hint.Some? && r'.hint.value <= e.dlsn {
      LowestIsHint(r'.pending, e);
    }
    forall i: nat, y: nat | i < |r.miss| ensures ByteFolded(r, r', i, y) {
      BatchFolded(r, r', batch, i, y);
    }
  }

  /** What fold_to leaves behind, whatever order the sort left equal dLSNs in. */
  lemma FoldDrains(r: Route, f: Lsn, batch: seq<PendingMiss>)
    requires r.flight.None? && QueueOk(r) && SortedBatch(batch, Select(r.pending, FoldTarget(r, f), true))
    ensures Drained(r, FoldTo(r, f, batch))
  {
    hide ApplyBatch, Select, LowestDlsn, SortedBatch, QueueOk, Drained;
    var r', t := FoldTo(r, f, batch), FoldTarget(r, f);
    if f <= r.folded || t <= r.folded || r.hint.None? || r.hint.value > t {
      NothingDue(r, r');
    } else {
      BatchDrains(r, r', batch);
    }
  }
}
