/** The read router as the object it is, each method against its specification. */
module RouteMapping {
  import opened CraftTypes
  import Tracker
  import R = Router
  import FoldEffect

  // ---------------------------------------------------------------- folding a batch

  lemma {:induction false} SelectStep(pending: seq<R.PendingMiss>, target: Lsn, due: bool, k: nat)
    requires k < |pending|
    ensures R.Select(pending[..k + 1], target, due) ==
      R.Select(pending[..k], target, due) + (if (pending[k].dlsn <= target) == due then [pending[k]] else [])
  {
    assert pending[..k + 1][..k] == pending[..k];
  }

  /** Split the queue at the fold target; the hint follows what stays. */
  method Partition(pending: seq<R.PendingMiss>, target: Lsn)
    returns (batch: seq<R.PendingMiss>, keep: seq<R.PendingMiss>, hint: Option<Lsn>)
    ensures batch == R.Select(pending, target, true) && keep == R.Select(pending, target, false)
    ensures hint == R.LowestDlsn(keep)
  {
    batch, keep, hint := [], [], None;
    for k := 0 to |pending|
      invariant batch == R.Select(pending[..k], target, true) && keep == R.Select(pending[..k], target, false)
      invariant hint == R.LowestDlsn(keep)
    {
      SelectStep(pending, target, true, k);
      SelectStep(pending, target, false, k);
      var e := pending[k];
      if e.dlsn <= target {
        batch := batch + [e];
      } else {
        assert (keep + [e])[..|keep|] == keep;
        hint := Some(if hint.None? then e.dlsn else Min(hint.value, e.dlsn));
        keep := keep + [e];
      }
    }
    assert pending[..|pending|] == pending;
  }

  /** Where `e` goes in an ascending batch. */
  method Slot(s: seq<R.PendingMiss>, e: R.PendingMiss) returns (k: nat)
    requires R.Ascending(s)
    ensures k <= |s|
    ensures (forall i :: 0 <= i < k ==> s[i].dlsn <= e.dlsn) && (forall i :: k <= i < |s| ==> e.dlsn <= s[i].dlsn)
  {
    k := |s|;
    while k > 0 && e.dlsn < s[k - 1].dlsn
      invariant k <= |s| && forall i :: k <= i < |s| ==> e.dlsn <= s[i].dlsn
    {
      k := k - 1;
    }
  }

  lemma InsertAscending(s: seq<R.PendingMiss>, e: R.PendingMiss, k: nat)
    requires R.Ascending(s) && k <= |s|
    requires (forall i :: 0 <= i < k ==> s[i].dlsn <= e.dlsn) && (forall i :: k <= i < |s| ==> e.dlsn <= s[i].dlsn)
    ensures R.Ascending(s[..k] + [e] + s[k..])
    ensures multiset(s[..k] + [e] + s[k..]) == multiset(s) + multiset{e}
  {
    assert s == s[..k] + s[k..];
  }

  /** std::sort by dLSN. */
  method SortMisses(batch: seq<R.PendingMiss>) returns (sorted: seq<R.PendingMiss>)
    ensures R.SortedBatch(sorted, batch)
  {
    sorted := [];
    for j := 0 to |batch|
      invariant R.SortedBatch(sorted, batch[..j])
    {
      assert batch[..j + 1] == batch[..j] + [batch[j]];
      var k := Slot(sorted, batch[j]);
      InsertAscending(sorted, batch[j], k);
      sorted := sorted[..k] + [batch[j]] + sorted[k..];
    }
    assert batch[..|batch|] == batch;
  }

  /** There is always an order the sort may leave a batch in. */
  lemma SomeOrder(batch: seq<R.PendingMiss>) returns (sorted: seq<R.PendingMiss>)
    ensures R.SortedBatch(sorted, batch)
  {
    if batch == [] {
      sorted := [];
    } else {
      var rest, e := batch[..|batch| - 1], batch[|batch| - 1];
      assert batch == rest + [e];
      sorted := SomeOrder(rest);
      var k := |sorted|;
      while k > 0 && e.dlsn < sorted[k - 1].dlsn
        invariant 0 <= k <= |sorted| && forall i :: k <= i < |sorted| ==> e.dlsn <= sorted[i].dlsn
      {
        k := k - 1;
      }
      InsertAscending(sorted, e, k);
      sorted := sorted[..k] + [e] + sorted[k..];
    }
  }

  /** One miss, member by member. */
  method ApplyOne(miss: seq<R.MissMap>, e: R.PendingMiss) returns (out: seq<R.MissMap>)
    ensures out == R.ApplyMiss(miss, e)
  {
    out := miss;
    for i := 0 to |miss|
      invariant |out| == |miss|
      invariant forall j :: 0 <= j < i ==> out[j] == R.ApplyMiss(miss, e)[j]
      invariant forall j :: i <= j < |miss| ==> out[j] == miss[j]
    {
      out := out[i := if i in e.held then R.EraseMiss(out[i], e.addr, e.len)
                      else R.SetMiss(out[i], e.addr, e.len, e.dlsn)];
    }
  }

  method ApplyAll(miss: seq<R.MissMap>, batch: seq<R.PendingMiss>) returns (out: seq<R.MissMap>)
    ensures out == R.ApplyBatch(miss, batch)
  {
    out := miss;
    for k := 0 to |batch|
      invariant out == R.ApplyBatch(miss, batch[..k])
    {
      assert batch[..k + 1][..k] == batch[..k];
      out := ApplyOne(out, batch[k]);
    }
    assert batch[..|batch|] == batch;
  }

  /** The least watermark any member has reported. */
  method MinSynced(synced: seq<Lsn>) returns (floor: Lsn)
    requires |synced| > 0
    ensures floor == R.LowestSynced(synced)
  {
    floor := synced[0];
    for i := 1 to |synced|
      invariant floor == R.LowestSynced(synced[..i])
    {
      assert synced[..i + 1][..i] == synced[..i];
      floor := Min(floor, synced[i]);
    }
    assert synced[..|synced|] == synced;
  }

  /** The miss a slot with these holders is queued as. */
  function MissOf(d: Lsn, s: R.RouteSlot): R.PendingMiss {
    R.PendingMiss(d, s.holders, s.addr, s.len)
  }

  /**
   * One leg of `d` is counted. When it is the last one the slot is complete, and queued if
   * most members hold it and not all do.
   */
  predicate LegCounted(r: R.Route, r': R.Route, d: Lsn, idx: nat, acked: bool)
    requires d in r.overlay
  {
    && d in r'.overlay && r'.overlay == r.overlay[d := r'.overlay[d]]
    && var s := r'.overlay[d];
       var last := s.completed == Members(r.n);
       var missed := last && 2 * |s.holders| > r.n && s.holders != Members(r.n);
       && s.holders == r.overlay[d].holders + (if acked then {idx} else {})
       && s.completed == r.overlay[d].completed + {idx}
       && r'.done == r.done + (if last then {d} else {})
       && r'.pending == r.pending + (if missed then [MissOf(d, s)] else [])
  }

  lemma CountsLeg(r: R.Route, d: Lsn, idx: nat, acked: bool)
    requires d in r.overlay
    ensures LegCounted(r, R.RecordCompletion(r, d, idx, acked), d, idx, acked)
  {
    hide Members;
  }

  // ---------------------------------------------------------------- the router

  /** `flight` and `ready` stand for what folds under way keep in their locals. */
  class ReadRouteMap {
    var n: nat
    var login: Lsn
    var overlay: map<Lsn, R.RouteSlot>
    var done: set<Lsn>
    var pending: seq<R.PendingMiss>
    var hint: Option<Lsn>
    var miss: seq<R.MissMap>
    var synced: seq<Lsn>
    var allCommitted: Lsn
    var folded: Lsn
    var flight: Option<R.Flight>
    var ready: set<Lsn>
    var trunc: Lsn
    var rrInflight: seq<bool>

    ghost function View(): R.Route
      reads this
    {
      R.Route(n, login, overlay, done, pending, hint, miss, synced, allCommitted, folded, flight, ready, trunc)
    }

    /** One map, one watermark and one round flag per member. */
    ghost predicate Valid()
      reads this
    {
      |miss| == |synced| == |rrInflight| == n && n > 0
    }

    constructor (members: nat, loginDlsn: Lsn)
      requires members > 0
      ensures Valid() && View() == R.Reset(members, loginDlsn)
      ensures n == members && login == folded == trunc == loginDlsn && overlay == map[] && pending == []
      ensures forall i :: 0 <= i < n ==> synced[i] == -1 && miss[i] == map[] && !rrInflight[i]
    {
      n, login := members, loginDlsn;
      overlay, done, pending, hint := map[], {}, [], None;
      miss, synced := seq(members, _ => map[]), seq(members, _ => R.UNSYNCED);
      allCommitted, folded, trunc := R.UNSYNCED, loginDlsn, loginDlsn;
      flight, ready := None, {};
      rrInflight := seq(members, _ => false);
    }

    method CreateSlot(d: Lsn, addr: nat, len: nat)
      requires Valid()
      modifies this
      ensures Valid() && View() == R.OpenSlot(old(View()), d, addr, len) && rrInflight == old(rrInflight)
    {
      overlay := overlay[d := R.RouteSlot(addr, len, {}, {}, false)];
    }

    method PushMiss(d: Lsn, s: R.RouteSlot)
      modifies this`pending, this`hint
      ensures View() == R.PushMiss(old(View()), d, s)
    {
      pending := pending + [R.PendingMiss(d, s.holders, s.addr, s.len)];
      if hint.None? || d < hint.value { hint := Some(d); }
    }

    /** One leg of `d` finished on member `idx`; the last one hands a durable, not universal slot to the fold. */
    method RecordCompletion(d: Lsn, idx: nat, acked: bool)
      requires Valid() && d in overlay && idx < n
      modifies this
      ensures Valid() && View() == R.RecordCompletion(old(View()), d, idx, acked) && rrInflight == old(rrInflight)
      ensures LegCounted(old(View()), View(), d, idx, acked)
    {
      hide LegCounted, Members, Quorum;
      CountsLeg(View(), d, idx, acked);
      var s := overlay[d];
      if acked { s := s.(holders := s.holders + {idx}); }
      s := s.(completed := s.completed + {idx});
      assert s == R.CompletedSlot(old(overlay[d]), idx, acked);
      if s.completed != Members(n) {
        overlay := overlay[d := s];
        return;
      }
      if |s.holders| >= Quorum(n) && s.holders != Members(n) { PushMiss(d, s); }
      overlay, done := overlay[d := s], done + {d};
    }

    /** A round made `d` durable. */
    method NoteFilled(d: Lsn, leader: nat)
      requires Valid() && d in overlay && leader < n
      modifies this
      ensures Valid() && View() == R.NoteFilled(old(View()), d, leader) && rrInflight == old(rrInflight)
      ensures d in overlay && overlay == old(overlay)[d := overlay[d]] && overlay[d].verdict
      ensures overlay[d].holders == old(overlay[d].holders) + {leader}
      ensures pending == old(pending) +
        (if overlay[d].holders != Members(n) then [MissOf(d, overlay[d])] else [])
    {
      var s := overlay[d].(holders := overlay[d].holders + {leader}, verdict := true);
      overlay := overlay[d := s];
      if s.holders != Members(n) { PushMiss(d, s); }
    }

    // ------------------------------------------------------------ the regions of fold_to

    /** Under the queue lock: take what is due off the queue. */
    method TakeDue(target: Lsn) returns (batch: seq<R.PendingMiss>)
      requires Valid()
      modifies this`pending, this`hint, this`flight
      ensures Valid() && R.SortedBatch(batch, R.Select(old(pending), target, true))
      ensures View() == R.TakeBatch(old(View()), target, batch)
    {
      hide R.ApplyBatch, R.Select, R.LowestDlsn, R.SortedBatch;
      var due, keep, newHint := Partition(pending, target);
      pending, hint := keep, newHint;
      batch := SortMisses(due);
      flight := Some(R.Flight(target, batch, false));
    }

    /** Under the map lock: apply the batch. */
    method ApplyDue()
      requires Valid() && R.CanApply(View())
      modifies this`miss, this`flight
      ensures Valid() && View() == R.ApplyTaken(old(View()))
    {
      if flight.value.batch != [] { miss := ApplyAll(miss, flight.value.batch); }
      flight := Some(flight.value.(applied := true));
    }

    /** The compare-and-swap that only ever raises the fold. */
    method AdvanceFolded(target: Lsn)
      modifies this`folded
      ensures folded == Max(old(folded), target)
    {
      if folded < target { folded := target; }
    }

    method MaybeTruncate(target: Lsn)
      modifies this`trunc
      ensures View() == R.MaybeTruncate(old(View()), target)
    {
      if target - trunc >= R.TRUNC_BATCH { trunc := Max(trunc, target); }
    }

    /**
     * fold_to with nobody else folding, in the order `batch` the sort left the due misses in:
     * the fold rises as far as it can, and what it passes moves from the queue to the maps.
     */
    method FoldTo(f: Lsn) returns (ghost batch: seq<R.PendingMiss>)
      requires Valid() && flight.None?
      modifies this
      ensures Valid() && R.SortedBatch(batch, R.Select(old(pending), R.FoldTarget(old(View()), f), true))
      ensures View() == R.FoldTo(old(View()), f, batch) && rrInflight == old(rrInflight)
      ensures FoldEffect.Advanced(old(View()), View(), f)
      ensures FoldEffect.QueueOk(old(View())) ==> FoldEffect.Drained(old(View()), View())
    {
      hide R.ApplyBatch, R.Select, R.LowestDlsn, R.SortedBatch, Tracker.CompletedUpTo;
      hide FoldEffect.Advanced, FoldEffect.QueueOk, FoldEffect.Drained;
      batch := SomeOrder(R.Select(pending, R.FoldTarget(View(), f), true));
      var target := Min(f, Tracker.CompletedUpTo(done, folded + 1));
      if f > folded && target > folded {
        if hint.None? || hint.value > target {
          ready := ready + {target};
          AdvanceFolded(target);
          ready := ready - {target};
        } else {
          batch := TakeDue(target);
          ApplyDue();
          AdvanceFolded(target);
          flight := None;
        }
        MaybeTruncate(target);
      }
      FoldEffect.FoldAdvances(old(View()), f, batch);
      if FoldEffect.QueueOk(old(View())) { FoldEffect.FoldDrains(old(View()), f, batch); }
    }

    // ------------------------------------------------------------ the regions of eligible

    /** Under the map lock: has the member proved itself, and is its map clear on the range? */
    method TestMap(idx: nat, addr: nat, len: nat) returns (ok: bool)
      requires Valid() && idx < n
      ensures ok == R.MapClear(View(), idx, addr, len)
    {
      if synced[idx] < login { return false; }
      return !exists y :: y in miss[idx] && R.CoversByte(addr, len, y);
    }

    /** The scan of the slots above an earlier reading `fold` of the fold. */
    method ScanSlots(fold: Lsn, idx: nat, addr: nat, len: nat, hmax: Lsn) returns (ok: bool)
      requires Valid() && idx < n
      ensures ok <==> forall d :: d in overlay && fold < d <= hmax ==> R.SlotClear(View(), d, idx, addr, len)
    {
      var d := fold + 1;
      while d <= hmax
        invariant fold < d
        invariant forall e :: e in overlay && fold < e < d && e <= hmax ==> R.SlotClear(View(), e, idx, addr, len)
        decreases hmax - d + 1
      {
        if d in overlay && trunc < d {
          var s := overlay[d];
          var durable := |s.holders| >= Quorum(n) || s.verdict;
          if durable && Overlaps(addr, len, s.addr, s.len) && idx !in s.holders {
            assert !R.SlotClear(View(), d, idx, addr, len);
            return false;
          }
        }
        d := d + 1;
      }
      return true;
    }

    /** May member `idx` serve [addr, addr + len) when the highest segment horizon is `hmax`? */
    method Eligible(idx: nat, addr: nat, len: nat, hmax: Lsn) returns (ok: bool)
      requires Valid() && idx < n
      ensures ok == R.Eligible(View(), idx, addr, len, hmax)
      ensures ok <==>
        && synced[idx] >= login && (forall y :: y in miss[idx] ==> y < addr || addr + len <= y)
        && (forall d :: d in overlay && Max(folded, trunc) < d <= hmax ==>
          || idx in overlay[d].holders || (2 * |overlay[d].holders| <= n && !overlay[d].verdict)
          || overlay[d].addr + overlay[d].len <= addr || addr + len <= overlay[d].addr)
    {
      ok := TestMap(idx, addr, len);
      if ok { ok := ScanSlots(folded, idx, addr, len, hmax); }
    }

    /** Member `idx` reported that it committed up to `c`. */
    method AdvanceSynced(idx: nat, c: Lsn)
      requires Valid() && idx < n
      modifies this
      ensures Valid() && View() == R.AdvanceSynced(old(View()), idx, c) && rrInflight == old(rrInflight)
      ensures synced == old(synced)[idx := Max(old(synced[idx]), c)]
      ensures c > old(synced[idx]) ==> allCommitted in synced && forall i :: 0 <= i < n ==> allCommitted <= synced[i]
      ensures forall i :: 0 <= i < n && i != idx ==> miss[i] == old(miss[i])
      ensures forall y :: y in miss[idx] <==>
        y in old(miss[idx]) && (old(miss[idx])[y] > c || c <= old(synced[idx]))
      ensures forall y :: y in miss[idx] ==> miss[idx][y] == old(miss[idx])[y]
    {
      if c <= synced[idx] { return; }
      synced := synced[idx := c];
      allCommitted := MinSynced(synced);
      var m := miss[idx];
      miss := miss[idx := map y | y in m && m[y] > c :: m[y]];
    }

    // ------------------------------------------------------------ one resolution leg per member

    method TryBeginResolution(idx: nat) returns (mine: bool)
      requires Valid() && idx < n
      modifies this`rrInflight
      ensures Valid() && mine == !old(rrInflight)[idx] && rrInflight == old(rrInflight)[idx := true]
    {
      mine := !rrInflight[idx];
      rrInflight := rrInflight[idx := true];
    }

    method EndResolution(idx: nat)
      requires Valid() && idx < n
      modifies this`rrInflight
      ensures Valid() && rrInflight == old(rrInflight)[idx := false]
    {
      rrInflight := rrInflight[idx := false];
    }
  }
}
