/** The in-memory cluster as the object it is: login and resolution rounds over the replica objects. */
module MemTransports {
  import opened CraftTypes
  import R = Replica
  import C = Cluster
  import P = Protocol
  import opened MemReplicas

  class MemTransport {
    const members: seq<MemReplica>
    const pageSize: nat
    var up: seq<bool>
    var leader: nat
    var term: nat

    ghost predicate Valid()
      reads this, members
    {
      && |members| > 0 && |up| == |members| && leader < |members|
      && Distinct()
      && (forall i :: 0 <= i < |members| ==>
            members[i].pageSize == pageSize && R.JournalOk(pageSize, members[i].journal))
    }

    ghost function Views(): (vs: seq<R.Rep>)
      reads members
      ensures |vs| == |members| && forall i :: 0 <= i < |members| ==> vs[i] == members[i].View()
    {
      seq(|members|, i requires 0 <= i < |members| reads members => members[i].View())
    }

    /** The members a round reaches. */
    function Live(): (live: set<nat>)
      reads this
      ensures forall i :: i in live <==> 0 <= i < |members| && i < |up| && up[i]
      ensures live <= Members(|members|)
    {
      set i | i in Members(|members|) && i < |up| && up[i]
    }

    ghost predicate FirstCopy(i: int, d: Lsn, s: R.Slot)
      reads this, members
    {
      && 0 <= i < |members| && i in Live() && R.HoldsAt(Views()[i], d) && s == Views()[i].journal[d]
      && forall j :: 0 <= j < i && j in Live() ==> !R.HoldsAt(Views()[j], d)
    }

    /** One pass over the live set: a tombstone decides, else the first copy is kept. */
    method Inspect(d: Lsn) returns (verdicted: bool, copy: Option<R.Slot>)
      requires Valid()
      ensures verdicted || copy.None? <==> C.VerdictEmpty(Views(), Live(), d)
      ensures !verdicted && copy.Some? ==> copy.value == C.CopyOf(Views(), Live(), d)
    {
      verdicted, copy := false, None;
      ghost var first := |members|;
      for i := 0 to |members|
        invariant !verdicted && forall j :: 0 <= j < i && j in Live() ==> !R.IsEmptyAt(Views()[j], d)
        invariant first <= |members| && (copy.None? <==> first == |members|)
        invariant copy.None? ==> forall j :: 0 <= j < i && j in Live() ==> !R.HoldsAt(Views()[j], d)
        invariant copy.Some? ==> FirstCopy(first, d, copy.value) && first < i
      {
        if up[i] {
          var s := members[i].PeekSlot(d);
          if s.Some? {
            if s.value.EmptySlot? {
              verdicted := true;
              assert R.IsEmptyAt(Views()[i], d);
              return;
            }
            if copy.None? { copy, first := s, i; }
          }
        }
      }
    }

    method SettleMember(i: nat, d: Lsn, empty: bool, copy: R.Slot)
      requires i < |members|
      modifies members[i]
      ensures members[i].View() == C.SettleSlot(old(members[i].View()), d, empty, copy)
    {
      if empty {
        members[i].MarkEmpty(d);
      } else {
        var s := members[i].PeekSlot(d);
        if s.None? { members[i].InstallSlot(d, copy); }
      }
    }

    ghost predicate Distinct() {
      forall i, j :: 0 <= i < j < |members| ==> members[i] != members[j]
    }

    /** Mark `d` Empty on every live member, or hand the copy to those without an entry. */
    method SettleMembers(d: Lsn, empty: bool, copy: R.Slot)
      requires Distinct() && |up| == |members|
      modifies members
      ensures forall j :: 0 <= j < |members| ==>
        members[j].View() == if j !in Live() then old(members[j].View())
                             else C.SettleSlot(old(members[j].View()), d, empty, copy)
    {
      assert forall i, j :: 0 <= i < j < |members| ==> members[i] != members[j];
      hide *;
      for i := 0 to |members|
        invariant forall j :: i <= j < |members| || (0 <= j < i && j !in Live()) ==>
          members[j].View() == old(members[j].View())
        invariant forall j :: 0 <= j < i && j in Live() ==>
          members[j].View() == C.SettleSlot(old(members[j].View()), d, empty, copy)
      {
        if up[i] { SettleMember(i, d, empty, copy); }
      }
    }

    method Settle(d: Lsn)
      requires Valid()
      modifies members
      ensures Valid() && Views() == C.SettleAll(old(Views()), Live(), d)
    {
      var verdicted, copy := Inspect(d);
      ghost var before := Views();
      hide *;
      ViewsOk();
      ghost var empty, slot := verdicted || copy.None?, if copy.Some? then copy.value else R.EmptySlot;
      SettleMembers(d, verdicted || copy.None?, if copy.Some? then copy.value else R.EmptySlot);
      SettledIs(before, Views(), Live(), d, empty, slot);
      C.SettleKeepsJournals(before, Live(), d, pageSize);
      StillValid();
    }

    lemma StillValid()
      requires |members| > 0 && |up| == |members| && leader < |members| && Distinct() && C.Journals(Views(), pageSize)
      ensures Valid()
    {
      forall i | 0 <= i < |members|
        ensures members[i].pageSize == pageSize && R.JournalOk(pageSize, members[i].journal)
      {
        assert Views()[i] == members[i].View();
      }
    }

    /** The committed prefix every live member shares. */
    method CommitFloor() returns (floor: Option<Lsn>)
      requires Valid()
      ensures floor == C.Floor(Views(), Live(), |members|)
    {
      hide C.Floor;
      floor := None;
      FloorNext(Views(), Live(), 0);
      for i := 0 to |members|
        invariant floor == C.Floor(Views(), Live(), i)
      {
        FloorNext(Views(), Live(), i);
        if up[i] {
          floor := Some(if floor.None? then members[i].commit else Min(floor.value, members[i].commit));
        }
      }
    }

    method SettleRange(lo: Lsn, upto: Lsn)
      requires Valid()
      modifies members
      ensures Valid() && Views() == C.Scan(old(Views()), Live(), lo, upto)
    {
      var d := lo;
      while d <= upto
        invariant Valid() && (d <= upto + 1 || d == lo)
        invariant C.Scan(Views(), Live(), d, upto) == C.Scan(old(Views()), Live(), lo, upto)
        decreases upto - d + 1
      {
        Settle(d);
        d := d + 1;
      }
    }

    method SyncEach(target: Lsn)
      requires Valid()
      modifies members
      ensures forall j :: 0 <= j < |members| && j in Live() ==>
        members[j].View() == R.ApplyUpTo(old(members[j].View()), target)
      ensures forall j :: 0 <= j < |members| && j !in Live() ==> members[j].View() == old(members[j].View())
      ensures forall j :: 0 <= j < |members| ==> members[j].journal == old(members[j].journal)
    {
      hide R.ApplyUpTo, R.JournalOk;
      for i := 0 to |members|
        invariant forall j :: i <= j < |members| || (0 <= j < i && j !in Live()) ==>
          members[j].View() == old(members[j].View())
        invariant forall j :: 0 <= j < i && j in Live() ==>
          members[j].View() == R.ApplyUpTo(old(members[j].View()), target)
        invariant forall j :: 0 <= j < |members| ==> members[j].journal == old(members[j].journal)
      {
        if up[i] { members[i].ApplyUpTo(target); }
      }
    }

    method SyncMembers(target: Lsn)
      requires Valid()
      modifies members
      ensures Valid() && Views() == C.SyncAll(old(Views()), Live(), target)
    {
      hide R.ApplyUpTo, R.JournalOk;
      SyncEach(target);
    }

    lemma ViewsOk()
      requires Valid()
      ensures C.Journals(Views(), pageSize) && |Views()| == |members|
      ensures |members| > 0 && |up| == |members| && leader < |members| && Distinct()
    {
    }

    /** Settle everything above the shared prefix. */
    method SettleAbove(upto: Lsn)
      requires Valid()
      modifies members
      ensures Valid() && Views() == C.Scan(old(Views()), Live(), C.ScanStart(old(Views()), Live()), upto)
    {
      hide *;
      StartIs(Views(), Live(), |members|);
      var floor := CommitFloor();
      var lo := if floor.None? then 0 else floor.value + 1;
      SettleRange(lo, upto);
    }

    /** Settle, then apply. */
    method SettleAndSync(upto: Lsn)
      requires Valid()
      modifies members
      ensures Valid() && C.Journals(old(Views()), pageSize)
      ensures Views() == C.RunResolution(old(Views()), Live(), upto, pageSize)
    {
      hide *;
      ViewsOk();
      RoundIs(Views(), Live(), upto, pageSize);
      SettleAbove(upto);
      SyncMembers(upto);
    }

    /** The round, and the leader's tombstones. */
    method Round(caller: nat, upto: Lsn) returns (empties: seq<Lsn>)
      requires Valid() && caller < |members|
      modifies members
      ensures Valid() && C.Journals(old(Views()), pageSize)
      ensures Views() == C.RunResolution(old(Views()), Live(), upto, pageSize)
      ensures Ascending(empties) && (forall d :: d in empties <==> d in C.Empties(Views()[caller], upto))
    {
      hide C.RunResolution, C.Journals, R.JournalOk;
      SettleAndSync(upto);
      empties := members[caller].PeekEmpties(upto);
    }

    /**
     * run_resolution: the fences in their order, then the round. It runs exactly when the
     * caller is up, leads, is asked in the current term and reaches a majority.
     */
    method RunResolution(caller: nat, t: nat, upto: Lsn) returns (result: Result<seq<Lsn>, CraftError>)
      requires Valid() && caller < |members|
      modifies members
      ensures Valid() && C.Journals(old(Views()), pageSize)
      ensures result.Ok? <==> up[caller] && caller == leader && t == term && C.LiveQuorum(old(Views()), Live())
      ensures !up[caller] ==> result == Err(ReplicaDown)
      ensures up[caller] && caller != leader ==> result == Err(NotLeader)
      ensures up[caller] && caller == leader && t != term ==> result == Err(StaleTerm)
      ensures up[caller] && caller == leader && t == term && 2 * |Live()| <= |members| ==> result == Err(NoQuorum)
      ensures result.Err? ==> Views() == old(Views())
      ensures result.Ok? ==> 2 * |Live()| > |members|
      ensures result.Ok? ==> Views() == C.RunResolution(old(Views()), Live(), upto, pageSize)
      ensures result.Ok? ==> Ascending(result.value)
      ensures result.Ok? ==> forall d :: d in result.value <==> d in C.Empties(Views()[caller], upto)
      ensures result.Ok? ==> forall d :: d in result.value <==>
        d <= upto && d in members[caller].journal && members[caller].journal[d].EmptySlot?
      ensures result.Ok? ==> IsRound(old(Views()), Views(), pageSize, Live(), caller, upto)
    {
      hide C.RunResolution, IsRound;
      if !up[caller] { return Err(ReplicaDown); }
      if caller != leader { return Err(NotLeader); }
      if t != term { return Err(StaleTerm); }
      if |Live()| < Quorum(|members|) { return Err(NoQuorum); }
      ghost var before := Views();
      var empties := Round(caller, upto);
      ServedRound(before, Views(), pageSize, Live(), caller, upto);
      return Ok(empties);
    }

    // ------------------------------------------------------------ login

    /** GetRSCommitLSN: the highest dLSN any live member has appended. */
    method GatherAppends() returns (rs: Lsn)
      requires Valid()
      ensures rs == C.LoginDlsn(Views(), Live())
    {
      rs := -1;
      for i := 0 to |members|
        invariant rs == C.HighestAppend(Views(), Live(), i)
      {
        if up[i] { rs := Max(rs, members[i].lastAppend); }
      }
    }

    method LoginMember(i: nat, rs: Lsn, token: nat, t: nat)
      requires i < |members| && R.JournalOk(members[i].pageSize, members[i].journal)
      modifies members[i]
      ensures members[i].View() == C.LoginOne(old(members[i].View()), rs, token, t)
      ensures R.JournalOk(members[i].pageSize, members[i].journal)
    {
      members[i].ApplyUpTo(rs);
      members[i].ApplyLogin(token, t);
      if members[i].lastAppend > rs { members[i].TruncateAbove(rs); }
    }

    method LoginMembers(rs: Lsn, token: nat, t: nat)
      requires Valid()
      modifies members
      ensures Valid()
      ensures forall j :: 0 <= j < |members| && j in Live() ==>
        members[j].View() == C.LoginOne(old(members[j].View()), rs, token, t)
      ensures forall j :: 0 <= j < |members| && j !in Live() ==> members[j].View() == old(members[j].View())
    {
      hide C.LoginOne;
      for i := 0 to |members|
        invariant Valid()
        invariant forall j :: i <= j < |members| || (0 <= j < i && j !in Live()) ==>
          members[j].View() == old(members[j].View())
        invariant forall j :: 0 <= j < i && j in Live() ==>
          members[j].View() == C.LoginOne(old(members[j].View()), rs, token, t)
      {
        if up[i] { LoginMember(i, rs, token, t); }
      }
    }

    /** Log every live member in at the next term. */
    method LoginLive(token: nat) returns (rs: Lsn)
      requires Valid()
      modifies this`term, members
      ensures Valid() && term == old(term) + 1 && rs == C.LoginDlsn(old(Views()), Live())
      ensures LoggedIn(old(Views()), Views(), Live(), token, term)
    {
      hide C.LoginOne, C.LoginDlsn, R.JournalOk, Members;
      term := term + 1;
      rs := GatherAppends();
      LoginMembers(rs, token, term);
    }

    method LogoutMembers()
      requires Valid()
      modifies members
      ensures Valid()
      ensures forall j :: 0 <= j < |members| ==>
        members[j].View() == if up[j] then old(members[j].View()).(term := 0, token := 0) else old(members[j].View())
    {
      hide R.JournalOk;
      for i := 0 to |members|
        invariant Valid()
        invariant forall j :: i <= j < |members| || (0 <= j < i && !up[j]) ==>
          members[j].View() == old(members[j].View())
        invariant forall j :: 0 <= j < i && up[j] ==>
          members[j].View() == old(members[j].View()).(term := 0, token := 0)
      {
        if up[i] { members[i].ApplyLogout(); }
      }
    }

    /** run_logout: the caller has checked the term; every live member ends the session. */
    method RunLogout(caller: nat) returns (refused: Option<CraftError>)
      requires Valid() && caller < |members|
      modifies members
      ensures Valid()
      ensures !up[caller] ==> refused == Some(ReplicaDown)
      ensures up[caller] && caller != leader ==> refused == Some(NotLeader)
      ensures up[caller] && caller == leader ==> refused == None
      ensures refused.Some? ==> Views() == old(Views())
      ensures refused.None? ==> Views() == C.LogOutAll(old(Views()), Live())
      ensures refused.None? ==> forall j :: 0 <= j < |members| ==>
        members[j].View() == if up[j] then old(members[j].View()).(term := 0, token := 0) else old(members[j].View())
    {
      if !up[caller] { return Some(ReplicaDown); }
      if caller != leader { return Some(NotLeader); }
      LogoutMembers();
      return None;
    }

    /** run_login: a new term and the set's dLSN, or who leads, or why not. */
    method RunLogin(caller: nat, token: nat) returns (result: Result<(Lsn, nat), CraftError>)
      requires Valid() && caller < |members|
      modifies this`term, members
      ensures Valid()
      ensures !up[caller] ==> result == Err(ReplicaDown)
      ensures up[caller] && caller != leader ==> result == Ok((-1, 0))
      ensures up[caller] && caller == leader && 2 * |Live()| <= |members| ==> result == Err(NoQuorum)
      ensures !up[caller] || caller != leader || 2 * |Live()| <= |members| ==>
        Views() == old(Views()) && term == old(term)
      ensures up[caller] && caller == leader && 2 * |Live()| > |members| ==>
        && LoggedIn(old(Views()), Views(), Live(), token, term) && term == old(term) + 1
        && result == Ok((C.LoginDlsn(old(Views()), Live()), term))
        && forall j :: 0 <= j < |members| ==>
             if up[j] then JoinedAt(old(members[j].View()), members[j].View(), result.value.0, token, term)
             else members[j].View() == old(members[j].View())
    {
      hide LoggedIn, C.LoginDlsn;
      if !up[caller] { return Err(ReplicaDown); }
      if caller != leader { return Ok((-1, 0)); }
      if |Live()| < Quorum(|members|) { return Err(NoQuorum); }
      ghost var before := Views();
      var rs := LoginLive(token);
      AllJoined(before, Views(), Live(), token, term);
      return Ok((rs, term));
    }
  }

  /** What the replicas go through is an enabled round step of every session they may be in. */
  ghost predicate IsRound(before: seq<R.Rep>, after: seq<R.Rep>, pageSize: nat,
                          live: set<nat>, caller: nat, upto: Lsn) {
    forall s: P.State ::
      P.Wf(s) && s.reps == before && s.pageSize == pageSize && s.trk.base < upto < s.trk.next ==>
        && caller < |s.reps| && P.Enabled(s, P.Round(live, caller, upto))
        && P.NextRound(s, live, caller, upto).reps == after
  }

  lemma ServedRound(before: seq<R.Rep>, after: seq<R.Rep>, pageSize: nat, live: set<nat>, caller: nat, upto: Lsn)
    requires C.Journals(before, pageSize) && C.LiveQuorum(before, live) && caller in live
    requires after == C.RunResolution(before, live, upto, pageSize)
    ensures IsRound(before, after, pageSize, live, caller, upto)
  {
    hide C.RunResolution, P.AddFounders, P.NoteAll;
  }

  lemma StartIs(reps: seq<R.Rep>, live: set<nat>, n: nat)
    requires n == |reps|
    ensures C.ScanStart(reps, live) == var f := C.Floor(reps, live, n); if f.None? then 0 else f.value + 1
  {
  }

  /** A round is a scan from just above the shared prefix, then a sync. */
  lemma RoundIs(reps: seq<R.Rep>, live: set<nat>, upto: Lsn, pageSize: nat)
    requires C.Journals(reps, pageSize)
    ensures C.Journals(C.Scan(reps, live, C.ScanStart(reps, live), upto), pageSize)
    ensures C.RunResolution(reps, live, upto, pageSize) ==
      C.SyncAll(C.Scan(reps, live, C.ScanStart(reps, live), upto), live, upto)
  {
    hide C.Scan, C.SyncAll, C.Floor;
    C.ScanKeepsJournals(reps, live, C.ScanStart(reps, live), upto, pageSize);
  }

  lemma FloorNext(reps: seq<R.Rep>, live: set<nat>, i: nat)
    requires i < |reps|
    ensures C.Floor(reps, live, 0) == None
    ensures C.Floor(reps, live, i + 1) ==
      var f := C.Floor(reps, live, i);
      if i !in live then f else Some(if f.None? then reps[i].commit else Min(f.value, reps[i].commit))
  {
  }

  ghost predicate LoggedIn(reps: seq<R.Rep>, reps': seq<R.Rep>, live: set<nat>, token: nat, term: nat) {
    && (forall i :: 0 <= i < |reps| ==> R.JournalOk(reps[i].pageSize, reps[i].journal))
    && reps' == C.RunLogin(reps, live, token, term)
  }

  /**
   * A member after the login: in the new session, applied as far as its journal goes without
   * a gap, and with nothing lost, since nobody live has appended above the login dLSN.
   */
  predicate JoinedAt(r: R.Rep, r': R.Rep, rs: Lsn, token: nat, term: nat) {
    && r'.term == term && r'.token == token && r'.journal == r.journal && r'.lastAppend == r.lastAppend <= rs
    && r.commit <= r'.commit <= Max(r.commit, rs) && (r'.commit < rs ==> r'.commit + 1 !in r.journal)
  }

  lemma AllJoined(reps: seq<R.Rep>, reps': seq<R.Rep>, live: set<nat>, token: nat, term: nat)
    requires LoggedIn(reps, reps', live, token, term)
    ensures |reps'| == |reps| && forall i :: 0 <= i < |reps| ==>
      if i in live then JoinedAt(reps[i], reps'[i], C.LoginDlsn(reps, live), token, term) else reps'[i] == reps[i]
  {
  }

  // ---------------------------------------------------------------- a lone replica's round is a cluster round

  /** Views settled one by one are the settled views. */
  lemma SettledIs(before: seq<R.Rep>, after: seq<R.Rep>, live: set<nat>, d: Lsn, empty: bool, copy: R.Slot)
    requires |after| == |before| && empty == C.VerdictEmpty(before, live, d)
    requires !empty ==> copy == C.CopyOf(before, live, d)
    requires forall j :: 0 <= j < |before| ==>
      after[j] == if j !in live then before[j] else C.SettleSlot(before[j], d, empty, copy)
    ensures after == C.SettleAll(before, live, d)
  {
    hide C.VerdictEmpty, C.CopyOf;
    var all := C.SettleAll(before, live, d);
    forall j | 0 <= j < |before| ensures after[j] == all[j] { }
  }

  lemma ApplyNext(r: R.Rep, target: Lsn)
    requires R.JournalOk(r.pageSize, r.journal)
    ensures var next := r.commit + 1;
      R.ApplyUpTo(r, target) ==
        if next <= target && next in r.journal
        then R.ApplyUpTo(r.(commit := next, index := R.Paint(r.index, r.journal[next])), target)
        else r
  {
    hide R.Paint;
  }

  lemma {:induction false} ApplySame(a: R.Rep, b: R.Rep, target: Lsn)
    requires R.JournalOk(a.pageSize, a.journal) && a.pageSize == b.pageSize
    requires a.journal == b.journal && a.index == b.index && a.commit == b.commit
    ensures R.ApplyUpTo(a, target).commit == R.ApplyUpTo(b, target).commit
    ensures R.ApplyUpTo(a, target).index == R.ApplyUpTo(b, target).index
    decreases target - a.commit
  {
    hide R.Paint;
    var next := a.commit + 1;
    ApplyNext(a, target);
    ApplyNext(b, target);
    hide R.ApplyUpTo;
    if next <= target && next in a.journal {
      ApplySame(a.(commit := next, index := R.Paint(a.index, a.journal[next])),
                b.(commit := next, index := R.Paint(b.index, b.journal[next])), target);
    }
  }

  /** What do_resolve_local leaves is what a resolution round over a set of one leaves. */
  lemma LocalIsRound(r: R.Rep, upto: Lsn)
    requires R.RepInv(r)
    ensures C.Journals([r], r.pageSize)
    ensures var round := C.RunResolution([r], {0}, upto, r.pageSize)[0];
      var local := ResolvedLocally(r, upto);
      local.journal == round.journal && local.commit == round.commit && local.index == round.index
  {
    hide R.ApplyUpTo, C.Scan, C.ScanStart, FilledIn, R.RepInv;
    JournalIs(r);
    StartOfOne(r);
    var lo := r.commit + 1;
    C.ScanKeepsJournals([r], {0}, lo, upto, r.pageSize);
    var m, j := C.Scan([r], {0}, lo, upto)[0], FilledIn(r.journal, lo, upto);
    forall d ensures (d in m.journal <==> d in j) && (d in j ==> m.journal[d] == j[d]) {
      LocalEntry(r, lo, upto, d);
    }
    assert m.journal == j;
    C.ScanAt([r], {0}, lo, upto, 0, 0);
    FilledOk(r, upto);
    ApplySame(r.(journal := j, lastAppend := Max(r.lastAppend, upto)), m, upto);
  }

  lemma StartOfOne(r: R.Rep)
    ensures C.ScanStart([r], {0}) == r.commit + 1
  {
    assert C.Floor([r], {0}, 0) == None;
  }

  lemma JournalIs(r: R.Rep)
    requires R.RepInv(r)
    ensures r.pageSize > 0 && R.JournalOk(r.pageSize, r.journal)
  {
  }

  lemma LocalEntry(r: R.Rep, lo: Lsn, upto: Lsn, d: Lsn)
    ensures var m, j := C.Scan([r], {0}, lo, upto)[0], FilledIn(r.journal, lo, upto);
      (d in m.journal <==> d in j) && (d in j ==> m.journal[d] == j[d])
  {
    C.ScanAt([r], {0}, lo, upto, 0, d);
    FilledAt(r.journal, lo, upto, d);
    if d in r.journal && r.journal[d].EmptySlot? {
      assert R.IsEmptyAt([r][0], d);
    } else if d in r.journal {
      assert R.HoldsAt([r][0], d);
    }
  }
}
