/**
 * The leader's cold path over the set of replicas: the resolution round and the
 * login, each taken as one step.
 */
module Cluster {
  import opened CraftTypes
  import opened Replica

  /** Members of `live` are the ones a round or login reaches. */
  predicate LiveQuorum(reps: seq<Rep>, live: set<nat>) {
    live <= Members(|reps|) && |live| >= Quorum(|reps|)
  }

  predicate AnyEmpty(reps: seq<Rep>, live: set<nat>, d: Lsn) {
    exists i :: 0 <= i < |reps| && i in live && IsEmptyAt(reps[i], d)
  }

  predicate AnyHolder(reps: seq<Rep>, live: set<nat>, d: Lsn) {
    exists i :: 0 <= i < |reps| && i in live && HoldsAt(reps[i], d)
  }

  /** The first live member, in member order from `from`, that holds `d` as data. */
  function FirstHolder(reps: seq<Rep>, live: set<nat>, d: Lsn, from: nat): (i: nat)
    requires from <= |reps|
    ensures from <= i <= |reps|
    ensures i < |reps| ==> i in live && HoldsAt(reps[i], d)
    ensures forall j :: from <= j < i ==> !(j in live && HoldsAt(reps[j], d))
    decreases |reps| - from
  {
    if from == |reps| || (from in live && HoldsAt(reps[from], d)) then from
    else FirstHolder(reps, live, d, from + 1)
  }

  /** A prior Empty verdict beats a held copy; otherwise the slot is Empty only if no live member holds it. */
  predicate VerdictEmpty(reps: seq<Rep>, live: set<nat>, d: Lsn) {
    AnyEmpty(reps, live, d) || !AnyHolder(reps, live, d)
  }

  lemma HolderFound(reps: seq<Rep>, live: set<nat>, d: Lsn)
    ensures AnyHolder(reps, live, d) <==> FirstHolder(reps, live, d, 0) < |reps|
  {
  }

  /** What one scanned dLSN does to one live replica. */
  function SettleSlot(r: Rep, d: Lsn, verdictEmpty: bool, copy: Slot): (r': Rep) {
    if verdictEmpty then MarkEmpty(r, d) else InstallSlot(r, d, copy)
  }

  function CopyOf(reps: seq<Rep>, live: set<nat>, d: Lsn): (s: Slot) {
    var i := FirstHolder(reps, live, d, 0);
    if i < |reps| then reps[i].journal[d] else EmptySlot
  }

  function SettleAll(reps: seq<Rep>, live: set<nat>, d: Lsn): (reps': seq<Rep>)
    ensures |reps'| == |reps|
    ensures forall i :: 0 <= i < |reps| ==>
      reps'[i] == if i !in live then reps[i]
                  else SettleSlot(reps[i], d, VerdictEmpty(reps, live, d), CopyOf(reps, live, d))
  {
    seq(|reps|, i requires 0 <= i < |reps| =>
      if i in live then SettleSlot(reps[i], d, VerdictEmpty(reps, live, d), CopyOf(reps, live, d)) else reps[i])
  }

  /** The scan of a round over [d, upto]. */
  function Scan(reps: seq<Rep>, live: set<nat>, d: Lsn, upto: Lsn): (reps': seq<Rep>)
    ensures |reps'| == |reps|
    decreases upto - d + 1
  {
    if d > upto then reps else Scan(SettleAll(reps, live, d), live, d + 1, upto)
  }

  ghost predicate Journals(reps: seq<Rep>, pageSize: nat) {
    forall i :: 0 <= i < |reps| ==> reps[i].pageSize == pageSize && JournalOk(pageSize, reps[i].journal)
  }

  /** cold_apply_sync on every live member. */
  function SyncAll(reps: seq<Rep>, live: set<nat>, target: Lsn): (reps': seq<Rep>)
    requires forall i :: 0 <= i < |reps| ==> JournalOk(reps[i].pageSize, reps[i].journal)
    ensures |reps'| == |reps|
    ensures forall i :: 0 <= i < |reps| ==>
      reps'[i] == if i in live then ApplyUpTo(reps[i], target) else reps[i]
  {
    seq(|reps|, i requires 0 <= i < |reps| => if i in live then ApplyUpTo(reps[i], target) else reps[i])
  }

  /** The lowest committed prefix over the live members below index `upto`. */
  function Floor(reps: seq<Rep>, live: set<nat>, upto: nat): (f: Option<Lsn>)
    requires upto <= |reps|
    ensures f.None? <==> forall i :: 0 <= i < upto ==> i !in live
    ensures f.Some? ==> forall i :: 0 <= i < upto && i in live ==> f.value <= reps[i].commit
    ensures f.Some? ==> exists i :: 0 <= i < upto && i in live && f.value == reps[i].commit
  {
    if upto == 0 then None else
    var f := Floor(reps, live, upto - 1);
    if upto - 1 !in live then f
    else if f.None? then Some(reps[upto - 1].commit)
    else Some(Min(f.value, reps[upto - 1].commit))
  }

  /** Below the floor nothing can be unresolved, so the scan starts just above it. */
  function ScanStart(reps: seq<Rep>, live: set<nat>): (d: Lsn) {
    var f := Floor(reps, live, |reps|);
    if f.None? then 0 else f.value + 1
  }

  lemma SettleKeepsJournals(reps: seq<Rep>, live: set<nat>, d: Lsn, pageSize: nat)
    requires Journals(reps, pageSize)
    ensures Journals(SettleAll(reps, live, d), pageSize)
  {
    var copy := CopyOf(reps, live, d);
    assert SlotOk(pageSize, copy);
    forall i | 0 <= i < |reps|
      ensures JournalOk(pageSize, SettleAll(reps, live, d)[i].journal)
    {
      assert JournalOk(pageSize, reps[i].journal);
      assert JournalOk(pageSize, SettleSlot(reps[i], d, VerdictEmpty(reps, live, d), copy).journal);
    }
  }

  lemma {:induction false} ScanKeepsJournals(reps: seq<Rep>, live: set<nat>, d: Lsn, upto: Lsn, pageSize: nat)
    requires Journals(reps, pageSize)
    ensures Journals(Scan(reps, live, d, upto), pageSize)
    decreases upto - d + 1
  {
    if d <= upto {
      SettleKeepsJournals(reps, live, d, pageSize);
      ScanKeepsJournals(SettleAll(reps, live, d), live, d + 1, upto, pageSize);
    }
  }

  /** run_resolution's effect on the replicas. */
  function RunResolution(reps: seq<Rep>, live: set<nat>, upto: Lsn, pageSize: nat): (reps': seq<Rep>)
    requires Journals(reps, pageSize)
    ensures |reps'| == |reps|
  {
    ScanKeepsJournals(reps, live, ScanStart(reps, live), upto, pageSize);
    SyncAll(Scan(reps, live, ScanStart(reps, live), upto), live, upto)
  }

  /** The verdict list of the reply: every tombstone of the leader at or below `upto`. */
  function Empties(r: Rep, upto: Lsn): (e: set<Lsn>) {
    set d | d in r.journal && d <= upto && r.journal[d].EmptySlot?
  }

  // ---------------------------------------------------------------- slot by slot effect

  /** The entry of live member `i` at a scanned dLSN after the round. */
  function SettledEntry(reps: seq<Rep>, live: set<nat>, i: nat, d: Lsn): (s: Slot)
    requires i < |reps|
  {
    if VerdictEmpty(reps, live, d) then EmptySlot
    else if d in reps[i].journal then reps[i].journal[d]
    else CopyOf(reps, live, d)
  }

  lemma SettleLeavesOthers(reps: seq<Rep>, live: set<nat>, d: Lsn, e: Lsn)
    requires e != d
    ensures VerdictEmpty(SettleAll(reps, live, d), live, e) == VerdictEmpty(reps, live, e)
    ensures CopyOf(SettleAll(reps, live, d), live, e) == CopyOf(reps, live, e)
  {
    var reps' := SettleAll(reps, live, d);
    forall i | 0 <= i < |reps|
      ensures HoldsAt(reps'[i], e) == HoldsAt(reps[i], e) && IsEmptyAt(reps'[i], e) == IsEmptyAt(reps[i], e)
      ensures e in reps[i].journal ==> e in reps'[i].journal && reps'[i].journal[e] == reps[i].journal[e]
    {
      hide VerdictEmpty, CopyOf;
    }
    hide SettleAll, HoldsAt, IsEmptyAt, FirstHolder;
    FirstHolderSame(reps, reps', live, e, 0);
  }

  lemma {:induction false} FirstHolderSame(reps: seq<Rep>, reps': seq<Rep>, live: set<nat>, d: Lsn, from: nat)
    requires |reps| == |reps'| && from <= |reps|
    requires forall i :: 0 <= i < |reps| ==> HoldsAt(reps'[i], d) == HoldsAt(reps[i], d)
    ensures FirstHolder(reps', live, d, from) == FirstHolder(reps, live, d, from)
    decreases |reps| - from
  {
    if from < |reps| { FirstHolderSame(reps, reps', live, d, from + 1); }
  }

  /** What settling one dLSN leaves of member `i`. */
  ghost predicate Untouched(r: Rep, r': Rep, e: Lsn) {
    (e in r'.journal <==> e in r.journal) && (e in r.journal ==> r'.journal[e] == r.journal[e])
  }

  ghost predicate OnlyJournal(r: Rep, r': Rep) {
    && r'.pageSize == r.pageSize && r'.index == r.index && r'.commit == r.commit
    && r'.term == r.term && r'.token == r.token && r.lastAppend <= r'.lastAppend
  }

  lemma SettleAt(reps: seq<Rep>, live: set<nat>, d: Lsn, i: nat, e: Lsn)
    requires i < |reps|
    ensures var r' := SettleAll(reps, live, d)[i];
      && OnlyJournal(reps[i], r')
      && (i !in live ==> r' == reps[i])
      && (i in live && e == d ==> e in r'.journal && r'.journal[e] == SettledEntry(reps, live, i, e))
      && (e != d ==> Untouched(reps[i], r', e))
  {
  }

  /** The scan settles each dLSN in its range independently, on live members only. */
  lemma {:induction false} ScanAt(reps: seq<Rep>, live: set<nat>, lo: Lsn, upto: Lsn, i: nat, e: Lsn)
    requires i < |reps|
    ensures var r' := Scan(reps, live, lo, upto)[i];
      && OnlyJournal(reps[i], r')
      && (i !in live ==> r' == reps[i])
      && (i in live && lo <= e <= upto ==> e in r'.journal && r'.journal[e] == SettledEntry(reps, live, i, e))
      && (!(lo <= e <= upto) ==> Untouched(reps[i], r', e))
    decreases upto - lo + 1
  {
    if lo <= upto {
      SettleAt(reps, live, lo, i, e);
      ScanAt(SettleAll(reps, live, lo), live, lo + 1, upto, i, e);
      if lo < e <= upto { SettleLeavesOthers(reps, live, lo, e); }
    }
  }

  // ---------------------------------------------------------------- a whole round

  lemma RoundJournals(reps: seq<Rep>, live: set<nat>, upto: Lsn, pageSize: nat)
    requires Journals(reps, pageSize)
    ensures Journals(RunResolution(reps, live, upto, pageSize), pageSize)
  {
    var lo := ScanStart(reps, live);
    ScanKeepsJournals(reps, live, lo, upto, pageSize);
  }

  /** The effect of a round on one dLSN of one member. */
  lemma RoundAt(reps: seq<Rep>, live: set<nat>, upto: Lsn, pageSize: nat, i: nat, e: Lsn)
    requires Journals(reps, pageSize) && i < |reps|
    ensures var lo := ScanStart(reps, live);
      var r' := RunResolution(reps, live, upto, pageSize)[i];
      && r'.pageSize == reps[i].pageSize && r'.term == reps[i].term && r'.token == reps[i].token
      && (i !in live ==> r' == reps[i])
      && (i in live && lo <= e <= upto ==> e in r'.journal && r'.journal[e] == SettledEntry(reps, live, i, e))
      && (!(lo <= e <= upto) ==> Untouched(reps[i], r', e))
      && reps[i].commit <= r'.commit <= Max(reps[i].commit, upto)
      && reps[i].lastAppend <= r'.lastAppend
  {
    var lo := ScanStart(reps, live);
    ScanKeepsJournals(reps, live, lo, upto, pageSize);
    ScanAt(reps, live, lo, upto, i, e);
  }

  lemma RoundCommits(reps: seq<Rep>, live: set<nat>, upto: Lsn, pageSize: nat, i: nat)
    requires Journals(reps, pageSize) && LiveQuorum(reps, live)
    requires i < |reps| && i in live && PrefixPresent(reps[i])
    ensures RunResolution(reps, live, upto, pageSize)[i].commit >= upto
  {
    var lo := ScanStart(reps, live);
    ScanKeepsJournals(reps, live, lo, upto, pageSize);
    var m := Scan(reps, live, lo, upto)[i];
    var c := ApplyUpTo(m, upto).commit;
    ScanAt(reps, live, lo, upto, i, c + 1);
  }

  lemma RoundSettles(reps: seq<Rep>, live: set<nat>, upto: Lsn, pageSize: nat, i: nat, d: Lsn)
    requires Journals(reps, pageSize) && LiveQuorum(reps, live)
    requires i < |reps| && i in live && PrefixPresent(reps[i])
    ensures 0 <= d <= upto ==> d in RunResolution(reps, live, upto, pageSize)[i].journal
    ensures ScanStart(reps, live) <= d <= upto ==>
      IsEmptyAt(RunResolution(reps, live, upto, pageSize)[i], d) == VerdictEmpty(reps, live, d)
  {
    hide RunResolution, FirstHolder, Floor, Quorum;
    RoundAt(reps, live, upto, pageSize, i, d);
    HolderFound(reps, live, d);
  }

  ghost predicate Agree(a: Rep, b: Rep, lo: Lsn, upto: Lsn) {
    forall d :: lo <= d <= upto ==> IsEmptyAt(a, d) == IsEmptyAt(b, d)
  }

  /** Live members hold an entry for everything up to `upto`, have committed it and agree on Empty versus data. */
  ghost predicate GapClosed(reps: seq<Rep>, reps': seq<Rep>, live: set<nat>, upto: Lsn) {
    && |reps'| == |reps|
    && (forall i :: 0 <= i < |reps'| && i in live ==> reps'[i].commit >= upto)
    && (forall i, d :: 0 <= i < |reps'| && i in live && 0 <= d <= upto ==> d in reps'[i].journal)
    && (forall i, j :: 0 <= i < j < |reps'| && i in live && j in live ==>
          Agree(reps'[i], reps'[j], ScanStart(reps, live), upto))
    && (forall i :: 0 <= i < |reps'| && i !in live ==> reps'[i] == reps[i])
  }

  lemma LiveAgree(reps: seq<Rep>, reps': seq<Rep>, live: set<nat>, upto: Lsn, pageSize: nat, i: nat, j: nat)
    requires Journals(reps, pageSize) && LiveQuorum(reps, live)
    requires i < |reps| && j < |reps| && i in live && j in live && PrefixPresent(reps[i]) && PrefixPresent(reps[j])
    requires reps' == RunResolution(reps, live, upto, pageSize)
    ensures Agree(reps'[i], reps'[j], ScanStart(reps, live), upto)
  {
    forall d | ScanStart(reps, live) <= d <= upto ensures IsEmptyAt(reps'[i], d) == IsEmptyAt(reps'[j], d) {
      RoundSettles(reps, live, upto, pageSize, i, d);
      RoundSettles(reps, live, upto, pageSize, j, d);
    }
  }

  /**
   * A successful round closes the gap: every live member ends with an entry for each
   * dLSN up to `upto`, has committed through it, and agrees with every other live
   * member on Empty versus data wherever the scan looked; the others are left alone.
   */
  lemma RoundClosesGap(reps: seq<Rep>, reps': seq<Rep>, live: set<nat>, upto: Lsn, pageSize: nat)
    requires Journals(reps, pageSize) && LiveQuorum(reps, live)
    requires forall i :: 0 <= i < |reps| ==> PrefixPresent(reps[i])
    requires reps' == RunResolution(reps, live, upto, pageSize)
    ensures GapClosed(reps, reps', live, upto)
  {
    forall i | 0 <= i < |reps| && i in live ensures reps'[i].commit >= upto {
      RoundCommits(reps, live, upto, pageSize, i);
    }
    forall i, d | 0 <= i < |reps| && i in live && 0 <= d <= upto ensures d in reps'[i].journal {
      RoundSettles(reps, live, upto, pageSize, i, d);
    }
    forall i, j | 0 <= i < j < |reps| && i in live && j in live
      ensures Agree(reps'[i], reps'[j], ScanStart(reps, live), upto)
    {
      LiveAgree(reps, reps', live, upto, pageSize, i, j);
    }
    forall i | 0 <= i < |reps| && i !in live ensures reps'[i] == reps[i] {
      RoundAt(reps, live, upto, pageSize, i, 0);
    }
  }

  // ---------------------------------------------------------------- login

  /** The highest dLSN any live member below index `n` has appended, or -1. */
  function HighestAppend(reps: seq<Rep>, live: set<nat>, n: nat): (rs: Lsn)
    requires n <= |reps|
    ensures -1 <= rs && forall i :: 0 <= i < n && i in live ==> reps[i].lastAppend <= rs
    ensures rs == -1 || exists i :: 0 <= i < n && i in live && reps[i].lastAppend == rs
  {
    if n == 0 then -1 else
    var rs := HighestAppend(reps, live, n - 1);
    if n - 1 in live then Max(rs, reps[n - 1].lastAppend) else rs
  }

  /** rs_commit_lsn: what the login returns as its dLSN. */
  function LoginDlsn(reps: seq<Rep>, live: set<nat>): (rs: Lsn) {
    HighestAppend(reps, live, |reps|)
  }

  /** Apply, adopt the new session, drop a tail above `rs`. */
  function LoginOne(r: Rep, rs: Lsn, token: nat, term: nat): (r': Rep)
    requires JournalOk(r.pageSize, r.journal)
  {
    var a := ApplyLogin(ApplyUpTo(r, rs), token, term);
    if a.lastAppend > rs then TruncateAbove(a, rs) else a
  }

  /** run_login's effect on the replicas. */
  function RunLogin(reps: seq<Rep>, live: set<nat>, token: nat, term: nat): (reps': seq<Rep>)
    requires forall i :: 0 <= i < |reps| ==> JournalOk(reps[i].pageSize, reps[i].journal)
    ensures |reps'| == |reps|
    ensures forall i :: 0 <= i < |reps| ==>
      reps'[i] == if i in live then LoginOne(reps[i], LoginDlsn(reps, live), token, term) else reps[i]
  {
    seq(|reps|, i requires 0 <= i < |reps| =>
      if i in live then LoginOne(reps[i], LoginDlsn(reps, live), token, term) else reps[i])
  }

  /** run_logout's effect on the replicas. */
  function LogOutAll(reps: seq<Rep>, live: set<nat>): (reps': seq<Rep>)
    ensures |reps'| == |reps|
    ensures forall i :: 0 <= i < |reps| ==> reps'[i] == if i in live then ApplyLogout(reps[i]) else reps[i]
  {
    seq(|reps|, i requires 0 <= i < |reps| => if i in live then ApplyLogout(reps[i]) else reps[i])
  }
}
