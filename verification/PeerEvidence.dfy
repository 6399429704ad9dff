/** Resolution from peer evidence: which dLSNs are missing here, and what the peers' journals say about them. */
module PeerEvidence {
  import opened CraftTypes
  import opened Replica
  import opened MemReplicas

  /** The dLSNs in [lo, hi] without an entry, ascending. */
  function Missing(j: Journal, lo: Lsn, hi: Lsn): (s: seq<Lsn>)
    decreases hi - lo + 1
  {
    if lo > hi then [] else (if lo in j then [] else [lo]) + Missing(j, lo + 1, hi)
  }

  /** Exactly the absent dLSNs, each once, in order. */
  lemma {:induction false} MissingExact(j: Journal, lo: Lsn, hi: Lsn)
    ensures forall d :: d in Missing(j, lo, hi) <==> lo <= d <= hi && d !in j
    ensures Ascending(Missing(j, lo, hi))
    decreases hi - lo + 1
  {
    if lo <= hi {
      MissingExact(j, lo + 1, hi);
      var rest := Missing(j, lo + 1, hi);
      assert forall k :: 0 <= k < |rest| ==> rest[k] in rest;
    }
  }

  lemma {:induction false} MissingSplit(j: Journal, lo: Lsn, mid: Lsn, hi: Lsn)
    requires lo <= mid <= hi + 1
    ensures Missing(j, lo, hi) == Missing(j, lo, mid - 1) + Missing(j, mid, hi)
    decreases mid - lo
  {
    if lo < mid { MissingSplit(j, lo + 1, mid, hi); }
  }

  /** A stretch of absent dLSNs, listed one by one. */
  method ListGap(j: Journal, from: Lsn, to: Lsn) returns (gap: seq<Lsn>)
    requires from <= to && forall d :: from <= d < to ==> d !in j
    ensures gap == Missing(j, from, to - 1)
  {
    gap := [];
    var d := from;
    while d < to
      invariant from <= d <= to && gap + Missing(j, d, to - 1) == Missing(j, from, to - 1)
    {
      gap := gap + [d];
      d := d + 1;
    }
  }

  /** The first present entry at or above `d` and not above `hi`, or `hi + 1`. */
  function NextPresent(j: Journal, d: Lsn, hi: Lsn): (e: Lsn)
    requires d <= hi + 1
    ensures d <= e <= hi + 1 && (e <= hi ==> e in j) && forall k :: d <= k < e ==> k !in j
    decreases hi - d + 1
  {
    if d > hi || d in j then d else NextPresent(j, d + 1, hi)
  }

  /** get_missing_slots(): hop from present entry to present entry, listing the gaps between them. */
  method GetMissingSlots(r: MemReplica, watermark: Lsn) returns (missing: seq<Lsn>)
    ensures missing == Missing(r.journal, r.commit + 1, watermark)
  {
    missing := [];
    var at := r.commit + 1;
    while at <= watermark
      invariant r.commit + 1 <= at
      invariant missing + Missing(r.journal, at, watermark) == Missing(r.journal, r.commit + 1, watermark)
      decreases watermark - at + 1
    {
      var e := NextPresent(r.journal, at, watermark);
      var gap := ListGap(r.journal, at, e);
      MissingSplit(r.journal, at, e, watermark);
      missing := missing + gap;
      at := e + 1;
    }
  }

  // ---------------------------------------------------------------- deciding one dLSN

  /** A peer's answer: the entries it has among those asked for. */
  type Answer = map<Lsn, Slot>

  predicate HasData(a: Answer, d: Lsn) {
    d in a && a[d].WriteSlot?
  }

  /** The first answer that holds `d` as data, from `k` on. */
  function FirstData(answers: seq<Answer>, d: Lsn, k: nat): (i: nat)
    requires k <= |answers|
    ensures k <= i <= |answers| && (i < |answers| ==> HasData(answers[i], d))
    ensures forall j :: k <= j < i ==> !HasData(answers[j], d)
    decreases |answers| - k
  {
    if k == |answers| || HasData(answers[k], d) then k else FirstData(answers, d, k + 1)
  }

  predicate Found(answers: seq<Answer>, d: Lsn) {
    FirstData(answers, d, 0) < |answers|
  }

  /** Enough members lack `d`: this one, and every answer before the first that holds it. */
  predicate Listed(answers: seq<Answer>, members: nat, d: Lsn) {
    1 + FirstData(answers, d, 0) >= Quorum(members)
  }

  predicate Undecided(answers: seq<Answer>, members: nat, d: Lsn) {
    !Listed(answers, members, d) && !Found(answers, d)
  }

  /** Look through the answers for one dLSN, stopping at the first that holds it. */
  method Weigh(answers: seq<Answer>, members: nat, d: Lsn) returns (empty: bool, data: Option<Slot>)
    ensures empty == Listed(answers, members, d)
    ensures data.Some? <==> Found(answers, d)
    ensures data.Some? ==> data.value == answers[FirstData(answers, d, 0)][d]
  {
    data := None;
    var lacks, k := 1, 0;
    while k < |answers| && data.None?
      invariant 0 <= k <= |answers|
      invariant data.None? ==> lacks == 1 + k && FirstData(answers, d, k) == FirstData(answers, d, 0)
      invariant data.Some? ==> lacks == 1 + FirstData(answers, d, 0) && Found(answers, d)
      invariant data.Some? ==> data.value == answers[FirstData(answers, d, 0)][d]
    {
      if HasData(answers[k], d) { data := Some(answers[k][d]); } else { lacks := lacks + 1; }
      k := k + 1;
    }
    empty := lacks >= Quorum(members);
  }

  // ---------------------------------------------------------------- the whole pass

  function ListedOf(answers: seq<Answer>, members: nat, ds: seq<Lsn>): seq<Lsn> {
    if ds == [] then []
    else ListedOf(answers, members, ds[..|ds| - 1])
         + (if Listed(answers, members, ds[|ds| - 1]) then [ds[|ds| - 1]] else [])
  }

  lemma {:induction false} ListedExact(answers: seq<Answer>, members: nat, ds: seq<Lsn>)
    ensures forall d :: d in ListedOf(answers, members, ds) <==> d in ds && Listed(answers, members, d)
  {
    hide Listed;
    if ds != [] { ListedExact(answers, members, ds[..|ds| - 1]); }
  }

  /** What the pass leaves of the journal: every found dLSN installed. */
  function Installed(r: Rep, answers: seq<Answer>, ds: seq<Lsn>): Rep {
    if ds == [] then r
    else
      var q, d := Installed(r, answers, ds[..|ds| - 1]), ds[|ds| - 1];
      if Found(answers, d) then InstallSlot(q, d, answers[FirstData(answers, d, 0)][d]) else q
  }

  /** -1 when every dLSN was decided, otherwise the least undecided one. */
  ghost predicate StallIs(answers: seq<Answer>, members: nat, ds: seq<Lsn>, stalled: Lsn) {
    if stalled == -1 then forall k :: 0 <= k < |ds| ==> !Undecided(answers, members, ds[k])
    else stalled in ds && Undecided(answers, members, stalled)
         && forall k :: 0 <= k < |ds| && Undecided(answers, members, ds[k]) ==> stalled <= ds[k]
  }

  /** One more dLSN of the pass. */
  lemma PassStep(r: Rep, answers: seq<Answer>, members: nat, ds: seq<Lsn>, k: nat, stalled: Lsn)
    requires k < |ds| && ds[k] != -1 && StallIs(answers, members, ds[..k], stalled)
    ensures var d := ds[k];
      && ListedOf(answers, members, ds[..k + 1]) ==
           ListedOf(answers, members, ds[..k]) + (if Listed(answers, members, d) then [d] else [])
      && Installed(r, answers, ds[..k + 1]) ==
           (var q := Installed(r, answers, ds[..k]);
            if Found(answers, d) then InstallSlot(q, d, answers[FirstData(answers, d, 0)][d]) else q)
      && StallIs(answers, members, ds[..k + 1],
           if Listed(answers, members, d) || Found(answers, d) then stalled
           else if stalled == -1 then d else Min(d, stalled))
  {
    hide Listed, Found, FirstData;
    assert ds[..k + 1][..k] == ds[..k] && ds[..k + 1] == ds[..k] + [ds[k]];
  }

  lemma PassStart(r: Rep, answers: seq<Answer>, members: nat, ds: seq<Lsn>)
    ensures ListedOf(answers, members, ds[..0]) == [] && Installed(r, answers, ds[..0]) == r
    ensures StallIs(answers, members, ds[..0], -1)
  {
  }

  lemma NonNegative(j: Journal, lo: Lsn, hi: Lsn, k: nat)
    requires 0 <= lo && k < |Missing(j, lo, hi)|
    ensures Missing(j, lo, hi)[k] != -1
  {
    MissingExact(j, lo, hi);
    assert Missing(j, lo, hi)[k] in Missing(j, lo, hi);
  }

  /** resolve_and_apply(): install what a peer holds, list what enough members lack, report the least undecided. */
  method ResolveAndApply(r: MemReplica, answers: seq<Answer>, members: nat, watermark: Lsn)
    returns (empties: seq<Lsn>, stalled: Lsn)
    requires -1 <= r.commit
    modifies r
    ensures var ds := Missing(old(r.journal), old(r.commit) + 1, watermark);
      && empties == ListedOf(answers, members, ds)
      && r.View() == Installed(old(r.View()), answers, ds)
      && StallIs(answers, members, ds, stalled)
  {
    hide *;
    var ds := GetMissingSlots(r, watermark);
    empties, stalled := [], -1;
    PassStart(r.View(), answers, members, ds);
    for k := 0 to |ds|
      invariant empties == ListedOf(answers, members, ds[..k])
      invariant r.View() == Installed(old(r.View()), answers, ds[..k])
      invariant StallIs(answers, members, ds[..k], stalled)
    {
      var d := ds[k];
      NonNegative(old(r.journal), old(r.commit) + 1, watermark, k);
      PassStep(old(r.View()), answers, members, ds, k, stalled);
      var empty, data := Weigh(answers, members, d);
      if data.Some? { r.InstallSlot(d, data.value); }
      if empty {
        empties := empties + [d];
      } else if data.None? {
        stalled := if stalled == -1 then d else Min(d, stalled);
      }
    }
    assert ds[..|ds|] == ds;
  }

  // ---------------------------------------------------------------- what the evidence proves

  /** The answers come from distinct members other than this one, each telling the truth about `d`. */
  ghost predicate Honest(journals: seq<Journal>, self: nat, answers: seq<Answer>, peers: seq<nat>, d: Lsn) {
    && self < |journals| && d !in journals[self] && |peers| == |answers|
    && (forall k :: 0 <= k < |peers| ==> peers[k] < |journals| && peers[k] != self)
    && (forall j, k :: 0 <= j < k < |peers| ==> peers[j] != peers[k])
    && (forall k :: 0 <= k < |peers| ==> (HasData(answers[k], d) <==> HasData(journals[peers[k]], d)))
  }

  function HoldersOf(journals: seq<Journal>, d: Lsn): (h: set<nat>)
    ensures forall i :: i in h <==> 0 <= i < |journals| && HasData(journals[i], d)
  {
    set i | i in Members(|journals|) && HasData(journals[i], d)
  }

  /** The first `n` peers. */
  function PeersTo(peers: seq<nat>, n: nat): (s: set<nat>)
    requires n <= |peers|
    ensures forall i :: i in s <==> exists k :: 0 <= k < n && peers[k] == i
  {
    if n == 0 then {} else PeersTo(peers, n - 1) + {peers[n - 1]}
  }

  lemma PeerNext(peers: seq<nat>, n: nat)
    requires n < |peers| && forall j, k :: 0 <= j < k < |peers| ==> peers[j] != peers[k]
    ensures PeersTo(peers, n + 1) == PeersTo(peers, n) + {peers[n]} && peers[n] !in PeersTo(peers, n)
  {
  }

  lemma {:induction false} PeersCount(peers: seq<nat>, n: nat)
    requires n <= |peers| && forall j, k :: 0 <= j < k < |peers| ==> peers[j] != peers[k]
    ensures |PeersTo(peers, n)| == n
  {
    if n == 0 {
      assert PeersTo(peers, 0) == {};
    } else {
      PeerNext(peers, n - 1);
      hide PeersTo;
      PeersCount(peers, n - 1);
    }
  }

  lemma LackerIs(journals: seq<Journal>, self: nat, answers: seq<Answer>, peers: seq<nat>, d: Lsn, n: nat, i: nat)
    requires Honest(journals, self, answers, peers, d) && n <= |answers| && LacksBefore(answers, d, n)
    requires i in PeersTo(peers, n)
    ensures i in Members(|journals|) - HoldersOf(journals, d)
  {
    var k :| 0 <= k < n && peers[k] == i;
    assert !HasData(answers[k], d);
  }

  /** This member and the first `n` answerers lack `d`. */
  lemma LackersCounted(journals: seq<Journal>, self: nat, answers: seq<Answer>, peers: seq<nat>, d: Lsn, n: nat)
    requires Honest(journals, self, answers, peers, d) && n <= |answers| && LacksBefore(answers, d, n)
    ensures n + 1 <= |Members(|journals|) - HoldersOf(journals, d)|
  {
    var lacking := PeersTo(peers, n) + {self};
    forall i | i in lacking ensures i in Members(|journals|) - HoldersOf(journals, d) {
      if i != self { LackerIs(journals, self, answers, peers, d, n, i); }
    }
    assert self !in PeersTo(peers, n);
    PeersCount(peers, n);
    hide *;
    SubsetSize(lacking, Members(|journals|) - HoldersOf(journals, d));
  }

  lemma Complement(n: nat, s: set<nat>)
    requires s <= Members(n)
    ensures |Members(n) - s| == n - |s|
  {
    assert Members(n) == s + (Members(n) - s);
  }

  /** A dLSN held as data by a majority of the members is never listed as Empty. */
  lemma MajorityNeverListed(journals: seq<Journal>, self: nat, answers: seq<Answer>, peers: seq<nat>, d: Lsn)
    requires Honest(journals, self, answers, peers, d)
    requires |HoldersOf(journals, d)| >= Quorum(|journals|)
    ensures !Listed(answers, |journals|, d)
  {
    hide Honest;
    LackersCounted(journals, self, answers, peers, d, FirstData(answers, d, 0));
    Complement(|journals|, HoldersOf(journals, d));
  }

  /** What the pass leaves in the journal. */
  lemma {:induction false} InstalledAt(r: Rep, answers: seq<Answer>, ds: seq<Lsn>, d: Lsn)
    ensures d in Installed(r, answers, ds).journal <==> d in r.journal || (d in ds && Found(answers, d))
  {
    hide Found, FirstData;
    if ds != [] { InstalledAt(r, answers, ds[..|ds| - 1], d); }
  }

  /** Enough answers that lack `d` came before one that holds it. */
  ghost predicate HeldTooLate(answers: seq<Answer>, members: nat, d: Lsn) {
    exists k :: Quorum(members) - 1 <= k < |answers| && HasData(answers[k], d) && LacksBefore(answers, d, k)
  }

  /**
   * One pass can leave a dLSN both in the journal and in the list of Empties. That happens
   * exactly to the missing dLSNs that some answer holds and that enough answers before it
   * lack: the count is not looked at until the data turns up.
   */
  lemma InstalledAndListed(r: Rep, answers: seq<Answer>, members: nat, watermark: Lsn, d: Lsn)
    ensures var ds := Missing(r.journal, r.commit + 1, watermark);
      d in ListedOf(answers, members, ds) && d in Installed(r, answers, ds).journal <==>
        d in ds && HeldTooLate(answers, members, d)
  {
    var ds, n := Missing(r.journal, r.commit + 1, watermark), FirstData(answers, d, 0);
    MissingExact(r.journal, r.commit + 1, watermark);
    ListedExact(answers, members, ds);
    InstalledAt(r, answers, ds, d);
    if n < |answers| && 1 + n >= Quorum(members) { assert LacksBefore(answers, d, n); }
  }

  predicate LacksBefore(answers: seq<Answer>, d: Lsn, k: nat)
    requires k <= |answers|
  {
    forall j :: 0 <= j < k ==> !HasData(answers[j], d)
  }

  /** Three members, the first to answer lacks dLSN 0 and the second holds it: the pass installs it and lists it. */
  lemma InstalledAndListedHappens(r: Rep, s: Slot)
    requires s.WriteSlot? && r.journal == map[] && r.commit == -1
    ensures var answers: seq<Answer> := [map[], map[0 := s]];
      var ds := Missing(r.journal, r.commit + 1, 0);
      0 in ListedOf(answers, 3, ds) && 0 in Installed(r, answers, ds).journal
  {
    var answers: seq<Answer> := [map[], map[0 := s]];
    assert !HasData(answers[0], 0) && HasData(answers[1], 0);
    assert LacksBefore(answers, 0, 1);
    MissingExact(r.journal, 0, 0);
    InstalledAndListed(r, answers, 3, 0, 0);
  }
}
