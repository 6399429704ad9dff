/** When a login over the whole replica set starts a session with everything it needs. */
module FreshSession {
  import opened CraftTypes
  import opened Replica
  import opened Tracker
  import opened Router
  import opened Cluster
  import opened Protocol
  import opened Runs

  /** A replica as the previous sessions leave it: its append mark covers its journal. */
  ghost predicate Marked(r: Rep, pageSize: nat) {
    RepInv(r) && r.pageSize == pageSize && -1 <= r.lastAppend && forall d :: d in r.journal ==> 0 <= d <= r.lastAppend
  }

  ghost predicate AllMarked(reps: seq<Rep>, pageSize: nat) {
    |reps| > 0 && forall i :: 0 <= i < |reps| ==> Marked(reps[i], pageSize)
  }

  /** Where two members have an entry for the same dLSN it is the same. */
  ghost predicate Agreeing(reps: seq<Rep>) {
    forall i, j, d :: 0 <= i < |reps| && 0 <= j < |reps| && d in reps[i].journal && d in reps[j].journal ==>
      reps[i].journal[d] == reps[j].journal[d]
  }

  /** The member has every dLSN up to `top`. */
  ghost predicate Whole(r: Rep, top: Lsn) {
    forall d :: 0 <= d <= top ==> d in r.journal
  }

  /** The client and the replicas right after a login that reached every member. */
  ghost function LoggedInState(reps: seq<Rep>, pageSize: nat, token: nat, term: nat, base: Journal, anchor: nat): State
    requires AllMarked(reps, pageSize)
  {
    var all := Members(|reps|);
    var top := LoginDlsn(reps, all);
    State(pageSize, term, base, anchor, ResetAt(top), Reset(|reps|, top), RunLogin(reps, all, token, term),
          map[], map[], map[])
  }

  /** What the login leaves of one member: its journal, and a committed prefix as long as it has entries. */
  ghost predicate Kept(r: Rep, r': Rep, pageSize: nat, term: nat, top: Lsn) {
    && RepInv(r') && r'.pageSize == pageSize && r'.term == term && r'.journal == r.journal && r'.commit <= top
    && (r'.commit == top <==> Whole(r, top)) && (forall d :: d in r'.journal ==> 0 <= d <= top)
  }

  lemma LoginKeeps(reps: seq<Rep>, pageSize: nat, token: nat, term: nat, i: nat)
    requires AllMarked(reps, pageSize) && i < |reps|
    ensures var s := LoggedInState(reps, pageSize, token, term, map[], 0);
      |s.reps| == |reps| && Kept(reps[i], s.reps[i], pageSize, term, s.trk.base) && pageSize > 0 && -1 <= s.trk.base
  {
    var top := LoginDlsn(reps, Members(|reps|));
    assert Marked(reps[i], pageSize) && i in Members(|reps|);
    LoginOneKeeps(reps[i], pageSize, token, term, top);
    hide Kept, Marked, LoginOne;
  }

  lemma LoginOneKeeps(r: Rep, pageSize: nat, token: nat, term: nat, top: Lsn)
    requires Marked(r, pageSize) && -1 <= top && r.lastAppend <= top
    ensures Kept(r, LoginOne(r, top, token, term), pageSize, term, top) && pageSize > 0
  {
    ApplyKeepsInv(r, top);
    assert r.commit <= Max(-1, r.lastAppend);
  }

  ghost predicate AllKept(reps: seq<Rep>, s: State, pageSize: nat, term: nat) {
    && |s.reps| == |reps| && pageSize > 0 && s.pageSize == pageSize && s.term == term && -1 <= s.trk.base
    && s.trk == ResetAt(s.trk.base) && s.route == Reset(|s.reps|, s.trk.base)
    && s.writes == map[] && s.legs == map[] && s.founders == map[]
    && forall i :: 0 <= i < |reps| ==> Kept(reps[i], s.reps[i], pageSize, term, s.trk.base)
  }

  lemma LoginKeepsAll(reps: seq<Rep>, pageSize: nat, token: nat, term: nat, base: Journal, anchor: nat)
    requires AllMarked(reps, pageSize)
    ensures AllKept(reps, LoggedInState(reps, pageSize, token, term, base, anchor), pageSize, term)
  {
    var s := LoggedInState(reps, pageSize, token, term, base, anchor);
    hide Kept, AllMarked;
    assert |reps| > 0 by { SomeReplica(reps, pageSize); }
    forall i | 0 <= i < |reps| ensures Kept(reps[i], s.reps[i], pageSize, term, s.trk.base) {
      LoginKeeps(reps, pageSize, token, term, i);
    }
    LoginKeeps(reps, pageSize, token, term, 0);
  }

  lemma SomeReplica(reps: seq<Rep>, pageSize: nat)
    requires AllMarked(reps, pageSize)
    ensures |reps| > 0
  {
  }

  lemma WholeIsFresh(reps: seq<Rep>, s: State, pageSize: nat, term: nat, a: nat)
    requires AllKept(reps, s, pageSize, term) && a < |reps| && s.base == reps[a].journal && s.anchor == a
    requires Agreeing(reps) && Whole(reps[a], s.trk.base)
    ensures FreshLogin(s)
  {
    hide RepInv;
    forall i | 0 <= i < |s.reps| ensures FreshMember(s, s.reps[i]) {
      assert Kept(reps[i], s.reps[i], pageSize, term, s.trk.base);
    }
    assert Kept(reps[a], s.reps[a], pageSize, term, s.trk.base);
  }

  lemma FreshIsWhole(reps: seq<Rep>, s: State, pageSize: nat, term: nat)
    requires AllKept(reps, s, pageSize, term) && FreshLogin(s)
    ensures Agreeing(reps) && s.anchor < |reps| && Whole(reps[s.anchor], s.trk.base)
  {
    hide RepInv;
    assert Kept(reps[s.anchor], s.reps[s.anchor], pageSize, term, s.trk.base);
    forall i, j, d | 0 <= i < |reps| && 0 <= j < |reps| && d in reps[i].journal && d in reps[j].journal
      ensures reps[i].journal[d] == reps[j].journal[d]
    {
      assert Kept(reps[i], s.reps[i], pageSize, term, s.trk.base);
      assert Kept(reps[j], s.reps[j], pageSize, term, s.trk.base);
      assert FreshMember(s, s.reps[i]) && FreshMember(s, s.reps[j]);
    }
  }

  /** Some member has no hole up to the dLSN the login returns. */
  ghost predicate SomeWhole(reps: seq<Rep>) {
    exists a :: 0 <= a < |reps| && Whole(reps[a], LoginDlsn(reps, Members(|reps|)))
  }

  /**
   * A login that reaches every member starts a fresh session, for some agreed content and
   * some member that holds all of it, if and only if the members agree wherever two have an
   * entry and one of them has no hole below the dLSN the login returns.
   */
  lemma LoginIsFreshExactly(reps: seq<Rep>, pageSize: nat, token: nat, term: nat)
    requires AllMarked(reps, pageSize)
    ensures (exists base, anchor :: FreshLogin(LoggedInState(reps, pageSize, token, term, base, anchor))) <==>
            Agreeing(reps) && SomeWhole(reps)
  {
    hide AllMarked, AllKept, FreshLogin, Agreeing, Whole, RunLogin;
    if Agreeing(reps) && SomeWhole(reps) {
      var a: nat :| a < |reps| && Whole(reps[a], LoginDlsn(reps, Members(|reps|)));
      var s := LoggedInState(reps, pageSize, token, term, reps[a].journal, a);
      LoginKeepsAll(reps, pageSize, token, term, reps[a].journal, a);
      WholeIsFresh(reps, s, pageSize, term, a);
    }
    if base, anchor :| FreshLogin(LoggedInState(reps, pageSize, token, term, base, anchor)) {
      LoginKeepsAll(reps, pageSize, token, term, base, anchor);
      FreshIsWhole(reps, LoggedInState(reps, pageSize, token, term, base, anchor), pageSize, term);
    }
  }
}
