/** A resolution round together with the client's retire of its reply. */
module RoundClosure {
  import opened CraftTypes
  import opened Replica
  import opened Tracker
  import opened Cluster
  import opened Protocol
  import opened Exclusion
  import opened ExclusionSteps
  import opened Watermarks

  /** A formerly unresolved slot is Empty exactly when the reply lists it and acked otherwise; the rest is untouched. */
  ghost predicate RetiredBy(t: Trk, t': Trk, upto: Lsn, empties: set<Lsn>) {
    && t'.slots.Keys == t.slots.Keys
    && forall d :: d in t.slots ==> RetiredSlot(t, t', upto, empties, d)
  }

  ghost predicate RetiredSlot(t: Trk, t': Trk, upto: Lsn, empties: set<Lsn>, d: Lsn)
    requires d in t.slots && d in t'.slots
  {
    && (d > upto || ResolvedAt(t, d) ==> t'.slots[d] == t.slots[d])
    && (d <= upto && !ResolvedAt(t, d) ==> VoidAt(t', d) == (d in empties) && AckedAt(t', d) == (d !in empties))
  }

  /**
   * After a round `upto` and the retire of its reply the gap is closed on every live
   * member, every visible slot up to `upto` is resolved as the reply says, and the
   * frontier covers `upto` exactly when no counted dLSN was still unpublished.
   */
  lemma RoundResolvesAll(s: State, live: set<nat>, leader: nat, upto: Lsn)
    requires Linked(s) && Enabled(s, Round(live, leader, upto))
    ensures var s' := Next(s, Round(live, leader, upto));
      && GapClosed(s.reps, s'.reps, live, upto)
      && RetiredBy(s.trk, s'.trk, upto, Empties(s'.reps[leader], upto))
      && (s'.trk.frontier >= upto <==> !Straddles(s.trk, upto))
  {
    var reps := RunResolution(s.reps, live, upto, s.pageSize);
    RoundClosesGap(s.reps, reps, live, upto, s.pageSize);
    ReplyRetired(s, reps, AddFounders(s, live, upto), leader, upto);
  }

  lemma ReplyRetired(s: State, reps: seq<Rep>, founders: map<Lsn, set<nat>>, leader: nat, upto: Lsn)
    requires TrkInv(s.trk) && leader < |reps| && upto < s.trk.next
    ensures var s' := ApplyReply(s, reps, founders, leader, upto);
      && RetiredBy(s.trk, s'.trk, upto, Empties(reps[leader], upto))
      && (s'.trk.frontier >= upto <==> !Straddles(s.trk, upto))
  {
    var empties := Empties(reps[leader], upto);
    var t' := Retire(s.trk, s.trk.frontier + 1, upto, empties);
    RetireExact(s.trk, s.trk.frontier + 1, upto, empties);
    RetireReaches(s.trk, upto, empties);
    hide NoteAll, Retire, Empties;
    forall d | d in s.trk.slots ensures RetiredSlot(s.trk, t', upto, empties, d) {
      if d <= s.trk.frontier { FrontierResolved(s.trk, d); }
    }
  }
}
