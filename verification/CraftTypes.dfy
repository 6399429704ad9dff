/** Types shared by every part of the model. */
module CraftTypes {

  /** A data LSN. The first write of a fresh volume has dLSN 0; -1 means "none yet". */
  type Lsn = int

  /** One byte as it travels on the wire and rests in a journal slot. */
  type u8 = bv8

  datatype Option<+T> = None | Some(value: T)

  datatype Result<+T, +E> = Ok(value: T) | Err(error: E)

  datatype CraftError =
    | StaleTerm
    | NotLeader
    | NoQuorum
    | NotEligible
    | ReplicaDown
    | InvalidArgument
    | TimedOut

  /** The watermarks a replica piggybacks on every reply. */
  datatype LsnPair = LsnPair(commitLsn: Lsn, lastAppendLsn: Lsn)

  function Max(a: int, b: int): (m: int)
    ensures m >= a && m >= b && (m == a || m == b)
  {
    if a >= b then a else b
  }

  function Min(a: int, b: int): (m: int)
    ensures m <= a && m <= b && (m == a || m == b)
  {
    if a <= b then a else b
  }

  /** The majority of a set of `n` members. */
  function Quorum(n: nat): (q: nat)
    ensures n < 2 * q && (n > 0 ==> q <= n)
  {
    n / 2 + 1
  }

  /** The addresses `[start, start + len)`. */
  function Span(start: nat, len: nat): (r: set<nat>)
    ensures forall x :: x in r <==> start <= x < start + len
    ensures |r| == len
  {
    if len == 0 then {} else Span(start, len - 1) + {start + len - 1}
  }

  /** The member indexes of a set of `n` replicas (the source's all-ones bitset). */
  function Members(n: nat): (m: set<nat>)
    ensures forall i :: i in m <==> 0 <= i < n
    ensures |m| == n
  {
    Span(0, n)
  }

  /** Two byte ranges share a byte, when neither is empty. */
  predicate Overlaps(a0: nat, l0: nat, a1: nat, l1: nat) {
    a0 < a1 + l1 && a1 < a0 + l0
  }

  /** The dLSNs from `lo` to `hi`. */
  function LsnRange(lo: Lsn, hi: Lsn): (r: set<Lsn>)
    ensures forall d :: d in r <==> lo <= d <= hi
    decreases hi - lo + 1
  {
    if lo > hi then {} else LsnRange(lo, hi - 1) + {hi}
  }

  lemma SubsetSize<T>(a: set<T>, b: set<T>)
    requires a <= b
    ensures |a| <= |b|
  {
    assert b == a + (b - a);
  }

  /** Two majorities of the same member set share a member. */
  lemma QuorumsIntersect(n: nat, a: set<nat>, b: set<nat>) returns (i: nat)
    requires a <= Members(n) && b <= Members(n)
    requires |a| >= Quorum(n) && |b| >= Quorum(n)
    ensures i in a && i in b
  {
    if a * b == {} {
      assert |a + b| == |a| + |b|;
      SubsetSize(a + b, Members(n));
      assert false;
    }
    i :| i in a * b;
  }

  predicate IsLeast(s: set<Lsn>, d: Lsn) {
    d in s && forall e :: e in s ==> d <= e
  }

  lemma SomeMember(s: set<Lsn>)
    ensures s == {} || exists x :: x in s
  {
    if forall x :: x !in s { assert s == {}; }
  }

  lemma {:induction false} Least(s: set<Lsn>) returns (m: Lsn)
    requires s != {}
    ensures IsLeast(s, m)
  {
    SomeMember(s);
    m :| m in s;
    var rest := s - {m};
    if rest == {} {
      assert s == {m};
    } else {
      var d := Least(rest);
      forall e | e in s ensures Min(d, m) <= e { assert e == m || e in rest; }
      m := Min(d, m);
    }
  }
}
