/** Small definitions shared by every module. */
module Common {

  datatype Option<+T> = None | Some(value: T) {
    predicate IsFailure() {
      None?
    }

    function PropagateFailure<U>(): Option<U>
      requires None?
    {
      None
    }

    function Extract(): T
      requires Some?
    {
      value
    }
  }

  /** quorumSize: the number of nodes in a quorum of a cluster of `n` nodes; division truncates. */
  function QuorumSize(n: int): int {
    (if n < 0 then -(-n / 2) else n / 2) + 1
  }

  /** A quorum is the smallest majority. */
  lemma QuorumIsMajority(n: nat, k: nat)
    ensures k >= QuorumSize(n) <==> 2 * k > n
  {
  }

  /** Two quorums of the same cluster meet: sets of at least `q` elements of a set of fewer than `2 * q`. */
  lemma QuorumsMeet<T>(all: set<T>, a: set<T>, b: set<T>, q: nat) returns (x: T)
    requires a <= all && b <= all
    requires |all| < 2 * q && q <= |a| && q <= |b|
    ensures x in a && x in b
  {
    SubsetSize(a + b, all);
    assert |a + b| == |a| + |b| - |a * b|;
    x :| x in a * b;
  }

  lemma SubsetSize<T>(a: set<T>, b: set<T>)
    requires a <= b
    ensures |a| <= |b|
    ensures |a| == |b| ==> a == b
  {
    assert b == a + (b - a);
    assert |b| == |a| + |b - a|;
    if |a| == |b| {
      assert b - a == {};
    }
  }

  lemma AnyOf<T>(s: set<T>) returns (x: T)
    requires s != {}
    ensures x in s
  {
    x :| x in s;
  }
}
