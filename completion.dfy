/**
 * Why `|currencies|` sweeps of the triple loop suffice
 * (api/models/rates.py:222-240): afterwards, whenever a→b and b→c are known
 * for pairwise-distinct registered a, b, c, a→c is known too.
 *
 * For a fixed a, the set of currencies a already reaches can only grow from
 * one sweep to the next, and it holds at most as many currencies as the
 * registry; so within `|cs|` sweeps there is one that leaves it unchanged.
 * Such a set reaches nothing outside itself, and no later sweep can make it
 * reach further, because every write joins two currencies that a known rate
 * already connects through a third.
 */
module Completion {
  import opened RateTable
  import opened Sequences

  /** The registered currencies that `a` converts to with a known rate, and `a` itself. */
  ghost function Reach(t: Table, cs: seq<string>, a: string): set<string>
  {
    set x | x in cs && (x == a || Get(t, a, x) > 0.0)
  }

  lemma ReachGrows(t: Table, u: Table, cs: seq<string>, a: string)
    requires Extends(t, u)
    ensures Reach(t, cs, a) <= Reach(u, cs, a)
  {
  }

  lemma SubsetCard(A: set<string>, B: set<string>)
    requires A <= B
    ensures |A| <= |B| && (A != B ==> |A| < |B|)
  {
    assert B == A + (B - A);
    if A != B {
      var x :| x in B - A;
    }
  }

  /** A reach set holds registered currencies only, so no more than the registry has positions. */
  lemma ReachBounded(t: Table, cs: seq<string>, a: string)
    ensures |Reach(t, cs, a)| <= |cs|
  {
    SubsetCard(Reach(t, cs, a), set x | x in cs);
    CardOfElements(cs);
  }

  /** The reach set after sweep `p` is contained in the one after sweep `p + 1`. */
  lemma ReachGrowsPerSweep(t: Table, cs: seq<string>, a: string, p: nat)
    requires WellFormed(t, cs)
    ensures Reach(Passes(t, cs, p), cs, a) <= Reach(Passes(t, cs, p + 1), cs, a)
  {
    PassesExtend(t, cs, p, p + 1);
    ReachGrows(Passes(t, cs, p), Passes(t, cs, p + 1), cs, a);
  }

  /**
   * If the reach set of `a` has grown at every sweep before `p`, some sweep
   * at or after `p` and before `|cs|` leaves it unchanged.
   */
  lemma {:induction false} StableSweep(t: Table, cs: seq<string>, a: string, p: nat) returns (q: nat)
    requires WellFormed(t, cs) && p <= |cs|
    requires |Reach(Passes(t, cs, p), cs, a)| >= p + 1
    ensures p <= q < |cs|
    ensures Reach(Passes(t, cs, q), cs, a) == Reach(Passes(t, cs, q + 1), cs, a)
    decreases |cs| - p
  {
    var now := Reach(Passes(t, cs, p), cs, a);
    var next := Reach(Passes(t, cs, p + 1), cs, a);
    ReachBounded(Passes(t, cs, p), cs, a);
    ReachBounded(Passes(t, cs, p + 1), cs, a);
    ReachGrowsPerSweep(t, cs, a, p);
    if now == next {
      q := p;
    } else {
      SubsetCard(now, next);
      q := StableSweep(t, cs, a, p + 1);
    }
  }

  /** A reach set that one sweep leaves unchanged reaches nothing outside itself. */
  lemma StableReachClosed(t: Table, cs: seq<string>, a: string)
    requires WellFormed(t, cs) && a in cs
    requires Reach(t, cs, a) == Reach(Pass(t, cs), cs, a)
    ensures Closed(t, cs, Reach(t, cs, a))
  {
    var X := Reach(t, cs, a);
    forall x, y | x in X && y in cs && Get(t, x, y) > 0.0 ensures y in X {
      if x != a && y != a && x != y {
        PassJoins(t, cs, a, x, y);
        assert y in Reach(Pass(t, cs), cs, a);
      }
    }
  }

  /**
   * After transitive completion, a→b and b→c known imply a→c known, for
   * pairwise-distinct registered currencies.
   */
  lemma {:induction false} CompletedIsTransitive(t: Table, cs: seq<string>, a: string, b: string, c: string)
    requires WellFormed(t, cs) && a in cs && b in cs && c in cs
    requires a != b && b != c && a != c
    requires Get(Completed(t, cs), a, b) > 0.0 && Get(Completed(t, cs), b, c) > 0.0
    ensures Get(Completed(t, cs), a, c) > 0.0
  {
    var n := |cs|;
    assert a in Reach(Passes(t, cs, 0), cs, a);
    var p := StableSweep(t, cs, a, 0);
    var X := Reach(Passes(t, cs, p), cs, a);
    PassesExtend(t, cs, 0, p);
    StableReachClosed(Passes(t, cs, p), cs, a);
    PassesClosed(t, cs, X, p, n);
    assert b in X;
    assert c in X;
    PassesExtend(t, cs, p, n);
  }

  /**
   * Completion keeps the table well formed, keeps every known rate at its
   * value (the first value found wins) and leaves the diagonal alone.
   */
  lemma CompletedExtends(t: Table, cs: seq<string>)
    requires WellFormed(t, cs)
    ensures WellFormed(Completed(t, cs), cs) && Extends(t, Completed(t, cs))
  {
    PassesExtend(t, cs, 0, |cs|);
  }
}
