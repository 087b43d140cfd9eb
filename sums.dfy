/**
 * Finite sums of real-valued terms indexed by node numbers, in two forms: in
 * the order of a sequence, and over a set taken in increasing order.  The
 * gradient a node collects is such a sum, and the backward pass adds its
 * terms in an order that Python's set iteration leaves open; these lemmas
 * say that the order does not matter.
 */
module Sums {

  predicate NoDup(s: seq<nat>)
  {
    forall i, j :: 0 <= i < j < |s| ==> s[i] != s[j]
  }

  function Elems(s: seq<nat>): set<nat>
  {
    set x | x in s
  }

  lemma {:induction false} ElemsAppend(a: seq<nat>, b: seq<nat>)
    ensures Elems(a + b) == Elems(a) + Elems(b)
  {
    assert forall x :: x in a + b <==> x in a || x in b;
  }

  /** h(s[0]) + h(s[1]) + ... in the order of `s`. */
  function SumSeq(s: seq<nat>, h: nat -> real): real
  {
    if s == [] then 0.0 else h(s[0]) + SumSeq(s[1..], h)
  }

  /** The sum of h(q) over the members q of `s` with lo <= q < hi. */
  function SumOver(lo: nat, hi: nat, s: set<nat>, h: nat -> real): real
    decreases hi - lo
  {
    if lo >= hi then 0.0 else (if lo in s then h(lo) else 0.0) + SumOver(lo + 1, hi, s, h)
  }

  lemma {:induction false} SumOverInsert(lo: nat, hi: nat, s: set<nat>, x: nat, h: nat -> real)
    requires x !in s && lo <= x < hi
    ensures SumOver(lo, hi, s + {x}, h) == SumOver(lo, hi, s, h) + h(x)
    decreases hi - lo
  {
    if lo < x {
      SumOverInsert(lo + 1, hi, s, x, h);
    } else {
      SumOverSame(lo + 1, hi, s + {x}, s, h);
    }
  }

  /** Two sets that agree on [lo, hi) give the same sum. */
  lemma {:induction false} SumOverSame(lo: nat, hi: nat, s: set<nat>, s': set<nat>, h: nat -> real)
    requires forall q :: lo <= q < hi ==> (q in s <==> q in s')
    ensures SumOver(lo, hi, s, h) == SumOver(lo, hi, s', h)
    decreases hi - lo
  {
    if lo < hi {
      SumOverSame(lo + 1, hi, s, s', h);
    }
  }

  /** Two term functions that agree on the summed members give the same sum. */
  lemma {:induction false} SumOverCongruent(lo: nat, hi: nat, s: set<nat>, h: nat -> real, h': nat -> real)
    requires forall q :: lo <= q < hi && q in s ==> h(q) == h'(q)
    ensures SumOver(lo, hi, s, h) == SumOver(lo, hi, s, h')
    decreases hi - lo
  {
    if lo < hi {
      SumOverCongruent(lo + 1, hi, s, h, h');
    }
  }

  /** Terms that vanish below `mid` can be dropped from the front. */
  lemma {:induction false} SumOverSkip(lo: nat, mid: nat, hi: nat, s: set<nat>, h: nat -> real)
    requires lo <= mid <= hi
    requires forall q :: lo <= q < mid && q in s ==> h(q) == 0.0
    ensures SumOver(lo, hi, s, h) == SumOver(mid, hi, s, h)
    decreases mid - lo
  {
    if lo < mid {
      SumOverSkip(lo + 1, mid, hi, s, h);
    }
  }

  /** Summing a duplicate-free sequence in its own order gives the sum over
      its elements in increasing order. */
  lemma {:induction false} SumSeqIsSumOver(t: seq<nat>, hi: nat, h: nat -> real)
    requires NoDup(t) && forall i :: 0 <= i < |t| ==> t[i] < hi
    ensures SumSeq(t, h) == SumOver(0, hi, Elems(t), h)
  {
    if t == [] {
      SumOverSame(0, hi, {}, Elems(t), h);
      SumOverZero(0, hi, {}, h);
    } else {
      var rest := t[1..];
      assert NoDup(rest) by {
        forall i, j | 0 <= i < j < |rest| ensures rest[i] != rest[j] {
          assert rest[i] == t[i + 1] && rest[j] == t[j + 1];
        }
      }
      SumSeqIsSumOver(rest, hi, h);
      assert t[0] !in Elems(rest);
      assert Elems(t) == Elems(rest) + {t[0]} by {
        assert t == [t[0]] + rest;
      }
      SumOverInsert(0, hi, Elems(rest), t[0], h);
    }
  }

  lemma {:induction false} SumOverZero(lo: nat, hi: nat, s: set<nat>, h: nat -> real)
    requires forall q :: lo <= q < hi && q in s ==> h(q) == 0.0
    ensures SumOver(lo, hi, s, h) == 0.0
    decreases hi - lo
  {
    if lo < hi {
      SumOverZero(lo + 1, hi, s, h);
    }
  }
}
