/** Finite sums of integer sequences, the `lpSum` of a linear expression,
    with the algebra the feasibility lemmas need. */
module Sums {

  function Sum(s: seq<int>): int
    decreases |s|
  {
    if |s| == 0 then 0 else Sum(s[..|s| - 1]) + s[|s| - 1]
  }

  lemma {:induction false} SumAppend(a: seq<int>, b: seq<int>)
    ensures Sum(a + b) == Sum(a) + Sum(b)
    decreases |b|
  {
    if |b| == 0 {
      assert a + b == a;
    } else {
      assert (a + b)[..|a + b| - 1] == a + b[..|b| - 1];
      SumAppend(a, b[..|b| - 1]);
    }
  }

  /** Extending a prefix by one entry adds that entry. */
  lemma SumPrefixStep(s: seq<int>, k: nat)
    requires k < |s|
    ensures Sum(s[..k + 1]) == Sum(s[..k]) + s[k]
  {
    assert s[..k + 1][..k] == s[..k];
  }

  lemma {:induction false} SumNonNegative(s: seq<int>)
    requires forall i :: 0 <= i < |s| ==> s[i] >= 0
    ensures Sum(s) >= 0
    decreases |s|
  {
    if |s| > 0 {
      SumNonNegative(s[..|s| - 1]);
    }
  }

  /** A sum of non-negative terms that is not positive has only zero terms. */
  lemma {:induction false} SumZeroForcesZeros(s: seq<int>)
    requires forall i :: 0 <= i < |s| ==> s[i] >= 0
    requires Sum(s) <= 0
    ensures forall i :: 0 <= i < |s| ==> s[i] == 0
    decreases |s|
  {
    if |s| > 0 {
      SumNonNegative(s[..|s| - 1]);
      SumZeroForcesZeros(s[..|s| - 1]);
      forall i | 0 <= i < |s| - 1
        ensures s[i] == 0
      {
        assert s[..|s| - 1][i] == s[i];
      }
    }
  }

  lemma {:induction false} SumOfZeros(s: seq<int>)
    requires forall i :: 0 <= i < |s| ==> s[i] == 0
    ensures Sum(s) == 0
    decreases |s|
  {
    if |s| > 0 {
      SumOfZeros(s[..|s| - 1]);
    }
  }

  lemma {:induction false} SumMonotone(a: seq<int>, b: seq<int>)
    requires |a| == |b|
    requires forall i :: 0 <= i < |a| ==> a[i] <= b[i]
    ensures Sum(a) <= Sum(b)
    decreases |a|
  {
    if |a| > 0 {
      SumMonotone(a[..|a| - 1], b[..|b| - 1]);
    }
  }

  lemma {:induction false} SumPointwiseAdd(a: seq<int>, b: seq<int>, c: seq<int>)
    requires |a| == |b| == |c|
    requires forall i :: 0 <= i < |c| ==> c[i] == a[i] + b[i]
    ensures Sum(c) == Sum(a) + Sum(b)
    decreases |c|
  {
    if |c| > 0 {
      SumPointwiseAdd(a[..|a| - 1], b[..|b| - 1], c[..|c| - 1]);
    }
  }

  lemma {:induction false} SumScale(s: seq<int>, k: int, t: seq<int>)
    requires |t| == |s|
    requires forall i :: 0 <= i < |s| ==> t[i] == k * s[i]
    ensures Sum(t) == k * Sum(s)
    decreases |s|
  {
    if |s| > 0 {
      var n := |s| - 1;
      SumScale(s[..n], k, t[..n]);
      calc {
        Sum(t);
        Sum(t[..n]) + t[n];
        k * Sum(s[..n]) + k * s[n];
        { assert k * Sum(s[..n]) + k * s[n] == k * (Sum(s[..n]) + s[n]); }
        k * Sum(s);
      }
    }
  }

  /** The totals of the rows of a rectangular table, and of its first n columns. */
  function RowTotals(t: seq<seq<int>>): (r: seq<int>)
    ensures |r| == |t|
    ensures forall w :: 0 <= w < |t| ==> r[w] == Sum(t[w])
  {
    seq(|t|, w requires 0 <= w < |t| => Sum(t[w]))
  }

  function Column(t: seq<seq<int>>, p: nat): (c: seq<int>)
    requires forall w :: 0 <= w < |t| ==> p < |t[w]|
    ensures |c| == |t|
    ensures forall w :: 0 <= w < |t| ==> c[w] == t[w][p]
  {
    seq(|t|, w requires 0 <= w < |t| => t[w][p])
  }

  function ColumnTotals(t: seq<seq<int>>, n: nat): (r: seq<int>)
    requires forall w :: 0 <= w < |t| ==> |t[w]| == n
    ensures |r| == n
    ensures forall p :: 0 <= p < n ==> r[p] == Sum(Column(t, p))
  {
    seq(n, p requires 0 <= p < n => Sum(Column(t, p)))
  }

  /** Summing a table row by row or column by column gives the same total. */
  lemma {:induction false} SumRowsEqualsSumColumns(t: seq<seq<int>>, n: nat)
    requires forall w :: 0 <= w < |t| ==> |t[w]| == n
    ensures Sum(RowTotals(t)) == Sum(ColumnTotals(t, n))
    decreases |t|
  {
    if |t| == 0 {
      SumOfZeros(ColumnTotals(t, n));
    } else {
      var m := |t| - 1;
      var front := t[..m];
      var last := t[m];
      SumRowsEqualsSumColumns(front, n);
      assert RowTotals(t)[..m] == RowTotals(front);
      forall p | 0 <= p < n
        ensures ColumnTotals(t, n)[p] == ColumnTotals(front, n)[p] + last[p]
      {
        assert Column(t, p)[..m] == Column(front, p);
      }
      SumPointwiseAdd(ColumnTotals(front, n), last, ColumnTotals(t, n));
    }
  }

  /** Indices holding a 1 in a 0/1 sequence. */
  function Ones(s: seq<int>): set<int>
  {
    set i | 0 <= i < |s| && s[i] == 1
  }

  /** SumOfBinaryCountsOnes, stated for any sequence. */
  lemma BinarySumCountsOnes(s: seq<int>)
    ensures (forall i :: 0 <= i < |s| ==> s[i] == 0 || s[i] == 1) ==>
      Sum(s) == |Ones(s)| && 0 <= Sum(s) <= |s|
  {
    if forall i :: 0 <= i < |s| ==> s[i] == 0 || s[i] == 1 {
      SumOfBinaryCountsOnes(s);
    }
  }

  /** The sum of a 0/1 sequence counts its ones. */
  lemma {:induction false} SumOfBinaryCountsOnes(s: seq<int>)
    requires forall i :: 0 <= i < |s| ==> s[i] == 0 || s[i] == 1
    ensures Sum(s) == |Ones(s)|
    ensures 0 <= Sum(s) <= |s|
    decreases |s|
  {
    if |s| == 0 {
      assert Ones(s) == {};
    } else {
      var m := |s| - 1;
      SumOfBinaryCountsOnes(s[..m]);
      if s[m] == 1 {
        assert Ones(s) == Ones(s[..m]) + {m};
      } else {
        assert Ones(s) == Ones(s[..m]);
      }
    }
  }
}
