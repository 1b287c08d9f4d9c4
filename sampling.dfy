/** Row selection by index: what `DataFrame.sample` and
    `np.random.choice(..., replace=False)` hand back, once the random choice
    itself is taken as an input. A draw without replacement is a sequence of
    distinct in-range indices; a full shuffle is such a sequence covering
    every row. */
module Sampling {

  predicate Distinct(s: seq<nat>) {
    forall i, j :: 0 <= i < j < |s| ==> s[i] != s[j]
  }

  predicate InRange(s: seq<nat>, bound: nat) {
    forall i :: 0 <= i < |s| ==> s[i] < bound
  }

  /** `count` distinct indices below `bound`: a draw without replacement. */
  predicate DrawWithoutReplacement(s: seq<nat>, bound: nat, count: nat) {
    |s| == count && Distinct(s) && InRange(s, bound)
  }

  /** A full shuffle of `bound` rows. */
  predicate IsPermutation(s: seq<nat>, bound: nat) {
    DrawWithoutReplacement(s, bound, bound)
  }

  /** The rows at the chosen indices, in the order chosen. */
  function Pick<T>(rows: seq<T>, idx: seq<nat>): (r: seq<T>)
    requires InRange(idx, |rows|)
    ensures |r| == |idx|
    ensures forall k :: 0 <= k < |idx| ==> r[k] == rows[idx[k]]
  {
    seq(|idx|, k requires 0 <= k < |idx| => rows[idx[k]])
  }

  lemma PickAppend<T>(rows: seq<T>, a: seq<nat>, b: seq<nat>)
    requires InRange(a, |rows|) && InRange(b, |rows|)
    ensures InRange(a + b, |rows|)
    ensures Pick(rows, a + b) == Pick(rows, a) + Pick(rows, b)
  {
    assert InRange(a + b, |rows|) by {
      forall i | 0 <= i < |a + b| ensures (a + b)[i] < |rows| {
        if i >= |a| { assert (a + b)[i] == b[i - |a|]; }
      }
    }
  }

  /** The indices with the one at position `j` removed. */
  function Without(idx: seq<nat>, j: nat): (r: seq<nat>)
    requires j < |idx|
    ensures |r| == |idx| - 1
    ensures forall i :: 0 <= i < |r| ==> r[i] == idx[if i < j then i else i + 1]
  {
    idx[..j] + idx[j + 1..]
  }

  lemma WithoutKeepsDraw(idx: seq<nat>, j: nat, bound: nat)
    requires j < |idx| && Distinct(idx) && InRange(idx, bound + 1) && idx[j] == bound
    ensures Distinct(Without(idx, j)) && InRange(Without(idx, j), bound)
  {
    var rest := Without(idx, j);
    forall i | 0 <= i < |rest| ensures rest[i] < bound {
      var i' := if i < j then i else i + 1;
      assert rest[i] == idx[i'] && i' != j;
    }
  }

  lemma PickWithout<T>(rows: seq<T>, idx: seq<nat>, j: nat)
    requires j < |idx| && InRange(idx, |rows|)
    ensures InRange(Without(idx, j), |rows|)
    ensures multiset(Pick(rows, idx)) == multiset(Pick(rows, Without(idx, j))) + multiset{rows[idx[j]]}
  {
    assert idx == idx[..j] + [idx[j]] + idx[j + 1..];
    PickAppend(rows, idx[..j] + [idx[j]], idx[j + 1..]);
    PickAppend(rows, idx[..j], [idx[j]]);
    PickAppend(rows, idx[..j], idx[j + 1..]);
  }

  /** Indices drawn without replacement select a sub-multiset of the rows:
      every selected row is a copy of a row of its own. */
  lemma {:induction false} PickIsSubMultiset<T>(rows: seq<T>, idx: seq<nat>)
    requires Distinct(idx) && InRange(idx, |rows|)
    ensures multiset(Pick(rows, idx)) <= multiset(rows)
    decreases |rows|
  {
    if |idx| == 0 {
      assert Pick(rows, idx) == [];
    } else {
      assert idx[0] < |rows|;
      var m := |rows| - 1;
      var front := rows[..m];
      assert rows == front + [rows[m]];
      if j :| 0 <= j < |idx| && idx[j] == m {
        var rest := Without(idx, j);
        WithoutKeepsDraw(idx, j, m);
        PickIsSubMultiset(front, rest);
        assert Pick(front, rest) == Pick(rows, rest);
        PickWithout(rows, idx, j);
      } else {
        assert InRange(idx, m);
        PickIsSubMultiset(front, idx);
        assert Pick(front, idx) == Pick(rows, idx);
      }
    }
  }

  /** A full shuffle keeps exactly the rows it was given. */
  lemma ShuffleIsPermutation<T>(rows: seq<T>, perm: seq<nat>)
    requires IsPermutation(perm, |rows|)
    ensures multiset(Pick(rows, perm)) == multiset(rows)
  {
    var picked := multiset(Pick(rows, perm));
    PickIsSubMultiset(rows, perm);
    assert |picked| == |multiset(rows)|;
    assert multiset(rows) == picked + (multiset(rows) - picked);
  }

  /** Distinct indices name as many rows as there are indices. */
  lemma {:induction false} DistinctCardinality(s: seq<nat>)
    requires Distinct(s)
    ensures |set k | 0 <= k < |s| :: s[k]| == |s|
  {
    if |s| > 0 {
      var m := |s| - 1;
      DistinctCardinality(s[..m]);
      assert (set k | 0 <= k < |s| :: s[k]) == (set k | 0 <= k < m :: s[..m][k]) + {s[m]};
      assert s[m] !in (set k | 0 <= k < m :: s[..m][k]);
    }
  }

  /** A full shuffle moves every row somewhere: each position below the
      table length is drawn by exactly one entry of the permutation. */
  lemma PermutationCovers(perm: seq<nat>, n: nat, j: nat)
    requires IsPermutation(perm, n) && j < n
    ensures exists q :: 0 <= q < n && perm[q] == j
  {
    var positions: seq<nat> := seq(n, i requires 0 <= i < n => i as nat);
    ShuffleIsPermutation(positions, perm);
    assert Pick(positions, perm) == perm;
    assert positions[j] == j;
    assert j in multiset(perm);
  }
}
