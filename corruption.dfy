/** The passes that degrade the base table before it is written: duplicate
    rows, blanked measurement cells, the RF column turned into text, and the
    final shuffle (data/pdw_generator.py:154-182). The table is updated in
    place, as the generator's data frame is. */
module Corruption {
  import opened Common
  import opened Sampling
  import opened Pdw

  const DuplicateRate: real := 0.01
  const MissingRate: real := 0.02

  /** `int(len(pdw_data) * DUPLICATE_RATE)`: one duplicate per whole hundred rows. */
  function DuplicateCount(len: nat): (r: nat)
    ensures 100 * r <= len < 100 * (r + 1)
  {
    var x := (len as real) * DuplicateRate;
    assert x.Floor as real <= x < x.Floor as real + 1.0;
    x.Floor
  }

  /** `int(len(pdw_data) * MISSING_RATE)`: one corrupted row per whole fifty rows. */
  function MissingCount(len: nat): (r: nat)
    ensures 50 * r <= len < 50 * (r + 1)
  {
    var x := (len as real) * MissingRate;
    assert x.Floor as real <= x < x.Floor as real + 1.0;
    x.Floor
  }

  /** The blanking loop over `zip(missing_indices, random_cols)`, as a
      function of the table it starts from: each chosen row loses the cell
      of its chosen column, and no other row is touched. */
  function Corrupt(rows: seq<Row>, targets: seq<nat>, cols: seq<Column>): (r: seq<Row>)
    requires |targets| == |cols| && Distinct(targets) && InRange(targets, |rows|)
    ensures |r| == |rows|
    ensures forall k :: 0 <= k < |targets| ==> r[targets[k]] == SetMissing(rows[targets[k]], cols[k])
    ensures forall j :: 0 <= j < |rows| && j !in targets ==> r[j] == rows[j]
    decreases |targets|
  {
    if |targets| == 0 then rows
    else
      var n := |targets| - 1;
      var t := targets[n];
      var earlier := Corrupt(rows, targets[..n], cols[..n]);
      assert targets == targets[..n] + [t];
      assert t !in targets[..n];
      earlier[t := SetMissing(rows[t], cols[n])]
  }

  /** On a table whose rows are all complete, the corruption pass leaves
      exactly the chosen rows incomplete, each missing exactly the chosen
      cell; it never changes a value, only removes one. */
  lemma CorruptionBlanksOneCellPerRow(rows: seq<Row>, targets: seq<nat>, cols: seq<Column>)
    requires |targets| == |cols| && Distinct(targets) && InRange(targets, |rows|)
    requires forall j :: 0 <= j < |rows| ==> Complete(rows[j])
    ensures var r := Corrupt(rows, targets, cols);
      && (forall k :: 0 <= k < |targets| ==> MissingColumns(r[targets[k]]) == {cols[k]})
      && (forall j :: 0 <= j < |r| ==> SameIdentity(r[j], rows[j]))
      && (forall j, c :: 0 <= j < |r| && Value(r[j], c).Some? ==> Value(r[j], c) == Value(rows[j], c))
      && (set j | 0 <= j < |r| && !Complete(r[j])) == (set k | 0 <= k < |targets| :: targets[k])
      && |set j | 0 <= j < |r| && !Complete(r[j])| == |targets|
  {
    var r := Corrupt(rows, targets, cols);
    forall k | 0 <= k < |targets| ensures MissingColumns(r[targets[k]]) == {cols[k]} {
      SetMissingOnComplete(rows[targets[k]], cols[k]);
    }
    forall j | 0 <= j < |r| ensures SameIdentity(r[j], rows[j])
      ensures forall c :: Value(r[j], c).Some? ==> Value(r[j], c) == Value(rows[j], c)
      ensures !Complete(r[j]) <==> j in targets
    {
      if k :| 0 <= k < |targets| && targets[k] == j {
        assert r[j] == SetMissing(rows[j], cols[k]);
      }
    }
    assert (set j | 0 <= j < |r| && !Complete(r[j])) == (set k | 0 <= k < |targets| :: targets[k]);
    DistinctCardinality(targets);
  }

  /** `astype(str)` and `replace('nan', ' ')` on the whole RF column: every
      RF cell becomes text, the blank token stands exactly where RF was
      missing, and every other cell is left as it was. */
  function RfColumnAsText(rows: seq<Row>): (r: seq<Row>)
    ensures |r| == |rows|
    ensures forall j :: 0 <= j < |r| ==> r[j].rf.NumeralText? || r[j].rf.BlankText?
    ensures forall j :: 0 <= j < |r| ==> (r[j].rf.BlankText? <==> Value(rows[j], RfMhz).None?)
    ensures forall j, c :: 0 <= j < |r| ==> Value(r[j], c) == Value(rows[j], c)
    ensures forall j :: 0 <= j < |r| ==> r[j] == rows[j].(rf := r[j].rf)
  {
    seq(|rows|, j requires 0 <= j < |rows| => RfAsText(rows[j]))
  }

  /** Duplicates are drawn without replacement, so the appended rows are
      copies of distinct existing rows: no row is copied twice, and the
      table's multiset of rows only gains what the draw selected. */
  lemma DuplicatesAreCopies(rows: seq<Row>, picks: seq<nat>)
    requires DrawWithoutReplacement(picks, |rows|, DuplicateCount(|rows|))
    ensures |rows + Pick(rows, picks)| == |rows| + |rows| / 100
    ensures multiset(Pick(rows, picks)) <= multiset(rows)
    ensures multiset(rows + Pick(rows, picks)) == multiset(rows) + multiset(Pick(rows, picks))
  {
    PickIsSubMultiset(rows, picks);
  }

  /** The generator's data frame. Row labels are positions: every
      concatenation renumbers them. */
  class PdwTable {
    var rows: seq<Row>

    /** `pd.concat(all_data, ignore_index=True)`. */
    constructor (base: seq<Row>)
      ensures rows == base
    {
      rows := base;
    }

    /** Sample `int(len * 0.01)` rows without replacement and append copies. */
    method InjectDuplicates(picks: seq<nat>)
      requires DrawWithoutReplacement(picks, |rows|, DuplicateCount(|rows|))
      modifies this
      ensures rows == old(rows) + Pick(old(rows), picks)
      ensures |rows| == |old(rows)| + DuplicateCount(|old(rows)|)
      ensures rows[..|old(rows)|] == old(rows)
      ensures multiset(rows[|old(rows)|..]) <= multiset(old(rows))
    {
      DuplicatesAreCopies(rows, picks);
      rows := rows + Pick(rows, picks);
      assert rows[|old(rows)|..] == Pick(old(rows), picks);
    }

    /** Blank one chosen cell in each of `int(len * 0.02)` distinct rows,
      one row at a time. */
    method InjectMissing(targets: seq<nat>, cols: seq<Column>)
      requires DrawWithoutReplacement(targets, |rows|, MissingCount(|rows|)) && |cols| == |targets|
      modifies this
      ensures rows == Corrupt(old(rows), targets, cols)
      ensures |rows| == |old(rows)|
    {
      var i := 0;
      while i < |targets|
        invariant 0 <= i <= |targets|
        invariant |rows| == |old(rows)|
        invariant rows == Corrupt(old(rows), targets[..i], cols[..i])
      {
        var t := targets[i];
        assert targets[..i + 1][..i] == targets[..i] && cols[..i + 1][..i] == cols[..i];
        assert targets[..i + 1][i] == t && cols[..i + 1][i] == cols[i];
        assert t !in targets[..i];
        rows := rows[t := SetMissing(rows[t], cols[i])];
        i := i + 1;
      }
      assert targets[..i] == targets && cols[..i] == cols;
    }

    /** Turn the RF column into text; missing RF becomes " ". */
    method RfToText()
      modifies this
      ensures rows == RfColumnAsText(old(rows))
    {
      rows := RfColumnAsText(rows);
    }

    /** `sample(frac=1).reset_index(drop=True)`: reorder the rows by a full
      permutation. */
    method Shuffle(perm: seq<nat>)
      requires IsPermutation(perm, |rows|)
      modifies this
      ensures rows == Pick(old(rows), perm)
      ensures multiset(rows) == multiset(old(rows))
    {
      ShuffleIsPermutation(rows, perm);
      rows := Pick(rows, perm);
    }
  }
}
