/** The generator's top level, end to end: locations, per-emitter
    generation, duplicates, missing values, RF as text and the shuffle
    (data/pdw_generator.py:105-182), with what the written table then
    holds. */
module Dataset {
  import opened Common
  import opened Sampling
  import opened Pdw
  import opened Config
  import Clustering
  import Location
  import opened Assembly
  import opened Corruption

  /** Rows of the table that have a missing measurement, counted one by one. */
  function CountIncomplete(rows: seq<Row>): nat {
    if |rows| == 0 then 0
    else CountIncomplete(rows[..|rows| - 1]) + (if Complete(rows[|rows| - 1]) then 0 else 1)
  }

  lemma {:induction false} CountIncompleteAppend(a: seq<Row>, b: seq<Row>)
    ensures CountIncomplete(a + b) == CountIncomplete(a) + CountIncomplete(b)
    decreases |b|
  {
    if |b| > 0 {
      var m := |b| - 1;
      assert (a + b)[..|a + b| - 1] == a + b[..m];
      CountIncompleteAppend(a, b[..m]);
    } else {
      assert a + b == a;
    }
  }

  /** The count agrees with the number of positions holding an incomplete row. */
  lemma {:induction false} CountIncompleteIsCardinality(rows: seq<Row>)
    ensures CountIncomplete(rows) == |set j | 0 <= j < |rows| && !Complete(rows[j])|
  {
    if |rows| > 0 {
      var m := |rows| - 1;
      var front := rows[..m];
      CountIncompleteIsCardinality(front);
      var s := set j | 0 <= j < |rows| && !Complete(rows[j]);
      var t := set j | 0 <= j < m && !Complete(front[j]);
      if Complete(rows[m]) {
        assert s == t;
      } else {
        assert s == t + {m};
      }
    }
  }

  /** Rearranging the rows does not change how many are incomplete. */
  lemma {:induction false} CountIncompleteOfPermutation(a: seq<Row>, b: seq<Row>)
    requires multiset(a) == multiset(b)
    ensures CountIncomplete(a) == CountIncomplete(b)
    decreases |a|
  {
    if |a| > 0 {
      var m := |a| - 1;
      var x := a[m];
      assert a == a[..m] + [x];
      assert x in multiset(b);
      var i :| 0 <= i < |b| && b[i] == x;
      var rest := b[..i] + b[i + 1..];
      assert b == b[..i] + [x] + b[i + 1..];
      assert multiset(a) == multiset(a[..m]) + multiset{x};
      assert multiset(b) == multiset(b[..i]) + multiset{x} + multiset(b[i + 1..]);
      assert multiset(rest) == multiset(b[..i]) + multiset(b[i + 1..]);
      assert multiset(a[..m]) == multiset(a) - multiset{x};
      assert multiset(rest) == multiset(b) - multiset{x};
      CountIncompleteOfPermutation(a[..m], rest);
      CountIncompleteAppend(b[..i] + [x], b[i + 1..]);
      CountIncompleteAppend(b[..i], [x]);
      CountIncompleteAppend(b[..i], b[i + 1..]);
      assert CountIncomplete([x]) == CountIncomplete([][..0]) + (if Complete(x) then 0 else 1);
    }
  }

  /** What the generation passes put in the cells that are not
      measurements: a configured emitter, its label, its single location
      and a timestamp inside the dataset's range. */
  predicate Generated(row: Row, fullCodes: seq<string>)
    requires |fullCodes| == NumSystems
  {
    && 1 <= row.emitterId <= NumSystems
    && row.radarFunction == Label(row.emitterId)
    && row.location == Location.Code(fullCodes[row.emitterId - 1], Location.Precision)
    && Clustering.OverallStart <= row.timestamp < Clustering.OverallEnd
  }

  predicate AllGenerated(rows: seq<Row>, fullCodes: seq<string>)
    requires |fullCodes| == NumSystems
  {
    forall j :: 0 <= j < |rows| ==> Generated(rows[j], fullCodes)
  }

  /** No row is missing more than one measurement. */
  predicate AtMostOneGap(rows: seq<Row>) {
    forall j :: 0 <= j < |rows| ==> |MissingColumns(rows[j])| <= 1
  }

  /** Every RF cell holds text: a numeral or the blank token. */
  predicate AllRfText(rows: seq<Row>) {
    forall j :: 0 <= j < |rows| ==> rows[j].rf.NumeralText? || rows[j].rf.BlankText?
  }

  predicate AllComplete(rows: seq<Row>) {
    forall j :: 0 <= j < |rows| ==> Complete(rows[j])
  }

  /** The location map the location loop builds. */
  ghost predicate LocationsOf(locs: map<int, string>, fullCodes: seq<string>)
    requires |fullCodes| == NumSystems
  {
    && (forall id :: id in locs <==> 1 <= id <= NumSystems)
    && (forall id :: 1 <= id <= NumSystems ==> locs[id] == Location.Code(fullCodes[id - 1], Location.Precision))
  }

  /** The base table: with the configured profiles and draws that fit
      them, generation succeeds with one complete row per drawn pulse, each
      carrying its emitter's label and the location computed for that
      emitter. */
  lemma BaseRowsGenerated(fullCodes: seq<string>, locs: map<int, string>, ds: seq<EmitterDraws>)
    requires |fullCodes| == NumSystems && LocationsOf(locs, fullCodes)
    requires |ds| == |Profiles| && forall k :: 0 <= k < |ds| ==> DrawsFitProfile(Profiles[k], ds[k])
    ensures Fits(Profiles, locs, ds) && AllRows(Profiles, locs, ds).Ok?
    ensures |AllRows(Profiles, locs, ds).value| == TotalPulses(ds)
    ensures AllGenerated(AllRows(Profiles, locs, ds).value, fullCodes)
    ensures AllComplete(AllRows(Profiles, locs, ds).value)
  {
    ProfilesWellFormed();
    assert Fits(Profiles, locs, ds);
    ConfiguredGenerationSucceeds(locs, ds);
    AllRowsAreEmitterRows(Profiles, locs, ds);
    var base := AllRows(Profiles, locs, ds).value;
    forall j | 0 <= j < |base| ensures Generated(base[j], fullCodes) && Complete(base[j]) {
      var k :| 0 <= k < |Profiles| && EmitterRow(base[j], Profiles[k].id, locs[Profiles[k].id]);
    }
  }

  lemma DuplicatedRowsGenerated(base: seq<Row>, picks: seq<nat>, fullCodes: seq<string>)
    requires |fullCodes| == NumSystems && AllGenerated(base, fullCodes) && AllComplete(base)
    requires InRange(picks, |base|)
    ensures AllGenerated(base + Pick(base, picks), fullCodes) && AllComplete(base + Pick(base, picks))
  {
    var dup := base + Pick(base, picks);
    forall j | |base| <= j < |dup| ensures Generated(dup[j], fullCodes) && Complete(dup[j]) {
      assert dup[j] == base[picks[j - |base|]];
    }
  }

  lemma CompleteHasNoGap(row: Row)
    requires Complete(row)
    ensures MissingColumns(row) == {}
  {
    forall c | c in AllColumns ensures c !in MissingColumns(row) {
      assert Value(row, c).Some?;
    }
  }

  /** After the blanking loop the rows still carry what generation put in
      them and none lacks more than one measurement. */
  lemma CorruptedRowsGenerated(rows: seq<Row>, targets: seq<nat>, cols: seq<Column>, fullCodes: seq<string>)
    requires |fullCodes| == NumSystems && AllGenerated(rows, fullCodes) && AllComplete(rows)
    requires |targets| == |cols| && Distinct(targets) && InRange(targets, |rows|)
    ensures AllGenerated(Corrupt(rows, targets, cols), fullCodes)
    ensures AtMostOneGap(Corrupt(rows, targets, cols))
  {
    var r := Corrupt(rows, targets, cols);
    forall j | 0 <= j < |r| ensures Generated(r[j], fullCodes) && |MissingColumns(r[j])| <= 1 {
      CorruptedRow(rows, targets, cols, j);
    }
  }

  /** One row of the blanking loop's result: the row it started as, or that
      row with one cell blanked. */
  lemma CorruptedRow(rows: seq<Row>, targets: seq<nat>, cols: seq<Column>, j: nat)
    requires |targets| == |cols| && Distinct(targets) && InRange(targets, |rows|)
    requires j < |rows| && Complete(rows[j])
    ensures SameIdentity(Corrupt(rows, targets, cols)[j], rows[j])
    ensures |MissingColumns(Corrupt(rows, targets, cols)[j])| <= 1
  {
    var r := Corrupt(rows, targets, cols);
    if k :| 0 <= k < |targets| && targets[k] == j {
      SetMissingOnComplete(rows[j], cols[k]);
    } else {
      CompleteHasNoGap(rows[j]);
    }
  }

  /** Exactly the chosen rows come out of the blanking loop incomplete. */
  lemma CorruptedCount(rows: seq<Row>, targets: seq<nat>, cols: seq<Column>)
    requires AllComplete(rows)
    requires |targets| == |cols| && Distinct(targets) && InRange(targets, |rows|)
    ensures CountIncomplete(Corrupt(rows, targets, cols)) == |targets|
  {
    CorruptionBlanksOneCellPerRow(rows, targets, cols);
    CountIncompleteIsCardinality(Corrupt(rows, targets, cols));
  }

  /** Turning RF into text keeps every row's identity and gaps. */
  lemma TextualRowsGenerated(rows: seq<Row>, fullCodes: seq<string>)
    requires |fullCodes| == NumSystems && AllGenerated(rows, fullCodes) && AtMostOneGap(rows)
    ensures AllGenerated(RfColumnAsText(rows), fullCodes) && AtMostOneGap(RfColumnAsText(rows))
  {
    var r := RfColumnAsText(rows);
    forall j | 0 <= j < |r| ensures Generated(r[j], fullCodes) && |MissingColumns(r[j])| <= 1 {
      assert MissingColumns(r[j]) == MissingColumns(rows[j]);
    }
  }

  lemma TextualCount(rows: seq<Row>)
    ensures CountIncomplete(RfColumnAsText(rows)) == CountIncomplete(rows)
  {
    var r := RfColumnAsText(rows);
    forall j | 0 <= j < |r| ensures Complete(r[j]) <==> Complete(rows[j]) {
    }
    CountIncompleteIsCardinality(rows);
    CountIncompleteIsCardinality(r);
    assert (set j | 0 <= j < |r| && !Complete(r[j])) == (set j | 0 <= j < |rows| && !Complete(rows[j]));
  }

  /** Shuffling moves rows without altering any of them. */
  lemma ShuffledRowsGenerated(rows: seq<Row>, perm: seq<nat>, fullCodes: seq<string>)
    requires |fullCodes| == NumSystems && AllGenerated(rows, fullCodes) && AtMostOneGap(rows)
    requires InRange(perm, |rows|)
    requires AllRfText(rows)
    ensures AllGenerated(Pick(rows, perm), fullCodes) && AtMostOneGap(Pick(rows, perm))
    ensures AllRfText(Pick(rows, perm))
  {
    var r := Pick(rows, perm);
    forall j | 0 <= j < |r| ensures Generated(r[j], fullCodes) && |MissingColumns(r[j])| <= 1
      ensures r[j].rf.NumeralText? || r[j].rf.BlankText?
    {
      assert r[j] == rows[perm[j]];
    }
  }

  lemma ShuffledCount(rows: seq<Row>, perm: seq<nat>)
    requires IsPermutation(perm, |rows|)
    ensures CountIncomplete(Pick(rows, perm)) == CountIncomplete(rows)
  {
    ShuffleIsPermutation(rows, perm);
    CountIncompleteOfPermutation(Pick(rows, perm), rows);
  }

  /** Every draw the generation loop consumes, each in the range it is
      drawn from. */
  predicate GenerationDrawsFit(ds: seq<EmitterDraws>) {
    |ds| == |Profiles| && forall k :: 0 <= k < |ds| ==> DrawsFitProfile(Profiles[k], ds[k])
  }

  /** Every draw the corruption passes consume on a table of `n` rows. */
  predicate CorruptionDrawsFit(n: nat, dupPicks: seq<nat>, targets: seq<nat>, cols: seq<Column>, perm: seq<nat>) {
    var dup := n + DuplicateCount(n);
    && DrawWithoutReplacement(dupPicks, n, DuplicateCount(n))
    && DrawWithoutReplacement(targets, dup, MissingCount(dup)) && |cols| == |targets|
    && IsPermutation(perm, dup)
  }

  /** The table the passes after `pd.concat` leave, as a function of the
      base table: the duplicates appended, the chosen cells blanked, RF
      turned into text, and the rows reordered by the permutation. */
  function Degraded(base: seq<Row>, dupPicks: seq<nat>, targets: seq<nat>, cols: seq<Column>, perm: seq<nat>): (r: seq<Row>)
    requires CorruptionDrawsFit(|base|, dupPicks, targets, cols, perm)
    ensures |r| == |base| + DuplicateCount(|base|)
  {
    Pick(RfColumnAsText(Corrupt(base + Pick(base, dupPicks), targets, cols)), perm)
  }

  /** Every pulse of the base table survives into the final table: some row
      there carries its timestamp, emitter, label and location, and every
      measurement that row still holds is the pulse's own. */
  lemma BaseRowsSurvive(base: seq<Row>, dupPicks: seq<nat>, targets: seq<nat>, cols: seq<Column>, perm: seq<nat>, j: nat)
    requires CorruptionDrawsFit(|base|, dupPicks, targets, cols, perm) && j < |base|
    ensures var final := Degraded(base, dupPicks, targets, cols, perm);
      exists q :: 0 <= q < |final| && SameIdentity(final[q], base[j])
        && forall c :: Value(final[q], c).Some? ==> Value(final[q], c) == Value(base[j], c)
  {
    var duplicated := base + Pick(base, dupPicks);
    var corrupted := Corrupt(duplicated, targets, cols);
    var textual := RfColumnAsText(corrupted);
    var final := Degraded(base, dupPicks, targets, cols, perm);
    assert duplicated[j] == base[j];
    assert SameIdentity(corrupted[j], base[j])
      && forall c :: Value(corrupted[j], c).Some? ==> Value(corrupted[j], c) == Value(base[j], c)
    by {
      if k :| 0 <= k < |targets| && targets[k] == j {
        assert corrupted[j] == SetMissing(base[j], cols[k]);
      } else {
        assert corrupted[j] == base[j];
      }
    }
    PermutationCovers(perm, |duplicated|, j);
    var q :| 0 <= q < |duplicated| && perm[q] == j;
    assert final[q] == textual[j];
  }

  /** The location loop followed by the generation loop: one complete row
      per drawn pulse, each with its emitter's label and location. */
  method GenerateBase(fullCodes: seq<string>, ds: seq<EmitterDraws>) returns (locs: map<int, string>, base: seq<Row>)
    requires |fullCodes| == NumSystems && GenerationDrawsFit(ds)
    ensures LocationsOf(locs, fullCodes) && Fits(Profiles, locs, ds)
    ensures AllRows(Profiles, locs, ds) == Ok(base)
    ensures |base| == TotalPulses(ds)
    ensures NumSystems * MinPulses <= |base| <= NumSystems * (MaxPulses - 1)
    ensures AllGenerated(base, fullCodes) && AllComplete(base)
  {
    locs := AssignLocations(fullCodes);
    BaseRowsGenerated(fullCodes, locs, ds);
    ConfiguredGenerationSucceeds(locs, ds);
    var generated := GenerateAll(Profiles, locs, ds);
    base := generated.value;
  }

  /** The passes between `pd.concat` and the CSV write, on the table in
      place: duplicates, blanked cells, RF as text, the shuffle. */
  method Degrade(table: PdwTable, dupPicks: seq<nat>, targets: seq<nat>, cols: seq<Column>, perm: seq<nat>,
                 ghost fullCodes: seq<string>)
    requires |fullCodes| == NumSystems
    requires AllGenerated(table.rows, fullCodes) && AllComplete(table.rows)
    requires CorruptionDrawsFit(|table.rows|, dupPicks, targets, cols, perm)
    modifies table
    ensures table.rows == Degraded(old(table.rows), dupPicks, targets, cols, perm)
    ensures |table.rows| == |old(table.rows)| + DuplicateCount(|old(table.rows)|)
    ensures CountIncomplete(table.rows) == MissingCount(|table.rows|)
    ensures AllGenerated(table.rows, fullCodes) && AtMostOneGap(table.rows)
    ensures AllRfText(table.rows)
  {
    ghost var base := table.rows;
    ghost var dup := |base| + DuplicateCount(|base|);
    assert IsPermutation(perm, dup);

    table.InjectDuplicates(dupPicks);
    DuplicatedRowsGenerated(base, dupPicks, fullCodes);
    ghost var duplicated := table.rows;
    assert |duplicated| == dup;

    table.InjectMissing(targets, cols);
    CorruptedRowsGenerated(duplicated, targets, cols, fullCodes);
    CorruptedCount(duplicated, targets, cols);
    ghost var corrupted := table.rows;
    assert |corrupted| == dup;

    table.RfToText();
    TextualRowsGenerated(corrupted, fullCodes);
    TextualCount(corrupted);
    ghost var textual := table.rows;
    assert |textual| == dup;

    table.Shuffle(perm);
    ShuffledRowsGenerated(textual, perm, fullCodes);
    ShuffledCount(textual, perm);
  }

  /** The generator end to end, from the location loop to the shuffle. The
      table it leaves holds the base rows plus one duplicate per hundred,
      exactly `int(len * 0.02)` rows with a missing measurement and none
      with more than one, an RF column that is all text, and in every row
      the emitter's own label and location. */
  method BuildDataset(fullCodes: seq<string>, ds: seq<EmitterDraws>, dupPicks: seq<nat>,
                      targets: seq<nat>, cols: seq<Column>, perm: seq<nat>)
    returns (locs: map<int, string>, table: PdwTable)
    requires |fullCodes| == NumSystems && GenerationDrawsFit(ds)
    requires CorruptionDrawsFit(TotalPulses(ds), dupPicks, targets, cols, perm)
    ensures LocationsOf(locs, fullCodes) && Fits(Profiles, locs, ds) && AllRows(Profiles, locs, ds).Ok?
    ensures table.rows == Degraded(AllRows(Profiles, locs, ds).value, dupPicks, targets, cols, perm)
    ensures |table.rows| == TotalPulses(ds) + DuplicateCount(TotalPulses(ds))
    ensures CountIncomplete(table.rows) == MissingCount(|table.rows|)
    ensures AllGenerated(table.rows, fullCodes) && AtMostOneGap(table.rows)
    ensures AllRfText(table.rows)
  {
    var base;
    locs, base := GenerateBase(fullCodes, ds);
    table := new PdwTable(base);
    Degrade(table, dupPicks, targets, cols, perm, fullCodes);
  }
}
