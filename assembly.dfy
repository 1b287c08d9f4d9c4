/** Per-emitter pulse generation and the concatenation of every emitter's
    rows into the base table (data/pdw_generator.py:105-152). */
module Assembly {
  import opened Common
  import opened Modulation
  import opened Clustering
  import Location
  import opened Pdw
  import opened Config

  /** Everything one emitter's generation pass draws from the random
      source: the pulse count, standard-normal draws for RF, amplitude and
      DOA, the unit and normal draws the PRI and PW generators consume, the
      index of the burst length chosen from `ActivityDurations`, the burst
      start offset in nanoseconds and the per-pulse timestamp offsets. */
  datatype EmitterDraws = EmitterDraws(
    pulses: nat,
    rfZ: seq<real>,
    amplitudeZ: seq<real>,
    doaZ: seq<real>,
    priU: seq<real>,
    priZ: seq<real>,
    pwU: seq<real>,
    pwZ: seq<real>,
    durationChoice: nat,
    offsetNs: int,
    stampDraws: seq<int>)

  function Duration(d: EmitterDraws): int
    requires d.durationChoice < |ActivityDurations|
  {
    ActivityDurations[d.durationChoice]
  }

  /** The draws a generation pass for profile `p` consumes, each in the
      range the random source yields it. */
  predicate DrawsFitProfile(p: Profile, d: EmitterDraws) {
    && MinPulses <= d.pulses < MaxPulses
    && |d.rfZ| == d.pulses && |d.amplitudeZ| == d.pulses && |d.doaZ| == d.pulses
    && Modulation.DrawsFit(p.pri, d.pulses, d.priU, d.priZ)
    && Modulation.DrawsFit(p.pw, d.pulses, d.pwU, d.pwZ)
    && d.durationChoice < |ActivityDurations|
    && |d.stampDraws| == d.pulses
    && StampDrawsFit(OverallStart, OverallEnd, Duration(d), d.offsetNs, d.stampDraws)
  }

  /** What every generated row of emitter `id` carries: its identifier,
      label and location, a value in every measurement cell, PRI and PW at
      or above the floor, and a timestamp inside the dataset's range. */
  predicate EmitterRow(row: Row, id: int, location: string) {
    && row.emitterId == id
    && row.radarFunction == Label(id)
    && row.location == location
    && Complete(row)
    && row.pri.Some? && row.pri.value >= Floor
    && row.pw.Some? && row.pw.value >= Floor
    && OverallStart <= row.timestamp < OverallEnd
  }

  /** One emitter's pass: RF, amplitude and DOA drawn around the profile's
      means with the shared deviations, PRI and PW from the modulation
      model, the label looked up, timestamps from one burst window, and the
      emitter's single location on every row. */
  function EmitterRows(p: Profile, location: string, d: EmitterDraws): (r: Result<seq<Row>>)
    requires DrawsFitProfile(p, d)
    ensures r.Ok? <==> Drawable(p.pri) && Drawable(p.pw)
    ensures r.Ok? ==> |r.value| == d.pulses
    ensures r.Ok? ==> forall row :: row in r.value ==> EmitterRow(row, p.id, location)
    ensures r.Ok? ==> forall i :: 0 <= i < d.pulses ==>
      && r.value[i].pri == Some(Generate(d.pulses, p.pri, d.priU, d.priZ).value[i])
      && r.value[i].pw == Some(Generate(d.pulses, p.pw, d.pwU, d.pwZ).value[i])
      && r.value[i].rf == Mhz(Normal(p.rfMhz, RfStd, d.rfZ[i]))
      && r.value[i].amplitude == Some(Normal(p.amplitudeDb, AmplitudeStd, d.amplitudeZ[i]))
      && r.value[i].doa == Some(Normal(p.doaDeg, DoaStd, d.doaZ[i]))
      && r.value[i].timestamp == ClusterTimestamps(OverallStart, OverallEnd, Duration(d), d.offsetNs, d.stampDraws).value[i]
    ensures r.Ok? ==> forall i, j :: 0 <= i < d.pulses && 0 <= j < d.pulses ==>
      r.value[i].timestamp - r.value[j].timestamp < Duration(d)
  {
    var n := d.pulses;
    match Generate(n, p.pri, d.priU, d.priZ)
    case Err(e) => Err(e)
    case Ok(pri) =>
      match Generate(n, p.pw, d.pwU, d.pwZ)
      case Err(e) => Err(e)
      case Ok(pw) =>
        ClusterInsideRange(OverallStart, OverallEnd, Duration(d), d.offsetNs, d.stampDraws);
        var ts := ClusterTimestamps(OverallStart, OverallEnd, Duration(d), d.offsetNs, d.stampDraws).value;
        Ok(seq(n, i requires 0 <= i < n =>
          Row(ts[i], p.id, Label(p.id),
              Mhz(Normal(p.rfMhz, RfStd, d.rfZ[i])),
              Some(pw[i]), Some(pri[i]),
              Some(Normal(p.amplitudeDb, AmplitudeStd, d.amplitudeZ[i])),
              Some(Normal(p.doaDeg, DoaStd, d.doaZ[i])),
              location)))
  }

  /** The pulses drawn over all emitters. */
  function TotalPulses(ds: seq<EmitterDraws>): nat {
    if |ds| == 0 then 0 else ds[0].pulses + TotalPulses(ds[1..])
  }

  /** The configured emitters, the locations assigned to them and the draws
      of their passes line up. */
  predicate Fits(ps: seq<Profile>, locs: map<int, string>, ds: seq<EmitterDraws>) {
    |ps| == |ds| && forall k :: 0 <= k < |ps| ==> ps[k].id in locs && DrawsFitProfile(ps[k], ds[k])
  }

  /** `acc` placed in front of the rows of a later pass, failures passing through. */
  function Prepend(acc: seq<Row>, r: Result<seq<Row>>): Result<seq<Row>> {
    match r
    case Ok(rows) => Ok(acc + rows)
    case Err(e) => Err(e)
  }

  /** The outcomes of the passes, in the order the emitters are processed. */
  function Passes(ps: seq<Profile>, locs: map<int, string>, ds: seq<EmitterDraws>): (r: seq<Result<seq<Row>>>)
    requires Fits(ps, locs, ds)
    ensures |r| == |ps|
    ensures forall k :: 0 <= k < |ps| ==> r[k] == EmitterRows(ps[k], locs[ps[k].id], ds[k])
  {
    seq(|ps|, k requires 0 <= k < |ps| => EmitterRows(ps[k], locs[ps[k].id], ds[k]))
  }

  /** The first failure among the passes, or all their rows laid end to end. */
  function Collect(parts: seq<Result<seq<Row>>>): (r: Result<seq<Row>>)
    ensures r.Ok? <==> forall k :: 0 <= k < |parts| ==> parts[k].Ok?
    decreases |parts|
  {
    if |parts| == 0 then Ok([])
    else
      var rest := Collect(parts[1..]);
      assert forall k :: 1 <= k < |parts| ==> parts[k] == parts[1..][k - 1];
      match parts[0]
      case Err(e) => Err(e)
      case Ok(first) => Prepend(first, rest)
  }

  /** The number of rows the successful passes produced. */
  function Size(parts: seq<Result<seq<Row>>>): nat {
    if |parts| == 0 then 0
    else (if parts[0].Ok? then |parts[0].value| else 0) + Size(parts[1..])
  }

  lemma {:induction false} CollectSize(parts: seq<Result<seq<Row>>>)
    requires Collect(parts).Ok?
    ensures |Collect(parts).value| == Size(parts)
    decreases |parts|
  {
    if |parts| > 0 {
      CollectSize(parts[1..]);
    }
  }

  /** Pass sizes that match the drawn pulse counts add up to the total. */
  lemma {:induction false} SizeIsTotalPulses(parts: seq<Result<seq<Row>>>, ds: seq<EmitterDraws>)
    requires |parts| == |ds|
    requires forall k :: 0 <= k < |parts| ==> parts[k].Ok? && |parts[k].value| == ds[k].pulses
    ensures Size(parts) == TotalPulses(ds)
    decreases |parts|
  {
    if |parts| > 0 {
      assert forall k :: 0 <= k < |parts| - 1 ==> parts[1..][k] == parts[k + 1] && ds[1..][k] == ds[k + 1];
      SizeIsTotalPulses(parts[1..], ds[1..]);
    }
  }

  /** The base table: every emitter's rows in the order the emitters are
      processed, or the first failure raised. */
  function AllRows(ps: seq<Profile>, locs: map<int, string>, ds: seq<EmitterDraws>): (r: Result<seq<Row>>)
    requires Fits(ps, locs, ds)
    ensures r.Ok? <==> forall k :: 0 <= k < |ps| ==> Drawable(ps[k].pri) && Drawable(ps[k].pw)
    ensures r.Ok? ==> |r.value| == TotalPulses(ds)
  {
    var parts := Passes(ps, locs, ds);
    var r := Collect(parts);
    if r.Ok? then
      CollectSize(parts);
      SizeIsTotalPulses(parts, ds);
      r
    else r
  }

  /** `pd.concat(all_data)`: the parts laid end to end. */
  function Concat(parts: seq<seq<Row>>): seq<Row> {
    if |parts| == 0 then [] else Concat(parts[..|parts| - 1]) + parts[|parts| - 1]
  }

  /** The rows before emitter `k`'s block in the base table. */
  function PulsesBefore(ds: seq<EmitterDraws>, k: nat): nat
    requires k <= |ds|
  {
    TotalPulses(ds[..k])
  }

  /** Every row of a collected table comes from one of the passes. */
  lemma {:induction false} CollectMembers(parts: seq<Result<seq<Row>>>)
    requires Collect(parts).Ok?
    ensures forall row :: row in Collect(parts).value ==>
      exists k :: 0 <= k < |parts| && row in parts[k].value
    decreases |parts|
  {
    if |parts| > 0 {
      CollectMembers(parts[1..]);
      forall row | row in Collect(parts).value ensures exists k :: 0 <= k < |parts| && row in parts[k].value {
        if row !in parts[0].value {
          var k :| 0 <= k < |parts[1..]| && row in parts[1..][k].value;
          assert parts[1..][k] == parts[k + 1];
        }
      }
    }
  }

  /** Every row of the base table is a row of one of the configured
      emitters, with that emitter's label and location. */
  lemma AllRowsAreEmitterRows(ps: seq<Profile>, locs: map<int, string>, ds: seq<EmitterDraws>)
    requires Fits(ps, locs, ds) && AllRows(ps, locs, ds).Ok?
    ensures var rows := AllRows(ps, locs, ds).value;
      forall j :: 0 <= j < |rows| ==>
        exists k :: 0 <= k < |ps| && EmitterRow(rows[j], ps[k].id, locs[ps[k].id])
  {
    var parts := Passes(ps, locs, ds);
    var rows := AllRows(ps, locs, ds).value;
    CollectMembers(parts);
    forall j | 0 <= j < |rows| ensures exists k :: 0 <= k < |ps| && EmitterRow(rows[j], ps[k].id, locs[ps[k].id]) {
      assert rows[j] in Collect(parts).value;
      var k :| 0 <= k < |parts| && rows[j] in parts[k].value;
      assert EmitterRow(rows[j], ps[k].id, locs[ps[k].id]);
    }
  }

  /** A block of `b` sits in `a + b` shifted by the length of `a`. */
  lemma BlockShift(a: seq<Row>, b: seq<Row>, i: nat, block: seq<Row>)
    requires i + |block| <= |b| && b[i..i + |block|] == block
    ensures |a| + i + |block| <= |a + b| && (a + b)[|a| + i..|a| + i + |block|] == block
  {
    assert (a + b)[|a| + i..|a| + i + |block|] == b[i..i + |block|];
  }

  /** In a collected table, pass `k`'s rows are the block that starts after
      the rows of the passes before it. */
  lemma {:induction false} CollectBlock(parts: seq<Result<seq<Row>>>, k: nat)
    requires Collect(parts).Ok? && k < |parts|
    ensures Size(parts[..k]) + |parts[k].value| <= |Collect(parts).value|
    ensures Collect(parts).value[Size(parts[..k])..Size(parts[..k]) + |parts[k].value|] == parts[k].value
    decreases k
  {
    var first := parts[0].value;
    var rest := Collect(parts[1..]).value;
    assert Collect(parts).value == first + rest;
    if k == 0 {
      assert parts[..0] == [];
      assert (first + rest)[0..|first|] == first;
    } else {
      CollectBlock(parts[1..], k - 1);
      assert parts[1..][k - 1] == parts[k];
      assert parts[..k][1..] == parts[1..][..k - 1];
      assert Size(parts[..k]) == |first| + Size(parts[1..][..k - 1]);
      BlockShift(first, rest, Size(parts[1..][..k - 1]), parts[k].value);
    }
  }

  /** Rows are concatenated in emitter order: emitter `k`'s rows are exactly
      the block that starts after the pulses of the emitters before it. */
  lemma EmitterBlock(ps: seq<Profile>, locs: map<int, string>, ds: seq<EmitterDraws>, k: nat)
    requires Fits(ps, locs, ds) && AllRows(ps, locs, ds).Ok? && k < |ps|
    ensures EmitterRows(ps[k], locs[ps[k].id], ds[k]).Ok?
    ensures var rows := AllRows(ps, locs, ds).value;
      && PulsesBefore(ds, k) + ds[k].pulses <= |rows|
      && rows[PulsesBefore(ds, k)..PulsesBefore(ds, k) + ds[k].pulses]
         == EmitterRows(ps[k], locs[ps[k].id], ds[k]).value
  {
    var parts := Passes(ps, locs, ds);
    CollectBlock(parts, k);
    assert |parts[..k]| == |ds[..k]|;
    assert forall j :: 0 <= j < k ==> parts[..k][j] == parts[j] && ds[..k][j] == ds[j];
    SizeIsTotalPulses(parts[..k], ds[..k]);
  }

  /** Each emitter contributes between `MinPulses` and `MaxPulses - 1` rows. */
  lemma {:induction false} PulseTotalBounds(ds: seq<EmitterDraws>)
    requires forall k :: 0 <= k < |ds| ==> MinPulses <= ds[k].pulses < MaxPulses
    ensures |ds| * MinPulses <= TotalPulses(ds)
    ensures TotalPulses(ds) <= |ds| * (MaxPulses - 1)
  {
    if |ds| > 0 {
      assert forall k :: 0 <= k < |ds[1..]| ==> ds[1..][k] == ds[k + 1];
      PulseTotalBounds(ds[1..]);
    }
  }

  /** The location loop: every emitter's code is computed once, before any
      pulse is generated, by truncating its full code to the generator's
      precision. */
  method AssignLocations(fullCodes: seq<string>) returns (locs: map<int, string>)
    requires |fullCodes| == NumSystems
    ensures forall id :: id in locs <==> 1 <= id <= NumSystems
    ensures forall id :: 1 <= id <= NumSystems ==> locs[id] == Location.Code(fullCodes[id - 1], Location.Precision)
  {
    locs := map[];
    for id := 1 to NumSystems + 1
      invariant forall j :: j in locs <==> 1 <= j < id
      invariant forall j :: 1 <= j < id ==> locs[j] == Location.Code(fullCodes[j - 1], Location.Precision)
    {
      locs := locs[id := Location.Code(fullCodes[id - 1], Location.Precision)];
    }
  }

  /** One step of the generation loop: the table of passes `i` onwards is
      pass `i`'s rows followed by the rest, or pass `i`'s failure. */
  lemma CollectStep(parts: seq<Result<seq<Row>>>, i: nat)
    requires i < |parts|
    ensures Collect(parts[i..])
      == if parts[i].Ok? then Prepend(parts[i].value, Collect(parts[i + 1..])) else Err(parts[i].error)
  {
    assert parts[i..][0] == parts[i];
    assert parts[i..][1..] == parts[i + 1..];
  }

  lemma PrependConcat(parts: seq<seq<Row>>, part: seq<Row>, r: Result<seq<Row>>)
    ensures Prepend(Concat(parts), Prepend(part, r)) == Prepend(Concat(parts + [part]), r)
  {
    assert (parts + [part])[..|parts|] == parts;
    assert Concat(parts + [part]) == Concat(parts) + part;
    if r.Ok? {
      assert Concat(parts) + (part + r.value) == (Concat(parts) + part) + r.value;
    }
  }

  /** The generation loop over the emitters: each pass's rows are appended
      to a list, and the list is concatenated; a pass that raises ends the
      run with its failure. */
  method GenerateAll(ps: seq<Profile>, locs: map<int, string>, ds: seq<EmitterDraws>) returns (r: Result<seq<Row>>)
    requires Fits(ps, locs, ds)
    ensures r == AllRows(ps, locs, ds)
  {
    ghost var parts := Passes(ps, locs, ds);
    var allData: seq<seq<Row>> := [];
    var i := 0;
    assert parts[0..] == parts;
    assert Concat(allData) == [];
    match Collect(parts) {
      case Ok(rows) => assert [] + rows == rows;
      case Err(_) =>
    }
    while i < |ps|
      invariant 0 <= i <= |ps|
      invariant Collect(parts) == Prepend(Concat(allData), Collect(parts[i..]))
    {
      var p := ps[i];
      CollectStep(parts, i);
      var part := EmitterRows(p, locs[p.id], ds[i]);
      if part.Err? {
        r := Err(part.error);
        return;
      }
      PrependConcat(allData, part.value, Collect(parts[i + 1..]));
      allData := allData + [part.value];
      i := i + 1;
    }
    assert Collect(parts[i..]) == Ok([]);
    assert Concat(allData) + [] == Concat(allData);
    r := Ok(Concat(allData));
  }

  /** With the configured profiles no pass can raise: the base table has
      one row per drawn pulse, between 100 and 1999 per emitter. */
  lemma ConfiguredGenerationSucceeds(locs: map<int, string>, ds: seq<EmitterDraws>)
    requires Fits(Profiles, locs, ds)
    ensures AllRows(Profiles, locs, ds).Ok?
    ensures NumSystems * MinPulses <= |AllRows(Profiles, locs, ds).value| <= NumSystems * (MaxPulses - 1)
  {
    ProfilesWellFormed();
    PulseTotalBounds(ds);
  }
}
