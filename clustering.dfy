/** Temporal clustering: one emitter's pulses are stamped inside a single
    burst window placed at random within the dataset's time range
    (data/pdw_generator.py:85-96).

    The range bounds are whole-second instants given in seconds. The
    burst start offset is the library's uniform draw on `[0, max_start_offset)`
    after it has been turned into a whole number of nanoseconds; each
    timestamp is the integer draw on `[start_u, end_u)` given as its offset
    from `start_u`. */
module Clustering {
  import opened Common

  const NanosPerSecond: int := 1_000_000_000

  /** The dataset's time range: 2025-11-19 00:00:00 to 2025-12-19 23:59:59,
      in seconds since the Unix epoch. */
  const OverallStart: int := 1_763_510_400
  const OverallEnd: int := 1_766_188_799

  /** The burst lengths an emitter may be given, 0.5 h, 1 h and 2 h, in seconds. */
  const ActivityDurations: seq<int> := [1800, 3600, 7200]

  /** A burst window `[startU, endU)` in whole seconds. */
  datatype Window = Window(startU: int, endU: int)

  /** `max_start_offset`: the span of the range less the burst length, in seconds. */
  function MaxStartOffset(overallStart: int, overallEnd: int, durationSec: int): int {
    (overallEnd - overallStart) - durationSec
  }

  /** The nanosecond offsets the uniform draw between 0 and `maxOffsetSec`
      can yield once rounded: nothing stops `maxOffsetSec` from being
      negative, in which case the draw lies between it and 0. */
  predicate OffsetDrawn(offsetNs: int, maxOffsetSec: int) {
    var bound := maxOffsetSec * NanosPerSecond;
    if bound >= 0 then 0 <= offsetNs <= bound else bound <= offsetNs <= 0
  }

  /** `burst_start`, `burst_end` and their floor division to whole seconds.
      The window is exactly as long as the burst. */
  function BurstWindow(overallStart: int, durationSec: int, offsetNs: int): (w: Window)
    ensures w.endU - w.startU == durationSec
    ensures w.startU * NanosPerSecond <= overallStart * NanosPerSecond + offsetNs < (w.startU + 1) * NanosPerSecond
  {
    var startNs := overallStart * NanosPerSecond + offsetNs;
    var endNs := startNs + durationSec * NanosPerSecond;
    Window(startNs / NanosPerSecond, endNs / NanosPerSecond)
  }

  predicate Inside(w: Window, overallStart: int, overallEnd: int) {
    overallStart <= w.startU && w.endU <= overallEnd
  }

  /** The burst window lies inside the dataset's range exactly when the
      burst fits in the range's span: for a longer burst the negative offset
      range is drawn from unchecked and the window spills out. */
  lemma WindowInsideIff(overallStart: int, overallEnd: int, durationSec: int, offsetNs: int)
    requires OffsetDrawn(offsetNs, MaxStartOffset(overallStart, overallEnd, durationSec))
    ensures Inside(BurstWindow(overallStart, durationSec, offsetNs), overallStart, overallEnd)
      <==> durationSec <= overallEnd - overallStart
  {
    var maxOffset := MaxStartOffset(overallStart, overallEnd, durationSec);
    var w := BurstWindow(overallStart, durationSec, offsetNs);
    var q := w.startU - overallStart;
    assert q * NanosPerSecond <= offsetNs < (q + 1) * NanosPerSecond;
    if durationSec <= overallEnd - overallStart {
      assert 0 <= offsetNs <= maxOffset * NanosPerSecond;
      assert 0 <= q <= maxOffset;
    } else {
      assert maxOffset * NanosPerSecond <= offsetNs <= 0;
      assert maxOffset <= q <= 0;
    }
  }

  /** `np.random.randint(start_u, end_u, n)` fed the offsets `k`: each
      timestamp lies in the half-open window, and an empty window is the
      library's `low >= high` error. A request for no values returns an
      empty array before the bounds are checked. */
  function Timestamps(w: Window, k: seq<int>): (r: Result<seq<int>>)
    requires w.startU < w.endU ==> forall i :: 0 <= i < |k| ==> 0 <= k[i] < w.endU - w.startU
    ensures r.Ok? <==> |k| == 0 || w.startU < w.endU
    ensures r.Err? ==> r.error == EmptyRange
    ensures r.Ok? ==> |r.value| == |k|
    ensures r.Ok? ==> forall i :: 0 <= i < |k| ==> w.startU <= r.value[i] < w.endU
  {
    if |k| == 0 then Ok([])
    else if w.endU <= w.startU then Err(EmptyRange)
    else Ok(seq(|k|, i requires 0 <= i < |k| => w.startU + k[i]))
  }

  /** The draws `generate_cluster_timestamp` consumes for `durationSec`.
      The per-pulse offsets only constrain a non-empty window; with an empty
      one `randint` raises before drawing anything. */
  predicate StampDrawsFit(overallStart: int, overallEnd: int, durationSec: int, offsetNs: int, k: seq<int>) {
    && OffsetDrawn(offsetNs, MaxStartOffset(overallStart, overallEnd, durationSec))
    && (durationSec > 0 ==> forall i :: 0 <= i < |k| ==> 0 <= k[i] < durationSec)
  }

  /** `generate_cluster_timestamp(n, overall_start, overall_end, hours)`. */
  function ClusterTimestamps(overallStart: int, overallEnd: int, durationSec: int, offsetNs: int, k: seq<int>): (r: Result<seq<int>>)
    requires StampDrawsFit(overallStart, overallEnd, durationSec, offsetNs, k)
    ensures r.Ok? <==> |k| == 0 || durationSec > 0
    ensures r.Ok? ==> |r.value| == |k|
  {
    Timestamps(BurstWindow(overallStart, durationSec, offsetNs), k)
  }

  /** For a burst that fits the range, every timestamp lies inside the
      range, and all of them lie within one burst length of each other. */
  lemma ClusterInsideRange(overallStart: int, overallEnd: int, durationSec: int, offsetNs: int, k: seq<int>)
    requires StampDrawsFit(overallStart, overallEnd, durationSec, offsetNs, k)
    requires 0 < durationSec <= overallEnd - overallStart
    ensures ClusterTimestamps(overallStart, overallEnd, durationSec, offsetNs, k).Ok?
    ensures var ts := ClusterTimestamps(overallStart, overallEnd, durationSec, offsetNs, k).value;
      && (forall i :: 0 <= i < |ts| ==> overallStart <= ts[i] < overallEnd)
      && (forall i, j :: 0 <= i < |ts| && 0 <= j < |ts| ==> ts[i] - ts[j] < durationSec)
  {
    WindowInsideIff(overallStart, overallEnd, durationSec, offsetNs);
  }

  /** With the configured range, every configured burst length fits, so
      each emitter's pulses stay inside the dataset's month. */
  lemma ConfiguredBurstsFit(choice: nat, offsetNs: int)
    requires choice < |ActivityDurations|
    requires OffsetDrawn(offsetNs, MaxStartOffset(OverallStart, OverallEnd, ActivityDurations[choice]))
    ensures Inside(BurstWindow(OverallStart, ActivityDurations[choice], offsetNs), OverallStart, OverallEnd)
  {
    WindowInsideIff(OverallStart, OverallEnd, ActivityDurations[choice], offsetNs);
  }
}
