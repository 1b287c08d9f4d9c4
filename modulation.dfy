/** The modulation model: how a PRI or PW sequence of `n` pulses is drawn
    under one of three regimes (data/pdw_generator.py:59-83).

    Every random draw is an input. A normal draw with location `loc` and
    scale `s` is `loc + s * z` for a standard-normal draw `z`; a uniform
    draw on `[lo, hi)` is `lo + (hi - lo) * u` for a unit draw `0 <= u < 1`,
    which is how the numeric library computes it. */
module Modulation {
  import opened Common

  /** The floor every generated value is clamped to (`np.maximum(..., 0.01)`). */
  const Floor: real := 0.01

  /** The standard deviation used when a spec gives none (`params.get('std', 0.1)`). */
  const DefaultStd: real := 0.1

  /** The three modulation regimes; `std` is absent when the spec leaves it out. */
  datatype Spec =
    | Fixed(mean: real, std: Option<real>)
    | Staggered(values: seq<real>, std: Option<real>)
    | Jittered(min: real, max: real, std: Option<real>)

  function Scale(spec: Spec): real {
    match spec.std
    case Some(s) => s
    case None => DefaultStd
  }

  /** `np.maximum(x, 0.01)` on one element: raises a value to the floor and
      leaves it alone otherwise. */
  function Clamp(x: real): (r: real)
    ensures r >= Floor && r >= x
    ensures r == x || r == Floor
    ensures x >= Floor ==> r == x
  {
    if x < Floor then Floor else x
  }

  /** `np.random.normal(loc, scale)` fed the standard-normal draw `z`. */
  function Normal(loc: real, scale: real, z: real): real {
    loc + scale * z
  }

  /** `np.maximum(levels + np.random.normal(0, s, n), 0.01)`, element by element. */
  function Floored(levels: seq<real>, s: real, z: seq<real>): (r: seq<real>)
    requires |z| == |levels|
    ensures |r| == |levels|
    ensures forall i :: 0 <= i < |levels| ==> r[i] == Clamp(Normal(levels[i], s, z[i]))
  {
    seq(|levels|, i requires 0 <= i < |levels| => Clamp(levels[i] + Normal(0.0, s, z[i])))
  }

  predicate UnitDraws(u: seq<real>) {
    forall i :: 0 <= i < |u| ==> 0.0 <= u[i] < 1.0
  }

  /** The draws one call of the generator consumes: `n` normal draws, and
      for the jittered regime `n` unit-uniform draws as well. */
  predicate DrawsFit(spec: Spec, n: nat, u: seq<real>, z: seq<real>) {
    |z| == n && (spec.Jittered? ==> |u| == n && UnitDraws(u))
  }

  /** `np.random.uniform(lo, hi)` fed the unit draw `u`. */
  function Uniform(lo: real, hi: real, u: real): real {
    lo + (hi - lo) * u
  }

  /** The value pulse `i` is centred on before noise: the mean, the cyclic
      level, or the uniform draw. */
  function Level(spec: Spec, i: nat, u: seq<real>): real
    requires spec.Staggered? ==> |spec.values| > 0
    requires spec.Jittered? ==> i < |u|
  {
    match spec
    case Fixed(mean, _) => mean
    case Staggered(values, _) => values[i % |values|]
    case Jittered(lo, hi, _) => Uniform(lo, hi, u[i])
  }

  /** `generate_fixed_params`: `n` normal draws around the mean, floored. */
  function GenerateFixed(n: nat, spec: Spec, z: seq<real>): (r: Result<seq<real>>)
    requires spec.Fixed? && |z| == n
    ensures r.Ok? <==> Scale(spec) >= 0.0
    ensures r.Err? ==> r.error == NegativeScale
    ensures r.Ok? ==> |r.value| == n && forall i :: 0 <= i < n ==> r.value[i] >= Floor
  {
    var s := Scale(spec);
    if s < 0.0 then Err(NegativeScale)
    else Ok(Floored(seq(n, _ => spec.mean), s, z))
  }

  /** `generate_staggered_params`: the levels repeated cyclically, plus
      zero-mean normal jitter, floored. The cyclic index is computed before
      any draw, so an empty pattern fails first. */
  function GenerateStaggered(n: nat, spec: Spec, z: seq<real>): (r: Result<seq<real>>)
    requires spec.Staggered? && |z| == n
    ensures r.Ok? <==> (n == 0 || |spec.values| > 0) && Scale(spec) >= 0.0
    ensures r.Err? ==> r.error == (if n > 0 && |spec.values| == 0 then NoLevels else NegativeScale)
    ensures r.Ok? ==> |r.value| == n && forall i :: 0 <= i < n ==> r.value[i] >= Floor
  {
    var values := spec.values;
    if n > 0 && |values| == 0 then Err(NoLevels)
    else
      var base := seq(n, i requires 0 <= i < n => values[i % |values|]);
      var s := Scale(spec);
      if s < 0.0 then Err(NegativeScale)
      else Ok(Floored(base, s, z))
  }

  /** `generate_jittered_params`: a uniform draw on `[min, max)` plus
      zero-mean normal jitter, floored. */
  function GenerateJittered(n: nat, spec: Spec, u: seq<real>, z: seq<real>): (r: Result<seq<real>>)
    requires spec.Jittered? && |u| == n && |z| == n
    ensures r.Ok? <==> Scale(spec) >= 0.0
    ensures r.Err? ==> r.error == NegativeScale
    ensures r.Ok? ==> |r.value| == n && forall i :: 0 <= i < n ==> r.value[i] >= Floor
  {
    var base := seq(n, i requires 0 <= i < n => Uniform(spec.min, spec.max, u[i]));
    var s := Scale(spec);
    if s < 0.0 then Err(NegativeScale)
    else Ok(Floored(base, s, z))
  }

  /** `MODULATION_FUNCTIONS[spec['type']](n, spec)`: the closed dispatch on
      the regime. Whatever the regime, pulse `i` is its level plus its
      scaled noise draw, floored at 0.01. */
  function Generate(n: nat, spec: Spec, u: seq<real>, z: seq<real>): (r: Result<seq<real>>)
    requires DrawsFit(spec, n, u, z)
    ensures r.Ok? <==> Scale(spec) >= 0.0 && (spec.Staggered? && n > 0 ==> |spec.values| > 0)
    ensures r.Ok? ==> |r.value| == n
    ensures r.Ok? ==> forall i :: 0 <= i < n ==>
      r.value[i] == Clamp(Normal(Level(spec, i, u), Scale(spec), z[i]))
  {
    match spec
    case Fixed(_, _) => GenerateFixed(n, spec, z)
    case Staggered(_, _) => GenerateStaggered(n, spec, z)
    case Jittered(_, _, _) => GenerateJittered(n, spec, u, z)
  }

  /** Every generated value is a positive magnitude of at least 0.01, and
      flooring never lowers a value. */
  lemma GeneratedAboveFloor(n: nat, spec: Spec, u: seq<real>, z: seq<real>, i: nat)
    requires DrawsFit(spec, n, u, z) && Generate(n, spec, u, z).Ok? && i < n
    ensures Generate(n, spec, u, z).value[i] >= Floor
    ensures Generate(n, spec, u, z).value[i] >= Normal(Level(spec, i, u), Scale(spec), z[i])
  {
  }

  /** With zero noise the fixed regime gives `max(mean, 0.01)` for every pulse. */
  lemma FixedWithoutNoise(n: nat, spec: Spec, z: seq<real>, i: nat)
    requires spec.Fixed? && |z| == n && i < n && Scale(spec) == 0.0
    ensures GenerateFixed(n, spec, z).Ok?
    ensures GenerateFixed(n, spec, z).value[i] == if spec.mean >= Floor then spec.mean else Floor
  {
  }

  /** The staggered level at pulse `i` depends only on `i mod len(values)`:
      two pulses a whole number of periods apart whose noise draws agree get
      the same value, whatever was drawn in between. */
  lemma StaggeredIsPeriodic(n: nat, spec: Spec, z: seq<real>, i: nat, j: nat)
    requires spec.Staggered? && |spec.values| > 0 && |z| == n && Scale(spec) >= 0.0
    requires i < n && j < n && i % |spec.values| == j % |spec.values| && z[i] == z[j]
    ensures GenerateStaggered(n, spec, z).Ok?
    ensures GenerateStaggered(n, spec, z).value[i] == GenerateStaggered(n, spec, z).value[j]
  {
  }

  /** With zero noise, staggered pulse `i` is exactly level `i mod len(values)`
      whenever that level is at least the floor. */
  lemma StaggeredWithoutNoise(n: nat, spec: Spec, z: seq<real>, i: nat)
    requires spec.Staggered? && |spec.values| > 0 && |z| == n && i < n && Scale(spec) == 0.0
    requires spec.values[i % |spec.values|] >= Floor
    ensures GenerateStaggered(n, spec, z).Ok?
    ensures GenerateStaggered(n, spec, z).value[i] == spec.values[i % |spec.values|]
  {
  }

  /** A unit draw lands the uniform value inside `[lo, hi]`. */
  lemma UniformWithin(lo: real, hi: real, u: real)
    requires lo <= hi && 0.0 <= u < 1.0
    ensures lo <= Uniform(lo, hi, u) <= hi
    ensures lo < hi ==> Uniform(lo, hi, u) < hi
  {
    var d := hi - lo;
    assert Uniform(lo, hi, u) == lo + d * u;
    assert d * u >= 0.0;
    if d > 0.0 {
      var e := 1.0 - u;
      assert d * e > 0.0;
      assert d * u == d - d * e;
    }
  }

  /** With zero noise and `min >= 0.01`, every jittered value lies in `[min, max]`. */
  lemma JitteredWithoutNoise(n: nat, spec: Spec, u: seq<real>, z: seq<real>, i: nat)
    requires spec.Jittered? && |u| == n && UnitDraws(u) && |z| == n && i < n
    requires Scale(spec) == 0.0 && Floor <= spec.min <= spec.max
    ensures GenerateJittered(n, spec, u, z).Ok?
    ensures spec.min <= GenerateJittered(n, spec, u, z).value[i] <= spec.max
  {
    UniformWithin(spec.min, spec.max, u[i]);
  }
}
