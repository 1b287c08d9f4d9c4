/** The generator's static configuration: the emitter profiles, their
    radar-function labels, the pulse-count range and the shared noise
    levels of the unmodulated features (data/pdw_generator.py:7-56). */
module Config {
  import opened Common
  import opened Modulation

  const NumSystems: nat := 10

  /** Pulses per emitter are drawn from `[MinPulses, MaxPulses)`. */
  const MinPulses: nat := 100
  const MaxPulses: nat := 2000

  /** Standard deviations of RF (MHz), amplitude (dB) and DOA (degrees),
      shared by every emitter. */
  const RfStd: real := 50.0
  const AmplitudeStd: real := 5.0
  const DoaStd: real := 15.0

  /** One emitter's static signature. */
  datatype Profile = Profile(
    id: int,
    rfMhz: real,
    amplitudeDb: real,
    doaDeg: real,
    pri: Spec,
    pw: Spec)

  const FunctionMap: map<int, string> := map[
    1 := "Medium-Range Surveillance",
    2 := "Short-Range Fire Control/Tracking",
    3 := "Naval/Ground Surveillance",
    4 := "Target Acquisition/Tracking",
    5 := "Air Traffic Control",
    6 := "Early Warning",
    7 := "Target Illumination",
    8 := "Medium-Range Search/Ground Mapping",
    9 := "Coastal Defense",
    10 := "Long-Range Tracking/Weather"]

  /** The profiles in the order the generator iterates over them. */
  const Profiles: seq<Profile> := [
    Profile(1, 9200.0, 15.0, 45.0, Fixed(200.0, Some(5.0)), Fixed(3.5, Some(0.5))),
    Profile(2, 10500.0, 8.0, 110.0, Staggered([50.0, 75.0, 100.0], Some(2.0)), Fixed(0.8, Some(0.5))),
    Profile(3, 8100.0, 12.0, 270.0, Jittered(300.0, 500.0, Some(5.0)), Fixed(1.5, Some(0.5))),
    Profile(4, 9800.0, 18.0, 20.0, Fixed(120.0, Some(5.0)), Staggered([1.0, 2.0, 3.0, 4.0], Some(0.5))),
    Profile(5, 11200.0, 5.0, 315.0, Jittered(750.0, 850.0, Some(5.0)), Staggered([0.2, 0.4], Some(0.5))),
    Profile(6, 9250.0, 16.0, 10.0, Staggered([400.0, 450.0], Some(5.0)), Fixed(5.0, Some(0.5))),
    Profile(7, 10450.0, 7.0, 190.0, Fixed(50.0, Some(5.0)), Jittered(1.5, 2.5, Some(0.5))),
    Profile(8, 9750.0, 17.0, 90.0, Staggered([350.0, 400.0, 450.0], Some(5.0)), Fixed(2.5, Some(0.5))),
    Profile(9, 8050.0, 11.0, 220.0, Staggered([110.0, 130.0], Some(5.0)), Fixed(1.8, Some(0.5))),
    Profile(10, 11150.0, 6.0, 340.0, Fixed(800.0, Some(5.0)), Jittered(0.5, 1.5, Some(0.5)))]

  /** `df['Emitter_ID'].map(EMITTER_FUNCTION_MAP)`: the label, or NaN for an
      identifier the table does not know. */
  function Label(id: int): (r: Option<string>)
    ensures r.Some? <==> id in FunctionMap
    ensures r.Some? ==> r.value == FunctionMap[id]
  {
    if id in FunctionMap then Some(FunctionMap[id]) else None
  }

  /** A modulation spec the generator can draw from without raising: a
      non-negative scale and, for a stagger, at least one level. */
  predicate Drawable(spec: Spec) {
    Scale(spec) >= 0.0 && (spec.Staggered? ==> |spec.values| > 0)
  }

  /** The configuration is consistent: profile `k` is emitter `k + 1`, every
      emitter has a label, and no modulation spec can make the generator
      raise. */
  lemma ProfilesWellFormed()
    ensures |Profiles| == NumSystems
    ensures forall k :: 0 <= k < |Profiles| ==>
      && Profiles[k].id == k + 1
      && Profiles[k].id in FunctionMap
      && Drawable(Profiles[k].pri)
      && Drawable(Profiles[k].pw)
  {
    forall k | 0 <= k < |Profiles|
      ensures Profiles[k].id == k + 1 && Profiles[k].id in FunctionMap
      ensures Drawable(Profiles[k].pri) && Drawable(Profiles[k].pw)
    {
      if k == 0 {} else if k == 1 {} else if k == 2 {} else if k == 3 {} else if k == 4 {}
      else if k == 5 {} else if k == 6 {} else if k == 7 {} else if k == 8 {} else {}
    }
  }
}
