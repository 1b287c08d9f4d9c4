/** Truncating a full grid-reference (MGRS) code to a chosen precision
    (data/pdw_generator.py:98-103). The full code comes from the external
    geodetic encoder: five characters of grid zone and 100 km square, then
    five easting digits and five northing digits. The truncated code keeps
    the prefix and the leading `precision` digits of each coordinate. */
module Location {

  /** The precision the generator asks for: a 100 m grid reference. */
  const Precision: nat := 3

  function Min(a: nat, b: nat): nat {
    if a <= b then a else b
  }

  /** Python's `s[lo:hi]` for non-negative bounds: out-of-range bounds are
      cut back to the string's length, and a reversed range is empty. */
  function Slice(s: string, lo: nat, hi: nat): (r: string)
    ensures |r| == if lo < hi && lo < |s| then Min(hi, |s|) - lo else 0
    ensures forall k :: 0 <= k < |r| ==> r[k] == s[lo + k]
  {
    if hi <= lo || |s| <= lo then [] else s[lo..Min(hi, |s|)]
  }

  /** `full[:5] + full[5:5+precision] + full[10:10+precision]`. */
  function Code(full: string, precision: nat): (r: string)
    ensures |r| <= 5 + 2 * precision
    ensures |r| <= |full| + precision
  {
    Slice(full, 0, 5) + Slice(full, 5, 5 + precision) + Slice(full, 10, 10 + precision)
  }

  /** On a full 15-character code and a precision up to 5, the truncated
      code is the prefix, the leading `precision` easting digits and the
      leading `precision` northing digits, `5 + 2 * precision` characters. */
  lemma CodeOfFullCode(full: string, precision: nat)
    requires |full| == 15 && precision <= 5
    ensures |Code(full, precision)| == 5 + 2 * precision
    ensures Code(full, precision) == full[..5] + full[5..5 + precision] + full[10..10 + precision]
  {
    assert Slice(full, 0, 5) == full[..5];
    assert Slice(full, 5, 5 + precision) == full[5..5 + precision];
    assert Slice(full, 10, 10 + precision) == full[10..10 + precision];
  }

  /** At the generator's precision a full code becomes 11 characters: the
      5-character prefix, 3 easting digits and 3 northing digits. */
  lemma SixDigitCode(full: string)
    requires |full| == 15
    ensures var c := Code(full, Precision);
      && |c| == 11
      && c[..5] == full[..5]
      && c[5..8] == full[5..8]
      && c[8..11] == full[10..13]
  {
    CodeOfFullCode(full, Precision);
  }
}
