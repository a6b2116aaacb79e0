/** Vertex and point types shared by the tessellator and the scorer, and the
    folds (sum, min, max, mean) the service runs over a polygon's vertices. */
module Coordinates {

  /** A `[lat, lng]` pair, the order used by the API and the scorer. */
  datatype LatLng = LatLng(lat: real, lng: real)

  /** A planar point in the geometry library's `(x, y)` order: `x` is the
      longitude and `y` the latitude. */
  datatype XY = XY(x: real, y: real)

  /** The point with its axes swapped into `[lat, lng]` order. */
  function ToLatLng(p: XY): LatLng
  {
    LatLng(p.y, p.x)
  }

  function Lats(cs: seq<LatLng>): seq<real>
  {
    seq(|cs|, i requires 0 <= i < |cs| => cs[i].lat)
  }

  function Lngs(cs: seq<LatLng>): seq<real>
  {
    seq(|cs|, i requires 0 <= i < |cs| => cs[i].lng)
  }

  /** Two-argument `min`: the first argument unless the second is smaller. */
  function Min2(a: real, b: real): real
  {
    if b < a then b else a
  }

  /** Two-argument `max`: the first argument unless the second is larger. */
  function Max2(a: real, b: real): real
  {
    if b > a then b else a
  }

  /** `sum(s)`, accumulated left to right from 0. */
  function Sum(s: seq<real>): real
  {
    if s == [] then 0.0 else Sum(s[..|s| - 1]) + s[|s| - 1]
  }

  /** `min(s)` for a non-empty sequence, folded left to right. */
  function Min(s: seq<real>): (m: real)
    requires |s| > 0
    ensures m in s
    ensures forall i :: 0 <= i < |s| ==> m <= s[i]
  {
    if |s| == 1 then s[0] else Min2(Min(s[..|s| - 1]), s[|s| - 1])
  }

  /** `max(s)` for a non-empty sequence, folded left to right. */
  function Max(s: seq<real>): (m: real)
    requires |s| > 0
    ensures m in s
    ensures forall i :: 0 <= i < |s| ==> s[i] <= m
  {
    if |s| == 1 then s[0] else Max2(Max(s[..|s| - 1]), s[|s| - 1])
  }

  /** `sum(s) / len(s)`. */
  function Mean(s: seq<real>): (m: real)
    requires |s| > 0
    ensures |s| as real * m == Sum(s)
  {
    Sum(s) / |s| as real
  }

  /** A sum of values that all lie in [lo, hi] lies between |s|*lo and |s|*hi. */
  lemma {:induction false} SumBetween(s: seq<real>, lo: real, hi: real)
    requires forall i :: 0 <= i < |s| ==> lo <= s[i] <= hi
    ensures |s| as real * lo <= Sum(s) <= |s| as real * hi
  {
    if s != [] {
      var init := s[..|s| - 1];
      assert forall i :: 0 <= i < |init| ==> init[i] == s[i];
      SumBetween(init, lo, hi);
      assert |s| as real * lo == |init| as real * lo + lo;
      assert |s| as real * hi == |init| as real * hi + hi;
    }
  }

  /** Dividing n*lo <= t <= n*hi by a positive n keeps the bounds. */
  lemma DivideBounds(t: real, n: real, lo: real, hi: real)
    requires n > 0.0
    requires n * lo <= t <= n * hi
    ensures lo <= t / n <= hi
  {
  }

  /** The mean of values that all lie in [lo, hi] lies in [lo, hi]. */
  lemma MeanWithin(s: seq<real>, lo: real, hi: real)
    requires |s| > 0
    requires forall i :: 0 <= i < |s| ==> lo <= s[i] <= hi
    ensures lo <= Mean(s) <= hi
  {
    SumBetween(s, lo, hi);
    DivideBounds(Sum(s), |s| as real, lo, hi);
  }

  /** The mean of a non-empty sequence lies between its minimum and maximum. */
  lemma MeanBetween(s: seq<real>)
    requires |s| > 0
    ensures Min(s) <= Mean(s) <= Max(s)
  {
    MeanWithin(s, Min(s), Max(s));
  }
}
