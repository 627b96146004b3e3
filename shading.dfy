/** Height range tracking and height-based vertex colouring.

    The mesh builder keeps a running minimum and maximum of the sampled
    heights, then colours every vertex by evaluating the colour gradient at
    the vertex's height normalised into that range. */
module Shading {
  import opened Geometry

  // ---------------------------------------------------------------------------
  // Running height range
  // ---------------------------------------------------------------------------

  /** The maximum the height loop holds after visiting the first `n` vertices
      of `vs` in order, starting from `seed` and replacing it whenever a
      height is strictly greater. */
  function RunningMax(seed: real, vs: seq<Vector3>, n: nat): real
    requires n <= |vs|
  {
    if n == 0 then seed
    else
      var m := RunningMax(seed, vs, n - 1);
      if vs[n - 1].y > m then vs[n - 1].y else m
  }

  /** One step of the maximum: visiting vertex `n` moves from prefix `n` to
      prefix `next = n + 1`. */
  lemma RunningMaxNext(seed: real, vs: seq<Vector3>, n: nat, next: nat)
    requires next == n + 1 <= |vs|
    ensures RunningMax(seed, vs, next) ==
            if vs[n].y > RunningMax(seed, vs, n) then vs[n].y else RunningMax(seed, vs, n)
  {
  }

  /** The minimum the height loop holds after visiting the first `n` vertices
      of `vs` in order, starting from `seed` and replacing it whenever a
      height is strictly smaller. */
  function RunningMin(seed: real, vs: seq<Vector3>, n: nat): real
    requires n <= |vs|
  {
    if n == 0 then seed
    else
      var m := RunningMin(seed, vs, n - 1);
      if vs[n - 1].y < m then vs[n - 1].y else m
  }

  /** One step of the minimum: visiting vertex `n` moves from prefix `n` to
      prefix `next = n + 1`. */
  lemma RunningMinNext(seed: real, vs: seq<Vector3>, n: nat, next: nat)
    requires next == n + 1 <= |vs|
    ensures RunningMin(seed, vs, next) ==
            if vs[n].y < RunningMin(seed, vs, n) then vs[n].y else RunningMin(seed, vs, n)
  {
  }

  /** The running maximum is an upper bound of the seed and of every height
      visited, and it is attained: it is the seed or one of those heights. */
  lemma {:induction false} RunningMaxBounds(seed: real, vs: seq<Vector3>, n: nat)
    requires n <= |vs|
    ensures seed <= RunningMax(seed, vs, n)
    ensures forall j :: 0 <= j < n ==> vs[j].y <= RunningMax(seed, vs, n)
    ensures RunningMax(seed, vs, n) == seed ||
            exists j :: 0 <= j < n && vs[j].y == RunningMax(seed, vs, n)
  {
    if n != 0 {
      RunningMaxBounds(seed, vs, n - 1);
      if RunningMax(seed, vs, n) != seed && RunningMax(seed, vs, n) != vs[n - 1].y {
        var j :| 0 <= j < n - 1 && vs[j].y == RunningMax(seed, vs, n - 1);
        assert vs[j].y == RunningMax(seed, vs, n);
      }
    }
  }

  /** The running minimum is a lower bound of the seed and of every height
      visited, and it is attained: it is the seed or one of those heights. */
  lemma {:induction false} RunningMinBounds(seed: real, vs: seq<Vector3>, n: nat)
    requires n <= |vs|
    ensures RunningMin(seed, vs, n) <= seed
    ensures forall j :: 0 <= j < n ==> RunningMin(seed, vs, n) <= vs[j].y
    ensures RunningMin(seed, vs, n) == seed ||
            exists j :: 0 <= j < n && vs[j].y == RunningMin(seed, vs, n)
  {
    if n != 0 {
      RunningMinBounds(seed, vs, n - 1);
      if RunningMin(seed, vs, n) != seed && RunningMin(seed, vs, n) != vs[n - 1].y {
        var j :| 0 <= j < n - 1 && vs[j].y == RunningMin(seed, vs, n - 1);
        assert vs[j].y == RunningMin(seed, vs, n);
      }
    }
  }

  // ---------------------------------------------------------------------------
  // Normalisation and colour
  // ---------------------------------------------------------------------------

  /** Sign facts about `n / d` for a positive `d`. */
  lemma QuotientSign(n: real, d: real)
    ensures 0.0 < d ==> (n / d <= 0.0 <==> n <= 0.0)
    ensures 0.0 < d ==> (n / d >= 1.0 <==> n >= d)
    ensures 0.0 < d ==> (n / d) * d == n
  {
    if 0.0 < d {
      var f := n / d;
      assert f * d == n;
      if f <= 0.0 { assert f * d <= 0.0; }
      if n <= 0.0 { assert f <= 0.0; }
    }
  }

  function Clamp01(v: real): real
  {
    if v < 0.0 then 0.0 else if v > 1.0 then 1.0 else v
  }

  /** Where `value` lies between `a` and `b`, as a fraction clamped to
      `[0, 1]`; 0 when the two bounds coincide. */
  function InverseLerp(a: real, b: real, value: real): (t: real)
    ensures 0.0 <= t <= 1.0
    ensures a == b ==> t == 0.0
    ensures a < b ==> (t == 0.0 <==> value <= a)
    ensures a < b ==> (t == 1.0 <==> b <= value)
    ensures a < b && a <= value <= b ==> t * (b - a) == value - a
  {
    QuotientSign(value - a, b - a);
    if a != b then Clamp01((value - a) / (b - a)) else 0.0
  }

  /** For bounds `a < b` a higher value is never mapped lower. */
  lemma InverseLerpMonotone(a: real, b: real, v1: real, v2: real)
    requires a < b && v1 <= v2
    ensures InverseLerp(a, b, v1) <= InverseLerp(a, b, v2)
  {
    QuotientSign(v2 - v1, b - a);
    assert (v2 - v1) / (b - a) == (v2 - a) / (b - a) - (v1 - a) / (b - a);
  }

  /** The colour array: vertex `j` gets the gradient evaluated at its height
      normalised into `[lo, hi]`. */
  function VertexColours(vs: seq<Vector3>, lo: real, hi: real, gradient: real -> Color): (cs: seq<Color>)
    ensures |cs| == |vs|
  {
    seq(|vs|, j requires 0 <= j < |vs| => gradient(InverseLerp(lo, hi, vs[j].y)))
  }

  /** With the range the height loop tracked, clamping never bites: every
      vertex's colour parameter is its exact position in the range. */
  lemma HeightRangeUnclamped(vs: seq<Vector3>, minSeed: real, maxSeed: real, j: nat)
    requires j < |vs|
    requires RunningMin(minSeed, vs, |vs|) < RunningMax(maxSeed, vs, |vs|)
    ensures InverseLerp(RunningMin(minSeed, vs, |vs|), RunningMax(maxSeed, vs, |vs|), vs[j].y)
            * (RunningMax(maxSeed, vs, |vs|) - RunningMin(minSeed, vs, |vs|))
            == vs[j].y - RunningMin(minSeed, vs, |vs|)
  {
    HeightInRange(vs, minSeed, maxSeed, j);
    InRangeExact(RunningMin(minSeed, vs, |vs|), RunningMax(maxSeed, vs, |vs|), vs[j].y);
  }

  /** Every height lies inside the tracked range. */
  lemma HeightInRange(vs: seq<Vector3>, minSeed: real, maxSeed: real, j: nat)
    requires j < |vs|
    ensures RunningMin(minSeed, vs, |vs|) <= vs[j].y <= RunningMax(maxSeed, vs, |vs|)
  {
    RunningMinBounds(minSeed, vs, |vs|);
    RunningMaxBounds(maxSeed, vs, |vs|);
  }

  lemma InRangeExact(lo: real, hi: real, v: real)
    requires lo <= v <= hi && lo < hi
    ensures InverseLerp(lo, hi, v) * (hi - lo) == v - lo
  {
  }

  /** When the tracked range is not empty, a vertex at the tracked maximum
      gets the gradient's end colour and one at the tracked minimum its start
      colour. From zero seeds the lowest vertex is at the tracked minimum only
      when some height is at most 0. */
  lemma ExtremeVertexColours(vs: seq<Vector3>, minSeed: real, maxSeed: real,
                             gradient: real -> Color, j: nat)
    requires j < |vs|
    requires RunningMin(minSeed, vs, |vs|) < RunningMax(maxSeed, vs, |vs|)
    ensures vs[j].y == RunningMax(maxSeed, vs, |vs|) ==>
              VertexColours(vs, RunningMin(minSeed, vs, |vs|), RunningMax(maxSeed, vs, |vs|), gradient)[j] == gradient(1.0)
    ensures vs[j].y == RunningMin(minSeed, vs, |vs|) ==>
              VertexColours(vs, RunningMin(minSeed, vs, |vs|), RunningMax(maxSeed, vs, |vs|), gradient)[j] == gradient(0.0)
  {
    var lo, hi := RunningMin(minSeed, vs, |vs|), RunningMax(maxSeed, vs, |vs|);
    assert VertexColours(vs, lo, hi, gradient)[j] == gradient(InverseLerp(lo, hi, vs[j].y));
  }

  /** A flat field at height 0, with both seeds at 0, has an empty height
      range and every vertex gets the gradient's start colour: no division by
      zero happens. */
  lemma FlatFieldOneColour(vs: seq<Vector3>, gradient: real -> Color)
    requires forall j :: 0 <= j < |vs| ==> vs[j].y == 0.0
    ensures RunningMin(0.0, vs, |vs|) == 0.0 && RunningMax(0.0, vs, |vs|) == 0.0
    ensures forall j :: 0 <= j < |vs| ==>
              VertexColours(vs, RunningMin(0.0, vs, |vs|), RunningMax(0.0, vs, |vs|), gradient)[j] == gradient(0.0)
  {
    RunningMinBounds(0.0, vs, |vs|);
    RunningMaxBounds(0.0, vs, |vs|);
  }

  /** With both seeds at 0, a field whose heights are all above 0 keeps the
      minimum at 0: the range is not the heights' own range, and no vertex,
      not even the lowest, gets the gradient's start parameter. */
  lemma PositiveFieldKeepsZeroMin(vs: seq<Vector3>)
    requires forall j :: 0 <= j < |vs| ==> vs[j].y > 0.0
    ensures RunningMin(0.0, vs, |vs|) == 0.0
    ensures forall j :: 0 <= j < |vs| ==>
              InverseLerp(RunningMin(0.0, vs, |vs|), RunningMax(0.0, vs, |vs|), vs[j].y) > 0.0
  {
    RunningMinBounds(0.0, vs, |vs|);
    RunningMaxBounds(0.0, vs, |vs|);
  }
}
