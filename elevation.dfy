/** Elevations of GeoJSON positions, and the minimum and maximum taken over them by the
  * expression evaluators. */
module Elevation {
  import opened Numbers
  import opened GeoJson
  import opened Lists

  /** The third coordinate of a position, 0 when it has none (`coords[2] ?? 0`). */
  function Z(p: Position): real
  {
    if |p| > 2 then p[2] else 0.0
  }

  /** The elevations of a run of positions, as numbers, in order. */
  function ZNumbers(ps: seq<Position>): (zs: seq<Number>)
    ensures |zs| == |ps|
  {
    Finites(seq(|ps|, i requires 0 <= i < |ps| => Z(ps[i])))
  }

  /** The elevations of a run of positions, as reals. */
  function ZValues(ps: seq<Position>): (zs: seq<real>)
    ensures Finites(zs) == ZNumbers(ps)
  {
    seq(|ps|, i requires 0 <= i < |ps| => Z(ps[i]))
  }

  lemma ZNumbersAppend(a: seq<Position>, b: seq<Position>)
    ensures ZNumbers(a + b) == ZNumbers(a) + ZNumbers(b)
  {
  }

  /** The minimum of each inner sequence, in order (`xss.map(xs => Math.min(...xs))`). */
  function Mins(xss: seq<seq<Number>>): (ms: seq<Number>)
    ensures |ms| == |xss|
  {
    seq(|xss|, i requires 0 <= i < |xss| => MathMin(xss[i]))
  }

  /** Taking the minimum of the minima is taking the minimum of everything. */
  lemma {:induction false} MinOfMins(xss: seq<seq<Number>>)
    ensures MathMin(Mins(xss)) == MathMin(Flatten(xss))
  {
    if |xss| > 0 {
      var init := xss[..|xss| - 1];
      var last := xss[|xss| - 1];
      MinOfMins(init);
      assert Mins(xss)[..|xss| - 1] == Mins(init);
      assert xss == init + [last];
      FlattenSnoc(init, last);
      MathMinAppend(Flatten(init), last);
    }
  }

  /** The elevations of each ring, ring by ring. */
  function RingZNumbers(rings: seq<seq<Position>>): (zss: seq<seq<Number>>)
    ensures |zss| == |rings|
  {
    seq(|rings|, i requires 0 <= i < |rings| => ZNumbers(rings[i]))
  }

  lemma {:induction false} RingZNumbersFlatten(rings: seq<seq<Position>>)
    ensures Flatten(RingZNumbers(rings)) == ZNumbers(Flatten(rings))
  {
    if |rings| > 0 {
      RingZNumbersFlatten(rings[1..]);
      assert RingZNumbers(rings)[1..] == RingZNumbers(rings[1..]);
      ZNumbersAppend(rings[0], Flatten(rings[1..]));
    }
  }

  /** A polygon's least elevation computed ring by ring (`Math.min` of the rings' `Math.min`). */
  function PolygonMinZ(rings: seq<seq<Position>>): Number
  {
    MathMin(Mins(RingZNumbers(rings)))
  }

  /** ... is the least elevation over all of its positions. */
  lemma PolygonMinZIsFlat(rings: seq<seq<Position>>)
    ensures PolygonMinZ(rings) == MathMin(ZNumbers(Flatten(rings)))
  {
    MinOfMins(RingZNumbers(rings));
    RingZNumbersFlatten(rings);
  }
}
