/** The legacy server's conversion of GeoJSON features into POLYHEDRALSURFACE Z geometries.
  * It shares the frontend's coordinate parsing, triangulation and walls, always keeps the
  * bottom surface, and also extrudes points (buffered into a small polygon) and lines (offset
  * into a closed ring, after splitting them at sharp corners). */
module JsPolyhedron {
  import opened Wrappers
  import opened Numbers
  import opened Lists
  import opened GeoJson
  import opened JsValues
  import opened Surfaces
  import TsPolyhedron

  /** `turfAngle(a, b, c)`: the angle at `b`, in degrees. */
  type Angle = (Position, Position, Position) -> real

  /** `turfBuffer(point, width, { steps: 4 })`: the outer ring of the buffer polygon, or
    * nothing when turf returns no polygon. */
  type TurfBuffer = (Vec3, real) -> Option<seq<Position>>

  /** `turfLineOffset(line, distance)?.geometry?.coordinates || []`, or nothing when turf
    * throws. */
  type TurfLineOffset = (seq<Vec3>, real) -> Option<seq<Position>>

  /** The options `computeOptions` gives a feature. */
  datatype LegacyOptions = LegacyOptions(
    lowerLimit: Option<real>,
    upperLimit: Option<real>,
    translateZ: Option<real>,
    width: Option<real>)

  /** `Math.round`: halves round up. */
  function MathRound(r: real): int
  {
    (r + 0.5).Floor
  }

  /** `width || 1` */
  function WidthOrOne(width: Option<real>): real
  {
    if width.Some? && width.value != 0.0 then width.value else 1.0
  }

  function Reverse<T>(xs: seq<T>): (r: seq<T>)
    ensures |r| == |xs|
    ensures forall i :: 0 <= i < |xs| ==> r[i] == xs[|xs| - 1 - i]
  {
    if |xs| == 0 then [] else Reverse(xs[1..]) + [xs[0]]
  }

  // ---------------------------------------------------------------------------
  // Surfaces

  /** `toPolyhedralSurface(feature, [lower, upper])`: as in the frontend, with the bottom
    * surface always kept. */
  function ToPolyhedralSurface(earcut: Earcut, toEcef: ToEcef, lower: seq<Ring>, upper: Option<seq<Ring>>): Option<seq<Face>>
  {
    if upper.None? then TsPolyhedron.TriangulateSpec(earcut, toEcef, lower, false)
    else
      var top := TsPolyhedron.TriangulateSpec(earcut, toEcef, upper.value, false);
      var walls := TsPolyhedron.GenerateWalls(toEcef, lower, upper.value);
      var bottom := TsPolyhedron.TriangulateSpec(earcut, toEcef, lower, true);
      if top.Some? && walls.Some? && bottom.Some? then Some(top.value + walls.value + bottom.value) else None
  }

  /** The legacy surface is the frontend's with the bottom kept: there is no option to drop it. */
  lemma LegacySurfaceKeepsBottom(earcut: Earcut, toEcef: ToEcef, lower: seq<Ring>, upper: Option<seq<Ring>>)
    ensures ToPolyhedralSurface(earcut, toEcef, lower, upper)
         == TsPolyhedron.ToPolyhedralSurface(earcut, toEcef, lower, upper, false)
    ensures upper.Some? && ToPolyhedralSurface(earcut, toEcef, lower, upper).Some? ==>
      var bottom := TsPolyhedron.TriangulateSpec(earcut, toEcef, lower, true);
      var r := ToPolyhedralSurface(earcut, toEcef, lower, upper).value;
      bottom.Some? && |bottom.value| <= |r| && r[|r| - |bottom.value|..] == bottom.value
  {
  }

  /** `averageZ = ring.reduce((sum, coords) => sum + coords[2], 0) / ring.length`, NaN for an
    * empty ring. */
  function AverageZ(ring: Ring): Number
  {
    MeanZ(ring)
  }

  /** The two copies ordered by their average heights: `averageZLower > averageZUpper ?
    * [upper, lower] : [lower, upper]`. */
  function Ordered(earcut: Earcut, toEcef: ToEcef, lower: seq<Ring>, upper: seq<Ring>, zLower: Number, zUpper: Number): Option<seq<Face>>
  {
    if Less(zUpper, zLower) then ToPolyhedralSurface(earcut, toEcef, upper, Some(lower))
    else ToPolyhedralSurface(earcut, toEcef, lower, Some(upper))
  }

  // ---------------------------------------------------------------------------
  // Points

  /** `applyBuffer(coordinates, { width })`: turf's ring, reversed, every vertex at the point's
    * height. */
  function ApplyBuffer(buffer: TurfBuffer, p: Vec3, width: Option<real>): (r: Option<seq<Ring>>)
    ensures r.Some? ==> |r.value| == 1
  {
    var polygon := buffer(p, WidthOrOne(width));
    if polygon.None? then None
    else
      var ring := polygon.value;
      Some([Reverse(seq(|ring|, i requires 0 <= i < |ring| => Vec3(ring[i][0], ring[i][1], p.z)))])
  }

  /** The buffered ring is turf's ring read backwards, level at the point's height. */
  lemma BufferIsReversedLevelRing(buffer: TurfBuffer, p: Vec3, width: Option<real>)
    requires buffer(p, WidthOrOne(width)).Some?
    ensures var turf := buffer(p, WidthOrOne(width)).value;
      var ring := ApplyBuffer(buffer, p, width).value[0];
      |ring| == |turf| &&
      forall i :: 0 <= i < |ring| ==>
        ring[i].z == p.z && ring[i].x == turf[|turf| - 1 - i][0] && ring[i].y == turf[|turf| - 1 - i][1]
  {
  }

  /** `parsers.Point(feature, options)` */
  function ParsePoint(earcut: Earcut, toEcef: ToEcef, buffer: TurfBuffer, position: Position, o: LegacyOptions): Option<seq<Face>>
  {
    var lower := ApplyBuffer(buffer, TsPolyhedron.ParseCoords(position, o.lowerLimit, o.translateZ), o.width);
    if o.lowerLimit.None? && o.upperLimit.None? then
      if lower.None? then None else ToPolyhedralSurface(earcut, toEcef, lower.value, None)
    else
      var upper := ApplyBuffer(buffer, TsPolyhedron.ParseCoords(position, o.upperLimit, o.translateZ), o.width);
      if lower.None? || upper.None? then None
      else Ordered(earcut, toEcef, lower.value, upper.value, AverageZ(lower.value[0]), AverageZ(upper.value[0]))
  }

  /** With both limits, the buffer at the higher limit is the top whenever turf gives a ring. */
  lemma PointLimitsOrderTheCopies(earcut: Earcut, toEcef: ToEcef, buffer: TurfBuffer, position: Position, o: LegacyOptions)
    requires o.lowerLimit.Some? && o.upperLimit.Some?
    requires var lo := buffer(TsPolyhedron.ParseCoords(position, o.lowerLimit, o.translateZ), WidthOrOne(o.width));
      var hi := buffer(TsPolyhedron.ParseCoords(position, o.upperLimit, o.translateZ), WidthOrOne(o.width));
      lo.Some? && hi.Some? && |lo.value| > 0 && |hi.value| > 0
    ensures var lo := ApplyBuffer(buffer, TsPolyhedron.ParseCoords(position, o.lowerLimit, o.translateZ), o.width).value;
      var hi := ApplyBuffer(buffer, TsPolyhedron.ParseCoords(position, o.upperLimit, o.translateZ), o.width).value;
      ParsePoint(earcut, toEcef, buffer, position, o)
        == if o.lowerLimit.value > o.upperLimit.value
           then ToPolyhedralSurface(earcut, toEcef, hi, Some(lo))
           else ToPolyhedralSurface(earcut, toEcef, lo, Some(hi))
  {
    var t := if o.translateZ.Some? then o.translateZ.value else 0.0;
    var lo := ApplyBuffer(buffer, TsPolyhedron.ParseCoords(position, o.lowerLimit, o.translateZ), o.width).value;
    var hi := ApplyBuffer(buffer, TsPolyhedron.ParseCoords(position, o.upperLimit, o.translateZ), o.width).value;
    MeanOfLevelRing(lo[0], o.lowerLimit.value + t);
    MeanOfLevelRing(hi[0], o.upperLimit.value + t);
  }

  function PointSurfaces(earcut: Earcut, toEcef: ToEcef, buffer: TurfBuffer, points: seq<Position>, o: LegacyOptions)
    : (parts: seq<Option<seq<Face>>>)
    ensures |parts| == |points|
    ensures forall i :: 0 <= i < |points| ==> parts[i] == ParsePoint(earcut, toEcef, buffer, points[i], o)
  {
    seq(|points|, i requires 0 <= i < |points| => ParsePoint(earcut, toEcef, buffer, points[i], o))
  }

  /** `parsers.MultiPoint(feature, options)`: each point as a Point feature, one after the other. */
  function ParseMultiPoint(earcut: Earcut, toEcef: ToEcef, buffer: TurfBuffer, points: seq<Position>, o: LegacyOptions): Option<seq<Face>>
  {
    ConcatSurfaces(PointSurfaces(earcut, toEcef, buffer, points, o))
  }

  // ---------------------------------------------------------------------------
  // Lines

  /** Whether `splitCoordinatesByAngles` splits at position `i`: an interior position whose
    * angle, rounded, is at most 90 degrees. */
  predicate SplitsAt(angle: Angle, coords: seq<Position>, i: nat)
  {
    0 < i && i + 1 < |coords| && MathRound(angle(coords[i - 1], coords[i], coords[i + 1])) <= 90
  }

  /** The segments after the first `n` positions: each position joins the current segment, and
    * a split position also starts the next one. */
  function Segments(angle: Angle, coords: seq<Position>, n: nat): (segs: seq<seq<Position>>)
    requires n <= |coords|
    ensures |segs| >= 1
  {
    if n == 0 then [[]]
    else
      var s := Segments(angle, coords, n - 1);
      var k := |s| - 1;
      var c := coords[n - 1];
      if SplitsAt(angle, coords, n - 1) then s[k := s[k] + [c]] + [[c]]
      else s[k := s[k] + [c]]
  }

  /** `splitCoordinatesByAngles(coordinates)`, as a function of the whole line. */
  function SplitByAngles(angle: Angle, coords: seq<Position>): (segs: seq<seq<Position>>)
    ensures |segs| >= 1
  {
    Segments(angle, coords, |coords|)
  }

  /** `splitCoordinatesByAngles(coordinates)`, with its running segment index. */
  method SplitCoordinatesByAngles(angle: Angle, coords: seq<Position>) returns (segs: seq<seq<Position>>)
    ensures segs == SplitByAngles(angle, coords)
  {
    segs := [[]];
    var index := 0;
    for i := 0 to |coords|
      invariant segs == Segments(angle, coords, i)
      invariant index == |segs| - 1
    {
      ghost var before := segs;
      var split := false;
      if 0 < i && i + 1 < |coords| {
        var a := MathRound(angle(coords[i - 1], coords[i], coords[i + 1]));
        if a <= 90 {
          segs := segs[index := segs[index] + [coords[i]]];
          index := index + 1;
          if index >= |segs| {
            segs := segs + [[]];
          }
          split := true;
          assert segs == before[|before| - 1 := before[|before| - 1] + [coords[i]]] + [[]];
        }
      }
      segs := segs[index := segs[index] + [coords[i]]];
      if split {
        assert segs[|segs| - 1] == [coords[i]];
        assert segs == before[|before| - 1 := before[|before| - 1] + [coords[i]]] + [[coords[i]]];
      }
    }
  }

  /** The segments joined back, dropping the repeated split position at the head of every
    * segment after the first. */
  function Unsplit(segs: seq<seq<Position>>): seq<Position>
    requires |segs| >= 1
  {
    if |segs| == 1 then segs[0]
    else
      var last := segs[|segs| - 1];
      Unsplit(segs[..|segs| - 1]) + (if |last| == 0 then [] else last[1..])
  }

  /** Every segment is non-empty and each one after the first starts with the position that
    * ends the one before. */
  predicate Chained(segs: seq<seq<Position>>)
  {
    (forall j :: 0 <= j < |segs| ==> |segs[j]| >= 1) &&
    forall j :: 0 <= j < |segs| - 1 ==> segs[j + 1][0] == segs[j][|segs[j]| - 1]
  }

  /** Once a position is read every segment is non-empty, and each segment after the first
    * starts with the position that ends the one before. */
  lemma {:induction false} SegmentsChain(angle: Angle, coords: seq<Position>, n: nat)
    requires 1 <= n <= |coords|
    ensures Chained(Segments(angle, coords, n))
  {
    var s := Segments(angle, coords, n - 1);
    var k := |s| - 1;
    var c := coords[n - 1];
    var s' := s[k := s[k] + [c]];
    if n == 1 {
      assert s == [[]];
      assert s[k] + [c] == [c];
      assert s' == [[c]];
      assert !SplitsAt(angle, coords, 0);
    } else {
      SegmentsChain(angle, coords, n - 1);
      ExtendLastKeepsChained(s, c);
      if SplitsAt(angle, coords, n - 1) {
        assert Segments(angle, coords, n) == s' + [[c]];
        StartSegmentKeepsChained(s', c);
      } else {
        assert Segments(angle, coords, n) == s';
      }
    }
  }

  /** Adding a position to the last segment keeps the segments chained and ends them with it. */
  lemma ExtendLastKeepsChained(s: seq<seq<Position>>, c: Position)
    requires |s| >= 1 && Chained(s)
    ensures var s' := s[|s| - 1 := s[|s| - 1] + [c]];
      Chained(s') && s'[|s'| - 1][|s'[|s'| - 1]| - 1] == c
  {
    var k := |s| - 1;
    var s' := s[k := s[k] + [c]];
    forall j | 0 <= j < |s'|
      ensures |s'[j]| >= 1
    {
      if j != k {
        assert s'[j] == s[j];
      }
    }
    forall j | 0 <= j < |s'| - 1
      ensures s'[j + 1][0] == s'[j][|s'[j]| - 1]
    {
      assert s'[j] == s[j];
      assert s'[j + 1][0] == s[j + 1][0];
    }
  }

  /** Starting a segment with the position that ends the last one keeps them chained. */
  lemma StartSegmentKeepsChained(s: seq<seq<Position>>, c: Position)
    requires |s| >= 1 && Chained(s) && s[|s| - 1][|s[|s| - 1]| - 1] == c
    ensures Chained(s + [[c]])
  {
    var s'' := s + [[c]];
    forall j | 0 <= j < |s''| - 1
      ensures s''[j + 1][0] == s''[j][|s''[j]| - 1]
    {
      assert s''[j] == s[j];
      if j + 1 < |s| {
        assert s''[j + 1] == s[j + 1];
      }
    }
  }

  /** Adding a position to the last segment adds it to the joined line. */
  lemma AppendToLastSegment(s: seq<seq<Position>>, c: Position)
    requires |s| >= 1
    requires |s| > 1 ==> |s[|s| - 1]| >= 1
    ensures Unsplit(s[|s| - 1 := s[|s| - 1] + [c]]) == Unsplit(s) + [c]
  {
    var k := |s| - 1;
    var s' := s[k := s[k] + [c]];
    if k > 0 {
      assert s'[..k] == s[..k];
      assert (s[k] + [c])[1..] == s[k][1..] + [c];
    }
  }

  /** Joining the segments back gives the line that was split. */
  lemma {:induction false} UnsplitSegments(angle: Angle, coords: seq<Position>, n: nat)
    requires n <= |coords|
    ensures Unsplit(Segments(angle, coords, n)) == coords[..n]
  {
    if n > 0 {
      UnsplitSegments(angle, coords, n - 1);
      var s := Segments(angle, coords, n - 1);
      var k := |s| - 1;
      var c := coords[n - 1];
      var s' := s[k := s[k] + [c]];
      if n > 1 {
        SegmentsChain(angle, coords, n - 1);
      }
      AppendToLastSegment(s, c);
      assert coords[..n] == coords[..n - 1] + [c];
      if SplitsAt(angle, coords, n - 1) {
        assert Segments(angle, coords, n) == s' + [[c]];
        StartedSegmentAddsNothing(s', c);
      } else {
        assert Segments(angle, coords, n) == s';
      }
    }
  }

  /** A segment holding only the position that ends the line adds nothing to the joined line. */
  lemma StartedSegmentAddsNothing(s: seq<seq<Position>>, c: Position)
    requires |s| >= 1
    ensures Unsplit(s + [[c]]) == Unsplit(s)
  {
    var s' := s + [[c]];
    assert s'[..|s'| - 1] == s;
    assert [c][1..] == [];
  }

  /** The split line, its segments joined back, reproduces the input. */
  lemma SplitGluesBack(angle: Angle, coords: seq<Position>)
    ensures Unsplit(SplitByAngles(angle, coords)) == coords
  {
    UnsplitSegments(angle, coords, |coords|);
    assert coords[..|coords|] == coords;
  }

  /** Every segment but the last has at least two positions; the last one too, unless it was
    * just started by a split at the last position read. */
  lemma {:induction false} SegmentsLengths(angle: Angle, coords: seq<Position>, n: nat)
    requires 1 <= n <= |coords|
    ensures var segs := Segments(angle, coords, n);
      var last := segs[|segs| - 1];
      (forall j :: 0 <= j < |segs| - 1 ==> |segs[j]| >= 2) &&
      |last| >= 1 && (|last| == 1 ==> n == 1 || SplitsAt(angle, coords, n - 1))
  {
    if n > 1 {
      SegmentsLengths(angle, coords, n - 1);
    }
  }

  /** Since the first and the last position never split, a line of two or more positions
    * splits into segments of two or more positions. */
  lemma SegmentsHaveTwoPositions(angle: Angle, coords: seq<Position>)
    requires |coords| >= 2
    ensures forall j :: 0 <= j < |SplitByAngles(angle, coords)| ==> |SplitByAngles(angle, coords)[j]| >= 2
  {
    SegmentsLengths(angle, coords, |coords|);
  }

  /** `applyLineOffset(coordinates, { width })`: the left offset line, then the right one
    * backwards, each position taking the height of the line position with the same index, the
    * ring closed by repeating its first position. An offset line longer than the input reads
    * past its end and throws. */
  function ApplyLineOffset(offset: TurfLineOffset, line: seq<Vec3>, width: Option<real>): (r: Option<seq<Ring>>)
    ensures r.Some? ==> |r.value| == 1
  {
    var w := WidthOrOne(width);
    var left := offset(line, -w / 2.0);
    var right := offset(line, w / 2.0);
    if left.None? || right.None? then None
    else
      var l := left.value;
      var rt := right.value;
      if |l| > |line| || |rt| > |line| then None
      else
        var ring := seq(|l|, i requires 0 <= i < |l| => Vec3(l[i][0], l[i][1], line[i].z))
          + Reverse(seq(|rt|, i requires 0 <= i < |rt| => Vec3(rt[i][0], rt[i][1], line[i].z)));
        if |ring| == 0 then Some([[]]) else Some([ring + [ring[0]]])
  }

  /** The offset ring is closed and holds both offset lines. */
  lemma OffsetRingIsClosed(offset: TurfLineOffset, line: seq<Vec3>, width: Option<real>)
    requires ApplyLineOffset(offset, line, width).Some?
    requires ApplyLineOffset(offset, line, width).value[0] != []
    ensures var w := WidthOrOne(width);
      var ring := ApplyLineOffset(offset, line, width).value[0];
      ring[0] == ring[|ring| - 1] &&
      |ring| == |offset(line, -w / 2.0).value| + |offset(line, w / 2.0).value| + 1
  {
  }

  /** One segment of `parsers.LineString`. */
  function ParseSegment(earcut: Earcut, toEcef: ToEcef, offset: TurfLineOffset, segment: seq<Position>, o: LegacyOptions): Option<seq<Face>>
  {
    var lower := TsPolyhedron.ParseRing(segment, o.lowerLimit, o.translateZ);
    if o.lowerLimit.None? && o.upperLimit.None? then
      var pLower := ApplyLineOffset(offset, lower, o.width);
      if pLower.None? then None else ToPolyhedralSurface(earcut, toEcef, pLower.value, None)
    else
      var upper := TsPolyhedron.ParseRing(segment, o.upperLimit, o.translateZ);
      var pLower := ApplyLineOffset(offset, lower, o.width);
      var pUpper := ApplyLineOffset(offset, upper, o.width);
      if pLower.None? || pUpper.None? then None
      else Ordered(earcut, toEcef, pLower.value, pUpper.value, AverageZ(lower), AverageZ(upper))
  }

  function SegmentSurfaces(earcut: Earcut, toEcef: ToEcef, offset: TurfLineOffset, segments: seq<seq<Position>>, o: LegacyOptions)
    : (parts: seq<Option<seq<Face>>>)
    ensures |parts| == |segments|
    ensures forall i :: 0 <= i < |segments| ==> parts[i] == ParseSegment(earcut, toEcef, offset, segments[i], o)
  {
    seq(|segments|, i requires 0 <= i < |segments| => ParseSegment(earcut, toEcef, offset, segments[i], o))
  }

  /** `parsers.LineString(feature, options)`: the line split at sharp corners, each segment
    * extruded on its own, one after the other. */
  function ParseLineString(earcut: Earcut, toEcef: ToEcef, angle: Angle, offset: TurfLineOffset, line: seq<Position>, o: LegacyOptions)
    : Option<seq<Face>>
  {
    ConcatSurfaces(SegmentSurfaces(earcut, toEcef, offset, SplitByAngles(angle, line), o))
  }

  /** Without limits a line segment is its flat offset ring; with both limits the ring at the
    * higher limit is the top. */
  lemma SegmentLimits(earcut: Earcut, toEcef: ToEcef, offset: TurfLineOffset, segment: seq<Position>, o: LegacyOptions)
    requires |segment| > 0
    ensures o.lowerLimit.None? && o.upperLimit.None? ==>
      ParseSegment(earcut, toEcef, offset, segment, o)
        == (var p := ApplyLineOffset(offset, TsPolyhedron.ParseRing(segment, None, o.translateZ), o.width);
            if p.None? then None else TsPolyhedron.TriangulateSpec(earcut, toEcef, p.value, false))
    ensures o.lowerLimit.Some? && o.upperLimit.Some? ==>
      var lo := ApplyLineOffset(offset, TsPolyhedron.ParseRing(segment, o.lowerLimit, o.translateZ), o.width);
      var hi := ApplyLineOffset(offset, TsPolyhedron.ParseRing(segment, o.upperLimit, o.translateZ), o.width);
      lo.Some? && hi.Some? ==>
        ParseSegment(earcut, toEcef, offset, segment, o)
          == if o.lowerLimit.value > o.upperLimit.value
             then ToPolyhedralSurface(earcut, toEcef, hi.value, Some(lo.value))
             else ToPolyhedralSurface(earcut, toEcef, lo.value, Some(hi.value))
  {
    if o.lowerLimit.Some? && o.upperLimit.Some? {
      var t := if o.translateZ.Some? then o.translateZ.value else 0.0;
      MeanOfLevelRing(TsPolyhedron.ParseRing(segment, o.lowerLimit, o.translateZ), o.lowerLimit.value + t);
      MeanOfLevelRing(TsPolyhedron.ParseRing(segment, o.upperLimit, o.translateZ), o.upperLimit.value + t);
    }
  }

  function LineSurfaces(earcut: Earcut, toEcef: ToEcef, angle: Angle, offset: TurfLineOffset, lines: seq<seq<Position>>, o: LegacyOptions)
    : (parts: seq<Option<seq<Face>>>)
    ensures |parts| == |lines|
    ensures forall i :: 0 <= i < |lines| ==> parts[i] == ParseLineString(earcut, toEcef, angle, offset, lines[i], o)
  {
    seq(|lines|, i requires 0 <= i < |lines| => ParseLineString(earcut, toEcef, angle, offset, lines[i], o))
  }

  /** `parsers.MultiLineString(feature, options)` */
  function ParseMultiLineString(earcut: Earcut, toEcef: ToEcef, angle: Angle, offset: TurfLineOffset, lines: seq<seq<Position>>, o: LegacyOptions)
    : Option<seq<Face>>
  {
    ConcatSurfaces(LineSurfaces(earcut, toEcef, angle, offset, lines, o))
  }

  // ---------------------------------------------------------------------------
  // Polygons

  /** `parsers.Polygon(feature, options)` */
  function ParsePolygon(earcut: Earcut, toEcef: ToEcef, rings: seq<seq<Position>>, o: LegacyOptions): Option<seq<Face>>
  {
    var lower := TsPolyhedron.ParseRings(rings, o.lowerLimit, o.translateZ);
    if o.lowerLimit.None? && o.upperLimit.None? then ToPolyhedralSurface(earcut, toEcef, lower, None)
    else
      var upper := TsPolyhedron.ParseRings(rings, o.upperLimit, o.translateZ);
      if |rings| == 0 then None
      else Ordered(earcut, toEcef, lower, upper, AverageZ(lower[0]), AverageZ(upper[0]))
  }

  /** The legacy Polygon parser is the frontend's with the bottom surface kept. */
  lemma PolygonAsFrontend(earcut: Earcut, toEcef: ToEcef, rings: seq<seq<Position>>, o: LegacyOptions)
    ensures ParsePolygon(earcut, toEcef, rings, o)
         == TsPolyhedron.ParsePolygon(earcut, toEcef, rings, Some(TsPolyhedron.SurfaceOptions(o.lowerLimit, o.upperLimit, o.translateZ, false)))
  {
    var lower := TsPolyhedron.ParseRings(rings, o.lowerLimit, o.translateZ);
    var upper := TsPolyhedron.ParseRings(rings, o.upperLimit, o.translateZ);
    LegacySurfaceKeepsBottom(earcut, toEcef, lower, None);
    LegacySurfaceKeepsBottom(earcut, toEcef, lower, Some(upper));
    LegacySurfaceKeepsBottom(earcut, toEcef, upper, Some(lower));
  }

  function PolygonSurfaces(earcut: Earcut, toEcef: ToEcef, polygons: seq<seq<seq<Position>>>, o: LegacyOptions)
    : (parts: seq<Option<seq<Face>>>)
    ensures |parts| == |polygons|
    ensures forall i :: 0 <= i < |polygons| ==> parts[i] == ParsePolygon(earcut, toEcef, polygons[i], o)
  {
    seq(|polygons|, i requires 0 <= i < |polygons| => ParsePolygon(earcut, toEcef, polygons[i], o))
  }

  /** `parsers.MultiPolygon(feature, options)` */
  function ParseMultiPolygon(earcut: Earcut, toEcef: ToEcef, polygons: seq<seq<seq<Position>>>, o: LegacyOptions): Option<seq<Face>>
  {
    ConcatSurfaces(PolygonSurfaces(earcut, toEcef, polygons, o))
  }

  /** The multi-part parsers concatenate the parts' surfaces in order and fail when one does. */
  lemma MultiPartsConcatenate(parts: seq<Option<seq<Face>>>)
    ensures ConcatSurfaces(parts).Some? <==> forall i :: 0 <= i < |parts| ==> parts[i].Some?
    ensures ConcatSurfaces(parts).Some? ==>
      ConcatSurfaces(parts).value == Flatten(seq(|parts|, i requires 0 <= i < |parts| => parts[i].value))
  {
    if ConcatSurfaces(parts).Some? {
      ConcatSurfacesValue(parts);
    }
  }

  // ---------------------------------------------------------------------------
  // Collections

  /** The turf and earcut functions the parsers call. */
  datatype Hosts = Hosts(earcut: Earcut, toEcef: ToEcef, angle: Angle, buffer: TurfBuffer, offset: TurfLineOffset)

  /** `parsers[feature.geometry.type](feature, options)`: every geometry type but
    * GeometryCollection has a parser; another type, or a missing geometry, throws. */
  function ParseFeature(h: Hosts, f: JsFeature, o: LegacyOptions): Option<seq<Face>>
  {
    match f.geometry
    case Some(Point(p)) => ParsePoint(h.earcut, h.toEcef, h.buffer, p, o)
    case Some(MultiPoint(ps)) => ParseMultiPoint(h.earcut, h.toEcef, h.buffer, ps, o)
    case Some(LineString(line)) => ParseLineString(h.earcut, h.toEcef, h.angle, h.offset, line, o)
    case Some(MultiLineString(lines)) => ParseMultiLineString(h.earcut, h.toEcef, h.angle, h.offset, lines, o)
    case Some(Polygon(rings)) => ParsePolygon(h.earcut, h.toEcef, rings, o)
    case Some(MultiPolygon(ps)) => ParseMultiPolygon(h.earcut, h.toEcef, ps, o)
    case _ => None
  }

  function ToSurfaceFeature(h: Hosts, computeOptions: JsFeature -> LegacyOptions, f: JsFeature): Option<TsPolyhedron.SurfaceFeature>
  {
    var faces := ParseFeature(h, f, computeOptions(f));
    if faces.Some? then Some(TsPolyhedron.SurfaceFeature(f.properties, f.others, faces.value)) else None
  }

  /** `collectionToPolyhedralSurfaceZ(collection, { filter, computeOptions })` */
  function CollectionToPolyhedralSurfaceZ(h: Hosts, features: Option<seq<JsFeature>>, filter: (JsFeature, nat) -> bool,
                                          computeOptions: JsFeature -> LegacyOptions): Option<seq<TsPolyhedron.SurfaceFeature>>
  {
    if features.None? then Some([])
    else MapAll(SurfaceFeatureOfFeature(h, computeOptions), FilterIndexed(features.value, filter))
  }

  /** `toSurfaceFeature` as the function the collection is mapped with. */
  function SurfaceFeatureOfFeature(h: Hosts, computeOptions: JsFeature -> LegacyOptions): JsFeature -> Option<TsPolyhedron.SurfaceFeature>
  {
    f => ToSurfaceFeature(h, computeOptions, f)
  }

  /** `surfaces` is what converting `kept` gives: something exactly when every feature parses,
    * and then one surface feature per feature, in order, with its properties and other members
    * and its parsed faces. */
  ghost predicate ConvertsInOrder(h: Hosts, computeOptions: JsFeature -> LegacyOptions, kept: seq<JsFeature>,
                                  surfaces: Option<seq<TsPolyhedron.SurfaceFeature>>)
  {
    (surfaces.Some? <==> forall i :: 0 <= i < |kept| ==> ParseFeature(h, kept[i], computeOptions(kept[i])).Some?) &&
    (surfaces.Some? ==> (|surfaces.value| == |kept| &&
      forall i :: 0 <= i < |kept| ==>
        surfaces.value[i].properties == kept[i].properties && surfaces.value[i].others == kept[i].others &&
        Some(surfaces.value[i].faces) == ParseFeature(h, kept[i], computeOptions(kept[i]))))
  }

  /** Missing features give an empty collection; otherwise every kept feature, in order, with its
    * properties and other members and its geometry replaced by its surface; an unparsable
    * feature throws. */
  lemma CollectionMapsKeptFeatures(h: Hosts, features: seq<JsFeature>, filter: (JsFeature, nat) -> bool,
                                   computeOptions: JsFeature -> LegacyOptions)
    ensures CollectionToPolyhedralSurfaceZ(h, None, filter, computeOptions) == Some([])
    ensures ConvertsInOrder(h, computeOptions, FilterIndexed(features, filter),
                            CollectionToPolyhedralSurfaceZ(h, Some(features), filter, computeOptions))
  {
    var kept := FilterIndexed(features, filter);
    var r := CollectionToPolyhedralSurfaceZ(h, Some(features), filter, computeOptions);
    assert r == MapAll(SurfaceFeatureOfFeature(h, computeOptions), kept);
    KeptFeaturesConverted(h, computeOptions, kept, r);
  }

  /** Converting the kept features one by one. */
  lemma KeptFeaturesConverted(h: Hosts, computeOptions: JsFeature -> LegacyOptions, kept: seq<JsFeature>,
                              r: Option<seq<TsPolyhedron.SurfaceFeature>>)
    requires r == MapAll(SurfaceFeatureOfFeature(h, computeOptions), kept)
    ensures ConvertsInOrder(h, computeOptions, kept, r)
  {
    if r.Some? {
      KeptSurfaceFeatures(h, computeOptions, kept, r.value);
    } else {
      KeptFeatureFails(h, computeOptions, kept);
    }
  }

  /** Every kept feature parses, and each surface feature matches its feature, when all of
    * them were converted. */
  lemma KeptSurfaceFeatures(h: Hosts, computeOptions: JsFeature -> LegacyOptions, kept: seq<JsFeature>,
                            surfaces: seq<TsPolyhedron.SurfaceFeature>)
    requires MapAll(SurfaceFeatureOfFeature(h, computeOptions), kept) == Some(surfaces)
    ensures |surfaces| == |kept|
    ensures forall i :: 0 <= i < |kept| ==>
      ParseFeature(h, kept[i], computeOptions(kept[i])).Some? &&
      surfaces[i].properties == kept[i].properties && surfaces[i].others == kept[i].others &&
      Some(surfaces[i].faces) == ParseFeature(h, kept[i], computeOptions(kept[i]))
  {
    var f := SurfaceFeatureOfFeature(h, computeOptions);
    forall i | 0 <= i < |kept|
      ensures ParseFeature(h, kept[i], computeOptions(kept[i])).Some? &&
        surfaces[i].properties == kept[i].properties && surfaces[i].others == kept[i].others &&
        Some(surfaces[i].faces) == ParseFeature(h, kept[i], computeOptions(kept[i]))
    {
      assert f(kept[i]).Some? && surfaces[i] == f(kept[i]).value;
      SurfaceFeatureOf(h, computeOptions, kept[i]);
    }
  }

  /** When the conversion fails, some kept feature does not parse. */
  lemma KeptFeatureFails(h: Hosts, computeOptions: JsFeature -> LegacyOptions, kept: seq<JsFeature>)
    requires MapAll(SurfaceFeatureOfFeature(h, computeOptions), kept).None?
    ensures exists i :: 0 <= i < |kept| && ParseFeature(h, kept[i], computeOptions(kept[i])).None?
  {
    var f := SurfaceFeatureOfFeature(h, computeOptions);
    var i :| 0 <= i < |kept| && f(kept[i]).None?;
    SurfaceFeatureOf(h, computeOptions, kept[i]);
    assert ParseFeature(h, kept[i], computeOptions(kept[i])).None?;
  }

  /** A feature's surface feature keeps its properties and other members and holds its faces,
    * and exists exactly when the feature parses. */
  lemma SurfaceFeatureOf(h: Hosts, computeOptions: JsFeature -> LegacyOptions, x: JsFeature)
    ensures var s := SurfaceFeatureOfFeature(h, computeOptions)(x);
      (s.Some? <==> ParseFeature(h, x, computeOptions(x)).Some?) &&
      (s.Some? ==> s.value.properties == x.properties && s.value.others == x.others &&
                   Some(s.value.faces) == ParseFeature(h, x, computeOptions(x)))
  {
  }
}
