/** The legacy server's table queries: the `CREATE TABLE` text for point instances and for
  * polyhedral surfaces, and the chunked `INSERT` statements an iterator hands out one slice of
  * the collection at a time. The polyhedral rows carry their geometry as well-known text and
  * their attributes as SQL literals, non-numeric ones quoted with every `'` doubled. */
module Table {
  import opened Wrappers
  import opened Numbers
  import opened Text
  import opened Lists
  import opened JsValues
  import opened JsNumber
  import opened Surfaces
  import opened GeoJson
  import Info
  import Instances
  import JsExpression
  import JsPolyhedron
  import TsPolyhedron

  // Well-known text

  /** `vertex.join(' ')` */
  function VertexText(e: Engine, v: Vec3): string
  {
    Join([NumberToString(e, Finite(v.x)), NumberToString(e, Finite(v.y)), NumberToString(e, Finite(v.z))], " ")
  }

  /** `((${triangle.map(vertex => vertex.join(' ')).join(',')}))` */
  function TriangleText(e: Engine, face: Face): string
  {
    "((" + Join(seq(|face|, i requires 0 <= i < |face| => VertexText(e, face[i])), ",") + "))"
  }

  function SurfaceText(e: Engine, faces: seq<Face>): string
  {
    Join(seq(|faces|, i requires 0 <= i < |faces| => TriangleText(e, faces[i])), ",")
  }

  /** `toWKTPolyhedralSurfaceZ(feature)` on the feature's faces. */
  function Wkt(e: Engine, faces: seq<Face>): string
  {
    "ST_GeomFromText('POLYHEDRALSURFACE Z (" + SurfaceText(e, faces) + ")', 4978)"
  }

  /** The text of a surface is the texts of its parts one comma apart: rendering two runs of
    * faces and joining them with a comma is rendering them together. */
  lemma SurfaceTextAppend(e: Engine, a: seq<Face>, b: seq<Face>)
    requires |a| >= 1 && |b| >= 1
    ensures SurfaceText(e, a + b) == SurfaceText(e, a) + "," + SurfaceText(e, b)
  {
    var ta := seq(|a|, i requires 0 <= i < |a| => TriangleText(e, a[i]));
    var tb := seq(|b|, i requires 0 <= i < |b| => TriangleText(e, b[i]));
    assert seq(|a + b|, i requires 0 <= i < |a + b| => TriangleText(e, (a + b)[i])) == ta + tb;
    JoinAppend(ta, tb, ",");
  }

  /** Every geometry is a POLYHEDRALSURFACE Z in SRID 4978 whose parts are the faces, each a
    * doubly parenthesised vertex list; a feature without faces gives the empty surface. */
  lemma WktShape(e: Engine, faces: seq<Face>, face: Face)
    ensures Wkt(e, []) == "ST_GeomFromText('POLYHEDRALSURFACE Z ()', 4978)"
    ensures Wkt(e, [face]) == "ST_GeomFromText('POLYHEDRALSURFACE Z (" + TriangleText(e, face) + ")', 4978)"
    ensures |faces| >= 1 ==>
      Wkt(e, faces + [face]) ==
        "ST_GeomFromText('POLYHEDRALSURFACE Z (" + SurfaceText(e, faces) + "," + TriangleText(e, face) + ")', 4978)"
  {
    WktSingle(e, face);
    if |faces| >= 1 {
      WktAppend(e, faces, face);
    }
  }

  lemma WktSingle(e: Engine, face: Face)
    ensures SurfaceText(e, [face]) == TriangleText(e, face)
  {
    assert seq(|[face]|, i requires 0 <= i < |[face]| => TriangleText(e, [face][i])) == [TriangleText(e, face)];
  }

  lemma WktAppend(e: Engine, faces: seq<Face>, face: Face)
    requires |faces| >= 1
    ensures SurfaceText(e, faces + [face]) == SurfaceText(e, faces) + "," + TriangleText(e, face)
  {
    WktSingle(e, face);
    SurfaceTextAppend(e, faces, [face]);
  }

  // Quoting

  /** `s.replace(/'/g, "''")` */
  function Escape(s: string): (r: string)
    ensures |r| >= |s|
  {
    if |s| == 0 then "" else (if s[0] == '\'' then "''" else [s[0]]) + Escape(s[1..])
  }

  /** How SQL reads the inside of a quoted literal: `''` stands for one `'`. */
  function Unescape(s: string): string
  {
    if |s| == 0 then ""
    else if |s| >= 2 && s[0] == '\'' && s[1] == '\'' then "'" + Unescape(s[2..])
    else [s[0]] + Unescape(s[1..])
  }

  /** Every `'` sits in a doubled pair, so the text cannot close the literal around it. */
  predicate Paired(s: string)
  {
    if |s| == 0 then true
    else if s[0] == '\'' then |s| >= 2 && s[1] == '\'' && Paired(s[2..])
    else Paired(s[1..])
  }

  /** The database reads back exactly the text that was quoted. */
  lemma {:induction false} EscapeRoundTrip(s: string)
    ensures Unescape(Escape(s)) == s
  {
    if |s| > 0 {
      EscapeRoundTrip(s[1..]);
      if s[0] == '\'' {
        assert Escape(s)[2..] == Escape(s[1..]);
      } else {
        assert Escape(s)[1..] == Escape(s[1..]);
      }
    }
  }

  /** An escaped text never ends the literal early. */
  lemma {:induction false} EscapedIsPaired(s: string)
    ensures Paired(Escape(s))
  {
    if |s| > 0 {
      EscapedIsPaired(s[1..]);
      if s[0] == '\'' {
        assert Escape(s)[2..] == Escape(s[1..]);
      } else {
        assert Escape(s)[1..] == Escape(s[1..]);
      }
    }
  }

  /** Text without quotes is written unchanged. */
  lemma {:induction false} EscapeWithoutQuotes(s: string)
    requires '\'' !in s
    ensures Escape(s) == s
  {
    if |s| > 0 {
      EscapeWithoutQuotes(s[1..]);
    }
  }

  /** One attribute value of a row: a number as it is, anything else as
    * `'${((value || '') + '').replace(/'/g, "''")}'`. */
  function AttributeText(e: Engine, v: JsValue): string
  {
    if IsNumber(e, v) then ToString(e, v)
    else "'" + Escape(ToString(e, Plus(e, Or(v, Str("")), Str("")))) + "'"
  }

  /** A string is quoted so that the database reads back that very string. */
  lemma StringQuoting(e: Engine, s: string)
    ensures var t := AttributeText(e, Str(s));
      |t| >= 2 && t[0] == '\'' && t[|t| - 1] == '\'' &&
      Paired(t[1..|t| - 1]) && Unescape(t[1..|t| - 1]) == s
  {
    StringsAreNotNumbers(e, s);
    var t := AttributeText(e, Str(s));
    if s == "" {
      assert t == "''";
    } else {
      assert Plus(e, Or(Str(s), Str("")), Str("")) == Str(s);
      assert t == "'" + Escape(s) + "'";
      assert t[1..|t| - 1] == Escape(s);
    }
    EscapedIsPaired(s);
    EscapeRoundTrip(s);
  }

  /** A falsy value that is not a number is written as the empty literal. */
  lemma FalsyIsEmptyLiteral(e: Engine, v: JsValue)
    requires !Truthy(v) && !IsNumber(e, v)
    ensures AttributeText(e, v) == "''"
  {
    assert Plus(e, Or(v, Str("")), Str("")) == Str("");
  }

  /** Numbers are written bare; NaN, null, undefined, false and the empty string all become
    * the empty literal. */
  lemma FalsyQuoting(e: Engine, n: Number)
    ensures n != NaN ==> AttributeText(e, Num(n)) == NumberToString(e, n)
    ensures AttributeText(e, Num(NaN)) == "''"
    ensures AttributeText(e, Null) == "''" && AttributeText(e, Undefined) == "''"
    ensures AttributeText(e, Bool(false)) == "''" && AttributeText(e, Str("")) == "''"
  {
    NonNumericValues(e, false, []);
    FalsyIsEmptyLiteral(e, Num(NaN));
    FalsyIsEmptyLiteral(e, Null);
    FalsyIsEmptyLiteral(e, Undefined);
    FalsyIsEmptyLiteral(e, Bool(false));
    FalsyIsEmptyLiteral(e, Str(""));
  }

  /** `Object.keys(feature.properties).map(...).join(', ')` */
  function RowValues(e: Engine, p: Props): string
  {
    Join(seq(|p|, i requires 0 <= i < |p| => AttributeText(e, Lookup(p, p[i].0))), ", ")
  }

  // The insert iterator

  /** What `getValue({ offset, step })` returns: the statement text and the number of rows. */
  datatype Chunk = Chunk(value: string, total: int)

  /** What `next()` returns: a chunk's statement, the final count, or the exception `getValue`
    * threw (which leaves the iterator as it was). */
  datatype Step = Item(value: string) | Done(processed: int, total: int) | Threw

  /** `insertTableIterator({ limit, step, getValue })`: the closure's `offset` and `processed`
    * are the fields, `next()` the method. `getValue` gives None where it throws. */
  class InsertIterator {
    const limit: int
    const step: int
    const getValue: int -> Option<Chunk>
    var offset: int
    var processed: int

    constructor (limit: int, step: int, getValue: int -> Option<Chunk>)
      ensures this.limit == limit && this.step == step && this.getValue == getValue
      ensures offset == 0 && processed == 0
    {
      this.limit := limit;
      this.step := step;
      this.getValue := getValue;
      offset := 0;
      processed := 0;
    }

    /** Below the limit: the chunk at the current offset, then a step further and its rows
      * counted. At or past it: done, with the rows counted and the limit, and nothing changes,
      * so every later call is done again with the same numbers. */
    method Next() returns (r: Step)
      modifies this
      ensures old(offset) < limit && getValue(old(offset)).Some? ==>
        r == Item(getValue(old(offset)).value.value) &&
        offset == old(offset) + step && processed == old(processed) + getValue(old(offset)).value.total
      ensures old(offset) < limit && getValue(old(offset)).None? ==>
        r == Threw && offset == old(offset) && processed == old(processed)
      ensures old(offset) >= limit ==>
        r == Done(old(processed), limit) && offset == old(offset) && processed == old(processed)
    {
      if offset < limit {
        var chunk := getValue(offset);
        if chunk.None? {
          return Threw;
        }
        r := Item(chunk.value.value);
        processed := processed + chunk.value.total;
        offset := offset + step;
        return;
      }
      r := Done(processed, limit);
    }
  }

  /** How many chunks an iterator hands out: ceil(limit / step), none for an empty limit. */
  function ChunkCount(limit: int, step: int): nat
    requires step > 0
  {
    if limit <= 0 then 0 else (limit + step - 1) / step
  }

  lemma MulMono(a: int, b: int, c: int)
    requires a <= b && c >= 0
    ensures a * c <= b * c
  {
  }

  /** The i-th call starts below the limit exactly for the first ChunkCount calls. */
  lemma OffsetBelowLimit(limit: int, step: int, i: nat)
    requires step > 0
    ensures i * step < limit <==> i < ChunkCount(limit, step)
  {
    if limit > 0 {
      var q := ChunkCount(limit, step);
      var r := (limit + step - 1) % step;
      assert q * step + r == limit + step - 1;
      if i < q {
        MulMono(i, q - 1, step);
        assert (q - 1) * step == q * step - step;
      } else {
        MulMono(q, i, step);
      }
    }
  }

  /** The chunk the k-th call asks for. */
  function ChunkAt(getValue: int -> Option<Chunk>, step: int, k: nat): Option<Chunk>
  {
    getValue(k * step)
  }

  /** None of the first n calls throws. */
  predicate NoThrow(getValue: int -> Option<Chunk>, step: int, n: nat)
  {
    forall k: nat :: k < n ==> ChunkAt(getValue, step, k).Some?
  }

  /** The rows counted by the first n chunks. */
  function TotalUpTo(getValue: int -> Option<Chunk>, step: int, n: nat): int
    requires NoThrow(getValue, step, n)
  {
    if n == 0 then 0 else TotalUpTo(getValue, step, n - 1) + ChunkAt(getValue, step, n - 1).value.total
  }

  /** The statements of the first n chunks. */
  function Values(getValue: int -> Option<Chunk>, step: int, n: nat): (vs: seq<string>)
    requires NoThrow(getValue, step, n)
  {
    seq(n, k requires 0 <= k < n => ChunkAt(getValue, step, k).value.value)
  }

  /** A consumer calling `next()` on a fresh iterator until it is done (or throws), keeping every
    * statement it is given. It gets ChunkCount statements, from offsets 0, step, 2·step, …, and
    * then the sum of their row counts with the limit; or it stops at the first chunk that throws. */
  method Exhaust(it: InsertIterator) returns (values: seq<string>, last: Step)
    requires it.step > 0 && it.offset == 0 && it.processed == 0
    modifies it
    ensures var n := ChunkCount(it.limit, it.step);
      (last.Done? <==> NoThrow(it.getValue, it.step, n)) &&
      (last.Done? ==> last == Done(TotalUpTo(it.getValue, it.step, n), it.limit) &&
                      values == Values(it.getValue, it.step, n) && it.offset == n * it.step)
    ensures last.Done? || last.Threw?
    ensures last.Threw? ==>
      (|values| < ChunkCount(it.limit, it.step) &&
       NoThrow(it.getValue, it.step, |values|) && values == Values(it.getValue, it.step, |values|) &&
       ChunkAt(it.getValue, it.step, |values|).None?)
  {
    var n := ChunkCount(it.limit, it.step);
    values := [];
    var i: nat := 0;
    while true
      invariant i <= n
      invariant it.offset == i * it.step
      invariant NoThrow(it.getValue, it.step, i)
      invariant it.processed == TotalUpTo(it.getValue, it.step, i)
      invariant values == Values(it.getValue, it.step, i)
      decreases n - i
    {
      OffsetBelowLimit(it.limit, it.step, i);
      var r := it.Next();
      if r.Done? {
        last := r;
        forall k: nat | k < n
          ensures ChunkAt(it.getValue, it.step, k).Some?
        {
        }
        return;
      }
      if r.Threw? {
        last := r;
        assert ChunkAt(it.getValue, it.step, i).None?;
        return;
      }
      assert (i + 1) * it.step == i * it.step + it.step;
      values := values + [r.value];
      i := i + 1;
    }
  }

  // Chunks of the collection

  /** `(value, idx) => idx >= lo && idx < hi` */
  function InRange<T>(lo: int, hi: int): (T, nat) -> bool
  {
    (v: T, idx: nat) => idx >= lo && idx < hi
  }

  /** `collection.features.filter((value, idx) => idx >= offset && idx < (offset + step))` */
  function ChunkOf<T>(features: seq<T>, offset: int, step: int): seq<T>
  {
    FilterIndexed(features, InRange(offset, offset + step))
  }

  function Min(a: int, b: int): int
  {
    if a <= b then a else b
  }

  /** Filtering by an index range is slicing, clipped at the end. */
  lemma {:induction false} FilterRange<T>(xs: seq<T>, lo: nat, hi: nat)
    requires lo <= hi
    ensures FilterIndexed(xs, InRange<T>(lo, hi)) == xs[Min(lo, |xs|)..Min(hi, |xs|)]
  {
    if |xs| > 0 {
      var n := |xs| - 1;
      FilterRange(xs[..n], lo, hi);
      var keep := InRange<T>(lo, hi);
      assert FilterIndexed(xs, keep) == FilterIndexed(xs[..n], keep) + (if keep(xs[n], n) then [xs[n]] else []);
      assert keep(xs[n], n) <==> lo <= n < hi;
      if lo <= n < hi {
        assert Min(lo, n) == lo && Min(hi, n) == n && Min(lo, n + 1) == lo && Min(hi, n + 1) == n + 1;
        SliceOfPrefix(xs, n, lo, n);
        assert xs[lo..n + 1] == xs[lo..n] + [xs[n]];
      } else if n >= hi {
        assert Min(hi, n + 1) == hi && Min(hi, n) == hi && Min(lo, n) == lo && Min(lo, n + 1) == lo;
        SliceOfPrefix(xs, n, lo, hi);
      } else {
        assert Min(lo, n + 1) == n + 1 && Min(hi, n + 1) == n + 1 && Min(lo, n) == n && Min(hi, n) == n;
      }
    }
  }

  lemma SliceOfPrefix<T>(xs: seq<T>, n: nat, a: nat, b: nat)
    requires a <= b <= n <= |xs|
    ensures xs[..n][a..b] == xs[a..b]
  {
  }

  /** The chunk at an offset is the slice of the collection from there, `step` long or cut off
    * at its end. */
  lemma ChunkIsSlice<T>(features: seq<T>, offset: nat, step: nat)
    ensures ChunkOf(features, offset, step) == features[Min(offset, |features|)..Min(offset + step, |features|)]
  {
    FilterRange(features, offset, offset + step);
  }

  /** The chunks asked for by the first n calls. */
  function ChunksUpTo<T>(features: seq<T>, step: nat, n: nat): seq<seq<T>>
  {
    seq(n, k requires 0 <= k < n => ChunkOf(features, k * step, step))
  }

  lemma {:induction false} ChunksCoverPrefix<T>(features: seq<T>, step: nat, n: nat)
    ensures Flatten(ChunksUpTo(features, step, n)) == features[..Min(n * step, |features|)]
  {
    if n > 0 {
      ChunksCoverPrefix(features, step, n - 1);
      var o := (n - 1) * step;
      var chunk := ChunkOf(features, o, step);
      ChunksUpToSnoc(features, step, n - 1);
      FlattenSnoc(ChunksUpTo(features, step, n - 1), chunk);
      assert o + step == n * step;
      var lo, hi := Min(o, |features|), Min(n * step, |features|);
      assert lo <= hi by {
        MulMono(n - 1, n, step);
      }
      assert chunk == features[lo..hi] by {
        ChunkIsSlice(features, o, step);
      }
      PrefixSplit(features, lo, hi);
    }
  }

  lemma ChunksUpToSnoc<T>(features: seq<T>, step: nat, n: nat)
    ensures ChunksUpTo(features, step, n + 1) == ChunksUpTo(features, step, n) + [ChunkOf(features, n * step, step)]
  {
  }

  lemma PrefixSplit<T>(xs: seq<T>, lo: nat, hi: nat)
    requires lo <= hi <= |xs|
    ensures xs[..lo] + xs[lo..hi] == xs[..hi]
  {
  }

  /** The chunks partition the collection: in order, every feature exactly once. */
  lemma ChunksPartition<T>(features: seq<T>, step: nat)
    requires step > 0
    ensures Flatten(ChunksUpTo(features, step, ChunkCount(|features|, step))) == features
  {
    var n := ChunkCount(|features|, step);
    ChunksCoverPrefix(features, step, n);
    OffsetBelowLimit(|features|, step, n);
  }

  /** When every chunk counts its own features as its rows, the rows counted by the first n
    * chunks are the features they cover. */
  lemma {:induction false} TotalsCountFeatures<T>(getValue: int -> Option<Chunk>, features: seq<T>, step: nat, n: nat)
    requires forall k: nat :: k < n ==>
      (ChunkAt(getValue, step, k).Some? &&
       ChunkAt(getValue, step, k).value.total == |ChunkOf(features, k * step, step)|)
    ensures NoThrow(getValue, step, n)
    ensures TotalUpTo(getValue, step, n) == Min(n * step, |features|)
  {
    if n > 0 {
      TotalsCountFeatures(getValue, features, step, n - 1);
      var o := (n - 1) * step;
      assert o + step == n * step;
      var chunk := ChunkAt(getValue, step, n - 1).value.total;
      assert chunk == Min(o + step, |features|) - Min(o, |features|) by {
        ChunkIsSlice(features, o, step);
      }
      assert TotalUpTo(getValue, step, n) == TotalUpTo(getValue, step, n - 1) + chunk;
    }
  }

  /** A full run over a collection counts every feature once. */
  lemma ProcessedIsFeatureCount<T>(getValue: int -> Option<Chunk>, features: seq<T>, step: nat)
    requires step > 0
    requires forall k: nat :: k < ChunkCount(|features|, step) ==>
      (ChunkAt(getValue, step, k).Some? &&
       ChunkAt(getValue, step, k).value.total == |ChunkOf(features, k * step, step)|)
    ensures NoThrow(getValue, step, ChunkCount(|features|, step))
    ensures TotalUpTo(getValue, step, ChunkCount(|features|, step)) == |features|
  {
    var n := ChunkCount(|features|, step);
    TotalsCountFeatures(getValue, features, step, n);
    OffsetBelowLimit(|features|, step, n);
  }

  // Layout of the statements

  /** The indentation of the create templates' lines. */
  const I8: string := "        "

  /** The indentation of the insert templates' lines. */
  const I20: string := "                    "

  /** A template literal as its lines. */
  function Lines(lines: seq<string>): string
  {
    Join(lines, "\n")
  }

  /** The last character that is neither a space nor a line break, if any. */
  function LastNonBlank(s: string): Option<char>
  {
    if |s| == 0 then None
    else if s[|s| - 1] == ' ' || s[|s| - 1] == '\n' then LastNonBlank(s[..|s| - 1])
    else Some(s[|s| - 1])
  }

  /** Trailing blanks do not change the last non-blank character. */
  lemma {:induction false} LastNonBlankSkipsBlanks(s: string, blank: string)
    requires forall i :: 0 <= i < |blank| ==> blank[i] == ' ' || blank[i] == '\n'
    ensures LastNonBlank(s + blank) == LastNonBlank(s)
  {
    if |blank| > 0 {
      var n := |blank| - 1;
      assert (s + blank)[..|s + blank| - 1] == s + blank[..n];
      LastNonBlankSkipsBlanks(s, blank[..n]);
    } else {
      assert s + blank == s;
    }
  }

  /** The `DROP`, `CREATE TABLE` and `CREATE INDEX` statements around the column lines;
    * `gap` is the blank line the point template has before the index. */
  function CreateLines(tableName: string, columns: seq<string>, indexUsing: string, gap: seq<string>): seq<string>
  {
    ["", I8 + "DROP TABLE IF EXISTS " + tableName + ";", "", I8 + "CREATE TABLE " + tableName + "("] +
    columns + [I8 + ");"] + gap +
    [I8 + "CREATE INDEX " + tableName + "_geom_idx", I8 + "ON " + tableName, I8 + "USING " + indexUsing + ";", I8]
  }

  /** The `INSERT` statement of one chunk: the columns, then the rows one line apart. */
  function InsertText(tableName: string, columns: string, rows: seq<string>): string
  {
    Lines(["", I20 + "INSERT INTO " + tableName + "(" + columns + ")",
           I20 + "VALUES " + Join(rows, ",\n") + ";", I20])
  }

  /** The table and geometry names and the attribute columns of a query, and its create text. */
  datatype Query = Query(tableName: string, geometryName: string, attributes: seq<Info.Attribute>, create: string)

  /** `parseNumericExpression(config?.[key], feature)` */
  function Numeric(filtrex: JsExpression.Filtrex, e: Engine, config: JsValue, key: string, f: JsFeature): JsValue
  {
    JsExpression.ParseNumericExpression(filtrex, e, Member(config, key), f)
  }

  // Point instances

  function PointColumnLines(geometryName: string): seq<string>
  {
    [I8 + "id serial PRIMARY KEY,", I8 + geometryName + " geometry(POINTZ, 4326),", I8 + "scale double precision,",
     I8 + "rotation double precision,", I8 + "model varchar,", I8 + "tags json"]
  }

  /** The create text of `getPointInstancesTableQuery`. */
  function PointCreate(tableName: string, geometryName: string): string
  {
    Lines(CreateLines(tableName, PointColumnLines(geometryName), "GIST (" + geometryName + ")", [""]))
  }

  /** `ST_GeomFromText('POINT(${coordinates[0]} ${coordinates[1]} ${coordinates[2]})', 4326)` */
  function PointGeometry(e: Engine, coordinates: seq<JsValue>): string
  {
    var c := Arr(coordinates);
    "ST_GeomFromText('POINT(" + ToString(e, Index(c, 0)) + " " + ToString(e, Index(c, 1)) + " " +
      ToString(e, Index(c, 2)) + ")', 4326)"
  }

  /** The tags as the array of one-member objects `JSON.stringify` is given. */
  function TagsValue(tags: seq<(string, JsValue)>): JsValue
  {
    Arr(seq(|tags|, i requires 0 <= i < |tags| => Obj([tags[i]])))
  }

  /** One row: geometry, scale, rotation, the model between quotes and the tags' JSON between
    * quotes, neither escaped. `JSON.stringify` is the host's. */
  function PointRow(e: Engine, stringify: JsValue -> string, inst: Instances.PointInstance): string
  {
    "(" + PointGeometry(e, inst.coordinates) + ", " + ToString(e, inst.properties.scale) + ", " +
      ToString(e, inst.properties.rotation) + ", '" + ToString(e, inst.properties.model) + "', '" +
      stringify(TagsValue(inst.properties.tags)) + "')"
  }

  /** `computeOptions` of the point query: scale, rotation and translateZ as numeric expressions,
    * the model as a string expression, each read from the configuration. */
  function PointOptions(filtrex: JsExpression.Filtrex, e: Engine, config: JsValue): JsFeature -> JsValue
  {
    f => Obj([("scale", Numeric(filtrex, e, config, "scale", f)),
              ("rotation", Numeric(filtrex, e, config, "rotation", f)),
              ("translateZ", Numeric(filtrex, e, config, "translateZ", f)),
              ("model", JsExpression.ParseStringExpression(filtrex, e, Member(config, "model"), f))])
  }

  /** The point query's `getValue({ offset })`: the chunk's instances, one row each; None where
    * a feature of the chunk has no properties, which makes the batch throw. */
  function PointValue(e: Engine, filtrex: JsExpression.Filtrex, stringify: JsValue -> string, q: Query,
                      features: seq<JsFeature>, config: JsValue, offset: int, step: int): Option<Chunk>
  {
    var collection := Instances.CollectionToPointInstances(e, Instances.Server, Some(ChunkOf(features, offset, step)),
                                                           Some(PointOptions(filtrex, e, config)));
    if collection.None? then None
    else
      var instances := collection.value.features;
      var rows := seq(|instances|, i requires 0 <= i < |instances| => PointRow(e, stringify, instances[i]));
      Some(Chunk(InsertText(q.tableName, q.geometryName + ", scale, rotation, model, tags", rows), |rows|))
  }

  function PointGetValue(e: Engine, filtrex: JsExpression.Filtrex, stringify: JsValue -> string, q: Query,
                         features: seq<JsFeature>, config: JsValue, step: int): int -> Option<Chunk>
  {
    offset => PointValue(e, filtrex, stringify, q, features, config, offset, step)
  }

  /** `getPointInstancesTableQuery(collection, config)`: an error where the metadata throws. */
  function PointInstancesTableQuery(e: Engine, features: Option<seq<JsFeature>>, config: JsValue): Result<Query>
  {
    var m :- Info.GetMetadata(e, features, config);
    Ok(Query(m.tableName, m.geometryName, m.attributes, PointCreate(m.tableName, m.geometryName)))
  }

  /** `insert(step)`: an iterator over the collection's features, or the exception (null here)
    * `collection.features.length` throws when the collection has none. */
  method PointInsert(e: Engine, filtrex: JsExpression.Filtrex, stringify: JsValue -> string, q: Query,
                     features: Option<seq<JsFeature>>, config: JsValue, step: int) returns (it: InsertIterator?)
    ensures features.None? ==> it == null
    ensures features.Some? ==>
      it != null && fresh(it) && it.limit == |features.value| && it.step == step &&
      it.offset == 0 && it.processed == 0 &&
      it.getValue == PointGetValue(e, filtrex, stringify, q, features.value, config, step)
  {
    if features.None? {
      return null;
    }
    it := new InsertIterator(|features.value|, step, PointGetValue(e, filtrex, stringify, q, features.value, config, step));
  }

  /** The table is named after the file and holds a POINTZ column in SRID 4326 named by the
    * metadata, then the instance columns; the index is on that column. */
  lemma PointTable(e: Engine, features: Option<seq<JsFeature>>, config: JsValue)
    requires Info.TableName(config).Ok?
    ensures var q := PointInstancesTableQuery(e, features, config);
      q.Ok? && q.value.tableName == Info.TableName(config).value && q.value.geometryName == "geom" &&
      Contains(q.value.create, I8 + "DROP TABLE IF EXISTS " + q.value.tableName + ";") &&
      Contains(q.value.create, I8 + q.value.geometryName + " geometry(POINTZ, 4326),") &&
      Contains(q.value.create, I8 + "CREATE INDEX " + q.value.tableName + "_geom_idx") &&
      Contains(q.value.create, I8 + "USING " + "GIST (" + q.value.geometryName + ")" + ";")
  {
    var q := PointInstancesTableQuery(e, features, config).value;
    PointCreateParts(q.tableName, q.geometryName);
  }

  /** The lines of the point table's create text that the table, its column and its index rest on. */
  lemma PointCreateParts(tableName: string, geometryName: string)
    ensures var create := PointCreate(tableName, geometryName);
      Contains(create, I8 + "DROP TABLE IF EXISTS " + tableName + ";") &&
      Contains(create, I8 + geometryName + " geometry(POINTZ, 4326),") &&
      Contains(create, I8 + "CREATE INDEX " + tableName + "_geom_idx") &&
      Contains(create, I8 + "USING " + "GIST (" + geometryName + ")" + ";")
  {
    var lines := CreateLines(tableName, PointColumnLines(geometryName), "GIST (" + geometryName + ")", [""]);
    assert lines[1] == I8 + "DROP TABLE IF EXISTS " + tableName + ";";
    assert lines[5] == I8 + geometryName + " geometry(POINTZ, 4326),";
    assert lines[12] == I8 + "CREATE INDEX " + tableName + "_geom_idx";
    assert lines[14] == I8 + "USING " + "GIST (" + geometryName + ")" + ";";
    JoinHasPart(lines, "\n", 1);
    JoinHasPart(lines, "\n", 5);
    JoinHasPart(lines, "\n", 12);
    JoinHasPart(lines, "\n", 14);
  }

  /** Every chunk has one row per feature it covers, and throws exactly when one of them has no
    * properties. */
  lemma PointChunkRows(e: Engine, filtrex: JsExpression.Filtrex, stringify: JsValue -> string, q: Query,
                       features: seq<JsFeature>, config: JsValue, offset: int, step: int)
    ensures var chunk := ChunkOf(features, offset, step);
      var v := PointValue(e, filtrex, stringify, q, features, config, offset, step);
      (v.Some? <==> forall i :: 0 <= i < |chunk| ==> chunk[i].properties.Some?) &&
      (v.Some? ==> v.value.total == |chunk|)
  {
    Instances.InstancesCorrespond(e, Instances.Server, ChunkOf(features, offset, step), Some(PointOptions(filtrex, e, config)));
  }

  /** A full run over a collection whose features all have properties never throws and counts
    * every feature once. */
  lemma PointRunProcessesAll(e: Engine, filtrex: JsExpression.Filtrex, stringify: JsValue -> string, q: Query,
                             features: seq<JsFeature>, config: JsValue, step: int)
    requires step > 0
    requires forall i :: 0 <= i < |features| ==> features[i].properties.Some?
    ensures var g := PointGetValue(e, filtrex, stringify, q, features, config, step);
      NoThrow(g, step, ChunkCount(|features|, step)) &&
      TotalUpTo(g, step, ChunkCount(|features|, step)) == |features|
  {
    var g := PointGetValue(e, filtrex, stringify, q, features, config, step);
    forall k: nat | k < ChunkCount(|features|, step)
      ensures ChunkAt(g, step, k).Some? && ChunkAt(g, step, k).value.total == |ChunkOf(features, k * step, step)|
    {
      var chunk := ChunkOf(features, k * step, step);
      PointChunkRows(e, filtrex, stringify, q, features, config, k * step, step);
      forall i | 0 <= i < |chunk|
        ensures chunk[i].properties.Some?
      {
        assert chunk[i] in features;
      }
    }
    ProcessedIsFeatureCount(g, features, step);
  }

  /** A Point feature's row places it at its own x and y and at its height (0 without one)
    * lifted by the numeric `translateZ` option. */
  lemma PointRowPosition(e: Engine, options: JsValue, f: JsFeature, p: Position, t: real)
    requires f.properties.Some? && f.geometry == Some(Point(p))
    requires Member(options, "translateZ") == Num(Finite(t)) ||
             (t == 0.0 && !Truthy(Member(options, "translateZ")))
    ensures PointGeometry(e, Instances.ToInstance(e, Instances.Server, options, f).value.coordinates) ==
      PointText(e, p[0], p[1], (if |p| > 2 then p[2] else 0.0) + t)
  {
    Instances.PointCoordinates(e, Instances.Server, options, f, p, t);
  }

  /** The text of a point at `x`, `y`, `z` in SRID 4326. */
  function PointText(e: Engine, x: real, y: real, z: real): string
  {
    PointGeometry(e, [Num(Finite(x)), Num(Finite(y)), Num(Finite(z))])
  }

  /** The point text writes the three numbers as JavaScript prints them, separated by spaces. */
  lemma PointTextShape(e: Engine, x: real, y: real, z: real)
    ensures PointText(e, x, y, z) == "ST_GeomFromText('POINT(" + NumberToString(e, Finite(x)) + " " +
      NumberToString(e, Finite(y)) + " " + NumberToString(e, Finite(z)) + ")', 4326)"
  {
    var c := [Num(Finite(x)), Num(Finite(y)), Num(Finite(z))];
    assert Index(Arr(c), 0) == c[0] && Index(Arr(c), 1) == c[1] && Index(Arr(c), 2) == c[2];
  }

  // Polyhedral surfaces

  /** `${entry[0]} ${entry[1]}` of each attribute. */
  function ColumnDefs(attributes: seq<Info.Attribute>): seq<string>
  {
    seq(|attributes|, i requires 0 <= i < |attributes| => attributes[i].name + " " + Info.TypeName(attributes[i]))
  }

  /** The column lines of `getPolyhedralTableQuery` as written: the geometry line always ends
    * with a comma and the attribute line is always there, empty when there are no attributes. */
  function PolyhedralColumnLinesAsWritten(geometryName: string, attributes: seq<Info.Attribute>): seq<string>
  {
    [I8 + "id serial PRIMARY KEY,", I8 + geometryName + " geometry(POLYHEDRALSURFACEZ, 4978)" + ",",
     I8 + Join(ColumnDefs(attributes), ",\n  ")]
  }

  /** The column lines as intended: the comma and the attribute line only when there are
    * attributes. */
  function PolyhedralColumnLines(geometryName: string, attributes: seq<Info.Attribute>): seq<string>
  {
    if |attributes| == 0 then [I8 + "id serial PRIMARY KEY,", I8 + geometryName + " geometry(POLYHEDRALSURFACEZ, 4978)"]
    else PolyhedralColumnLinesAsWritten(geometryName, attributes)
  }

  /** The create text of `getPolyhedralTableQuery`, with its column lines as written. */
  function PolyhedralCreate(tableName: string, geometryName: string, attributes: seq<Info.Attribute>): string
  {
    Lines(CreateLines(tableName, PolyhedralColumnLinesAsWritten(geometryName, attributes),
                      "gist(st_centroid(st_envelope(" + geometryName + ")))", []))
  }

  /** The create text with the column lines as intended. */
  function PolyhedralCreateCorrected(tableName: string, geometryName: string, attributes: seq<Info.Attribute>): string
  {
    Lines(CreateLines(tableName, PolyhedralColumnLines(geometryName, attributes),
                      "gist(st_centroid(st_envelope(" + geometryName + ")))", []))
  }

  /** `${geometryName}, ${attributes.map(entry => entry[0]).join(', ')}` as written. */
  function InsertColumnsAsWritten(geometryName: string, attributes: seq<Info.Attribute>): string
  {
    geometryName + ", " + Join(Info.Names(attributes), ", ")
  }

  /** The insert columns as intended: the geometry, then the attributes, comma-separated. */
  function InsertColumns(geometryName: string, attributes: seq<Info.Attribute>): string
  {
    Join([geometryName] + Info.Names(attributes), ", ")
  }

  /** `(${geometry}, ${attributes})` as written; None where `Object.keys` throws on a feature
    * without properties. */
  function PolyhedralRowAsWritten(e: Engine, f: TsPolyhedron.SurfaceFeature): Option<string>
  {
    if f.properties.None? then None
    else Some("(" + Wkt(e, f.faces) + ", " + RowValues(e, f.properties.value) + ")")
  }

  /** The row as intended: no separator after the geometry when the feature has no properties. */
  function PolyhedralRow(e: Engine, f: TsPolyhedron.SurfaceFeature): Option<string>
  {
    if f.properties.Some? && |f.properties.value| == 0 then Some("(" + Wkt(e, f.faces) + ")")
    else PolyhedralRowAsWritten(e, f)
  }

  /** A configured numeric option reaches the surface builder as a finite number, or not at all. */
  function NumericOption(v: JsValue): Option<real>
  {
    if v.Num? && v.n.Finite? then Some(v.n.r) else None
  }

  /** `computeOptions` of the polyhedral query: the limits, the translation and the width as
    * numeric expressions read from the configuration. */
  function PolyhedralOptions(filtrex: JsExpression.Filtrex, e: Engine, config: JsValue): JsFeature -> JsPolyhedron.LegacyOptions
  {
    f => JsPolyhedron.LegacyOptions(
      NumericOption(Numeric(filtrex, e, config, "lowerLimit", f)),
      NumericOption(Numeric(filtrex, e, config, "upperLimit", f)),
      NumericOption(Numeric(filtrex, e, config, "translateZ", f)),
      NumericOption(Numeric(filtrex, e, config, "width", f)))
  }

  /** The default filter `(feature, idx) => feature`: a parsed feature is an object, so truthy. */
  function KeepAll(): (JsFeature, nat) -> bool
  {
    (f: JsFeature, i: nat) => true
  }

  /** The polyhedral query's `getValue({ offset })`: the chunk's surfaces, one row each; None
    * where a feature of the chunk throws (no parser for its geometry, no properties). */
  function PolyhedralValue(e: Engine, h: JsPolyhedron.Hosts, filtrex: JsExpression.Filtrex, q: Query,
                           features: seq<JsFeature>, config: JsValue, offset: int, step: int): Option<Chunk>
  {
    ChunkValue(e, h, q, ChunkOf(features, offset, step), PolyhedralOptions(filtrex, e, config))
  }

  /** The value of one chunk of features, converted with the given options. */
  function ChunkValue(e: Engine, h: JsPolyhedron.Hosts, q: Query, chunk: seq<JsFeature>,
                      options: JsFeature -> JsPolyhedron.LegacyOptions): Option<Chunk>
  {
    var surfaces := JsPolyhedron.CollectionToPolyhedralSurfaceZ(h, Some(chunk), KeepAll(), options);
    if surfaces.None? then None
    else
      var rows := MapAll(RowOfSurface(e), surfaces.value);
      if rows.None? then None
      else Some(Chunk(InsertText(q.tableName, InsertColumnsAsWritten(q.geometryName, q.attributes), rows.value), |rows.value|))
  }

  /** `PolyhedralRowAsWritten` as the function the surfaces are mapped with. */
  function RowOfSurface(e: Engine): TsPolyhedron.SurfaceFeature -> Option<string>
  {
    f => PolyhedralRowAsWritten(e, f)
  }

  function PolyhedralGetValue(e: Engine, h: JsPolyhedron.Hosts, filtrex: JsExpression.Filtrex, q: Query,
                              features: seq<JsFeature>, config: JsValue, step: int): int -> Option<Chunk>
  {
    offset => PolyhedralValue(e, h, filtrex, q, features, config, offset, step)
  }

  /** `getPolyhedralTableQuery(collection, config)`: an error where the metadata throws. */
  function PolyhedralTableQuery(e: Engine, features: Option<seq<JsFeature>>, config: JsValue): Result<Query>
  {
    var m :- Info.GetMetadata(e, features, config);
    Ok(Query(m.tableName, m.geometryName, m.attributes, PolyhedralCreate(m.tableName, m.geometryName, m.attributes)))
  }

  /** `insert(step)` of the polyhedral query. */
  method PolyhedralInsert(e: Engine, h: JsPolyhedron.Hosts, filtrex: JsExpression.Filtrex, q: Query,
                          features: Option<seq<JsFeature>>, config: JsValue, step: int) returns (it: InsertIterator?)
    ensures features.None? ==> it == null
    ensures features.Some? ==>
      it != null && fresh(it) && it.limit == |features.value| && it.step == step &&
      it.offset == 0 && it.processed == 0 &&
      it.getValue == PolyhedralGetValue(e, h, filtrex, q, features.value, config, step)
  {
    if features.None? {
      return null;
    }
    it := new InsertIterator(|features.value|, step, PolyhedralGetValue(e, h, filtrex, q, features.value, config, step));
  }

  /** The create text declares the geometry column as POLYHEDRALSURFACEZ in SRID 4978 and one
    * column per attribute, typed `double precision` or `varchar`. */
  lemma PolyhedralCreateColumns(tableName: string, geometryName: string, attributes: seq<Info.Attribute>)
    ensures var create := PolyhedralCreate(tableName, geometryName, attributes);
      Contains(create, I8 + geometryName + " geometry(POLYHEDRALSURFACEZ, 4978)") &&
      forall i :: 0 <= i < |attributes| ==>
        Contains(create, attributes[i].name + " " + Info.TypeName(attributes[i]))
  {
    var g := I8 + geometryName + " geometry(POLYHEDRALSURFACEZ, 4978)";
    var columns := PolyhedralColumnLinesAsWritten(geometryName, attributes);
    var lines := CreateLines(tableName, columns, "gist(st_centroid(st_envelope(" + geometryName + ")))", []);
    assert lines[5] == "" + g + ",";
    JoinPartContains(lines, "\n", 5, "", g, ",");
    if |attributes| > 0 {
      forall i | 0 <= i < |attributes|
        ensures Contains(PolyhedralCreate(tableName, geometryName, attributes),
                         attributes[i].name + " " + Info.TypeName(attributes[i]))
      {
        CreateHasColumn(tableName, geometryName, attributes, i);
      }
    }
  }

  lemma CreateHasColumn(tableName: string, geometryName: string, attributes: seq<Info.Attribute>, i: nat)
    requires i < |attributes|
    ensures Contains(PolyhedralCreate(tableName, geometryName, attributes),
                     attributes[i].name + " " + Info.TypeName(attributes[i]))
  {
    var defs := ColumnDefs(attributes);
    var lines := CreateLines(tableName, PolyhedralColumnLinesAsWritten(geometryName, attributes),
                             "gist(st_centroid(st_envelope(" + geometryName + ")))", []);
    var x, y := JoinAround(defs, ",\n  ", i);
    assert lines[6] == I8 + Join(defs, ",\n  ") by {
      CreateLinesColumn(tableName, PolyhedralColumnLinesAsWritten(geometryName, attributes),
                        "gist(st_centroid(st_envelope(" + geometryName + ")))", [], 2);
    }
    PrefixedInfix(I8, Join(defs, ",\n  "), x, defs[i], y);
    JoinPartContains(lines, "\n", 6, I8 + x, defs[i], y);
  }

  /** A text with an infix keeps it behind a prefix. */
  lemma PrefixedInfix(prefix: string, s: string, a: string, sub: string, b: string)
    requires s == a + sub + b
    ensures prefix + s == (prefix + a) + sub + b
  {
  }

  /** The column lines follow the four opening lines of the create text. */
  lemma CreateLinesColumn(tableName: string, columns: seq<string>, indexUsing: string, gap: seq<string>, k: nat)
    requires k < |columns|
    ensures |CreateLines(tableName, columns, indexUsing, gap)| > 4 + k
    ensures CreateLines(tableName, columns, indexUsing, gap)[4 + k] == columns[k]
  {
  }

  /** The polyhedral table is named after the file and its columns are the metadata's. */
  lemma PolyhedralTable(e: Engine, features: Option<seq<JsFeature>>, config: JsValue)
    requires Info.TableName(config).Ok?
    ensures var q := PolyhedralTableQuery(e, features, config);
      q.Ok? && q.value.tableName == Info.TableName(config).value && q.value.geometryName == "geom" &&
      q.value.attributes == Info.GetMetadata(e, features, config).value.attributes &&
      q.value.create == PolyhedralCreate(q.value.tableName, "geom", q.value.attributes)
  {
  }


  /** The default filter keeps every feature. */
  lemma {:induction false} KeepAllKeepsAll(features: seq<JsFeature>)
    ensures FilterIndexed(features, KeepAll()) == features
  {
    if |features| > 0 {
      var n := |features| - 1;
      KeepAllKeepsAll(features[..n]);
      assert features[..n] + [features[n]] == features;
    }
  }

  /** Every feature of the chunk has a surface (a parser for its geometry) and properties. */
  ghost predicate ChunkWritable(h: JsPolyhedron.Hosts, options: JsFeature -> JsPolyhedron.LegacyOptions,
                                chunk: seq<JsFeature>)
  {
    forall i :: 0 <= i < |chunk| ==>
      JsPolyhedron.ParseFeature(h, chunk[i], options(chunk[i])).Some? && chunk[i].properties.Some?
  }

  /** Every chunk has one row per feature it covers, and throws exactly when one of them has no
    * surface (no parser for its geometry) or no properties. */
  lemma PolyhedralChunkRows(e: Engine, h: JsPolyhedron.Hosts, filtrex: JsExpression.Filtrex, q: Query,
                            features: seq<JsFeature>, config: JsValue, offset: int, step: int)
    ensures var chunk := ChunkOf(features, offset, step);
      var v := PolyhedralValue(e, h, filtrex, q, features, config, offset, step);
      (v.Some? <==> ChunkWritable(h, PolyhedralOptions(filtrex, e, config), chunk)) &&
      (v.Some? ==> v.value.total == |chunk|)
  {
    ChunkValueRows(e, h, q, ChunkOf(features, offset, step), PolyhedralOptions(filtrex, e, config));
  }

  /** A chunk's value holds one row per feature exactly when the chunk is writable. */
  lemma ChunkValueRows(e: Engine, h: JsPolyhedron.Hosts, q: Query, chunk: seq<JsFeature>,
                       options: JsFeature -> JsPolyhedron.LegacyOptions)
    ensures var v := ChunkValue(e, h, q, chunk, options);
      (v.Some? <==> ChunkWritable(h, options, chunk)) && (v.Some? ==> v.value.total == |chunk|)
  {
    KeepAllKeepsAll(chunk);
    JsPolyhedron.CollectionMapsKeptFeatures(h, chunk, KeepAll(), options);
    var surfaces := JsPolyhedron.CollectionToPolyhedralSurfaceZ(h, Some(chunk), KeepAll(), options);
    assert JsPolyhedron.ConvertsInOrder(h, options, chunk, surfaces);
    if surfaces.Some? {
      ChunkRowsOfSurfaces(e, h, options, chunk, surfaces.value);
    } else {
      NoSurfacesNotWritable(h, options, chunk);
    }
  }

  /** Surfaces converted from a chunk give one row each, exactly when the chunk is writable. */
  lemma ChunkRowsOfSurfaces(e: Engine, h: JsPolyhedron.Hosts, options: JsFeature -> JsPolyhedron.LegacyOptions,
                            chunk: seq<JsFeature>, surfaces: seq<TsPolyhedron.SurfaceFeature>)
    requires JsPolyhedron.ConvertsInOrder(h, options, chunk, Some(surfaces))
    ensures var rows := MapAll(RowOfSurface(e), surfaces);
      (rows.Some? <==> ChunkWritable(h, options, chunk)) &&
      (rows.Some? ==> |rows.value| == |chunk|)
  {
    forall i | 0 <= i < |chunk|
      ensures RowOfSurface(e)(surfaces[i]).Some? <==> chunk[i].properties.Some?
    {
    }
  }

  /** A chunk whose conversion fails is not writable. */
  lemma NoSurfacesNotWritable(h: JsPolyhedron.Hosts, options: JsFeature -> JsPolyhedron.LegacyOptions,
                              chunk: seq<JsFeature>)
    requires JsPolyhedron.ConvertsInOrder(h, options, chunk, None)
    ensures !ChunkWritable(h, options, chunk)
  {
  }

  /** A full run over a collection whose features all have a surface and properties never
    * throws and counts every feature once. */
  lemma PolyhedralRunProcessesAll(e: Engine, h: JsPolyhedron.Hosts, filtrex: JsExpression.Filtrex, q: Query,
                                  features: seq<JsFeature>, config: JsValue, step: int)
    requires step > 0
    requires ChunkWritable(h, PolyhedralOptions(filtrex, e, config), features)
    ensures var g := PolyhedralGetValue(e, h, filtrex, q, features, config, step);
      NoThrow(g, step, ChunkCount(|features|, step)) &&
      TotalUpTo(g, step, ChunkCount(|features|, step)) == |features|
  {
    var g := PolyhedralGetValue(e, h, filtrex, q, features, config, step);
    forall k: nat | k < ChunkCount(|features|, step)
      ensures ChunkAt(g, step, k).Some? && ChunkAt(g, step, k).value.total == |ChunkOf(features, k * step, step)|
    {
      var chunk := ChunkOf(features, k * step, step);
      PolyhedralChunkRows(e, h, filtrex, q, features, config, k * step, step);
      assert ChunkWritable(h, PolyhedralOptions(filtrex, e, config), chunk) by {
        forall i | 0 <= i < |chunk|
          ensures JsPolyhedron.ParseFeature(h, chunk[i], PolyhedralOptions(filtrex, e, config)(chunk[i])).Some? &&
                  chunk[i].properties.Some?
        {
          assert chunk[i] in features;
        }
      }
    }
    ProcessedIsFeatureCount(g, features, step);
  }

  /** As written, a collection whose first feature has no properties gets a column list, an
    * insert column list and rows whose last non-blank character before the closing parenthesis
    * is a comma, which SQL rejects. */
  lemma PolyhedralSqlAsWrittenTrailingComma(e: Engine, geometryName: string, faces: seq<Face>, others: Props)
    ensures LastNonBlank(Lines(PolyhedralColumnLinesAsWritten(geometryName, []))) == Some(',')
    ensures LastNonBlank(InsertColumnsAsWritten(geometryName, [])) == Some(',')
    ensures PolyhedralRowAsWritten(e, TsPolyhedron.SurfaceFeature(Some([]), others, faces)) ==
      Some("(" + Wkt(e, faces) + ", " + ")")
  {
    var lines := PolyhedralColumnLinesAsWritten(geometryName, []);
    var head := I8 + "id serial PRIMARY KEY," + "\n" + I8 + geometryName + " geometry(POLYHEDRALSURFACEZ, 4978)";
    assert Join(ColumnDefs([]), ",\n  ") == "";
    assert lines[2] == I8;
    assert lines[1] == I8 + geometryName + " geometry(POLYHEDRALSURFACEZ, 4978)" + [','];
    assert Join(lines[1..], "\n") == lines[1] + "\n" + lines[2];
    assert Lines(lines) == lines[0] + "\n" + (lines[1] + "\n" + lines[2]);
    assert Lines(lines) == head + [','] + ("\n" + I8);
    LastNonBlankSkipsBlanks(head + [','], "\n" + I8);
    assert InsertColumnsAsWritten(geometryName, []) == geometryName + [','] + " ";
    LastNonBlankSkipsBlanks(geometryName + [','], " ");
    var p: Props := [];
    assert RowValues(e, p) == "";
    assert "(" + Wkt(e, faces) + ", " + RowValues(e, p) + ")" == "(" + Wkt(e, faces) + ", " + ")";
  }

  /** The last character of a join of non-empty pieces is the last piece's. */
  lemma JoinLastChar(parts: seq<string>, sep: string)
    requires |parts| >= 1 && |parts[|parts| - 1]| >= 1
    ensures var j := Join(parts, sep); var last := parts[|parts| - 1];
      |j| >= 1 && j[|j| - 1] == last[|last| - 1]
  {
    JoinEndsWithLast(parts, sep);
    var j := Join(parts, sep);
    var last := parts[|parts| - 1];
    assert j[|j| - 1] == j[|j| - |last|..][|last| - 1];
  }

  /** As intended, the column list ends with the geometry's type when there are no attributes and
    * with the last attribute's type otherwise, never with a comma; with attributes it is the
    * text as written. */
  lemma PolyhedralColumnsCorrected(geometryName: string, attributes: seq<Info.Attribute>)
    ensures |attributes| > 0 ==>
      PolyhedralColumnLines(geometryName, attributes) == PolyhedralColumnLinesAsWritten(geometryName, attributes)
    ensures LastNonBlank(Lines(PolyhedralColumnLines(geometryName, attributes))) ==
      Some(if |attributes| == 0 then ')' else if attributes[|attributes| - 1].numeric then 'n' else 'r')
  {
    var lines := PolyhedralColumnLines(geometryName, attributes);
    var last := lines[|lines| - 1];
    if |attributes| == 0 {
      assert last == I8 + geometryName + " geometry(POLYHEDRALSURFACEZ, 4978)";
      assert last[|last| - 1] == ')';
    } else {
      LastColumnDef(attributes);
      assert last == I8 + Join(ColumnDefs(attributes), ",\n  ");
    }
    JoinLastChar(lines, "\n");
  }

  /** With attributes, the intended create text is the text as written; without them it differs
    * only in the column lines. */
  lemma PolyhedralCreateCorrectedAgrees(tableName: string, geometryName: string, attributes: seq<Info.Attribute>)
    ensures |attributes| > 0 ==>
      PolyhedralCreateCorrected(tableName, geometryName, attributes) == PolyhedralCreate(tableName, geometryName, attributes)
    ensures PolyhedralCreateCorrected(tableName, geometryName, []) ==
      Lines(CreateLines(tableName, [I8 + "id serial PRIMARY KEY,", I8 + geometryName + " geometry(POLYHEDRALSURFACEZ, 4978)"],
                        "gist(st_centroid(st_envelope(" + geometryName + ")))", []))
  {
    PolyhedralColumnsCorrected(geometryName, attributes);
  }

  /** The attribute lines end with the last attribute's type. */
  lemma LastColumnDef(attributes: seq<Info.Attribute>)
    requires |attributes| > 0
    ensures var j := Join(ColumnDefs(attributes), ",\n  ");
      |j| >= 1 && j[|j| - 1] == if attributes[|attributes| - 1].numeric then 'n' else 'r'
  {
    var defs := ColumnDefs(attributes);
    var a := attributes[|attributes| - 1];
    var d := defs[|defs| - 1];
    assert d == a.name + " " + Info.TypeName(a);
    assert d[|d| - 1] == (if a.numeric then 'n' else 'r');
    JoinLastChar(defs, ",\n  ");
  }

  /** As intended, the insert columns are the geometry alone when there are no attributes, and
    * a row without properties is the geometry alone; with attributes, and for rows with
    * properties, they are the texts as written. */
  lemma PolyhedralInsertCorrected(e: Engine, geometryName: string, attributes: seq<Info.Attribute>,
                                  f: TsPolyhedron.SurfaceFeature)
    ensures |attributes| > 0 ==>
      InsertColumns(geometryName, attributes) == InsertColumnsAsWritten(geometryName, attributes)
    ensures InsertColumns(geometryName, []) == geometryName
    ensures f.properties != Some([]) ==> PolyhedralRow(e, f) == PolyhedralRowAsWritten(e, f)
    ensures f.properties == Some([]) ==> PolyhedralRow(e, f) == Some("(" + Wkt(e, f.faces) + ")")
  {
    if |attributes| > 0 {
      JoinAppend([geometryName], Info.Names(attributes), ", ");
    }
    assert [geometryName] + Info.Names([]) == [geometryName];
  }

}
