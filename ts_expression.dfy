/** The frontend's per-feature expression evaluator. Unlike the backend's, nothing is
  * caught, operands are evaluated only when truthy, and the operators are JavaScript's own. */
module TsExpression {
  import opened Wrappers
  import opened Numbers
  import opened Text
  import opened GeoJson
  import opened JsValues
  import opened Lists
  import opened Elevation

  /** What `getFunc(name, feature)` returns or throws. */
  function GetFuncSpec(name: JsValue, f: JsFeature): Completion
  {
    if name == Str("$maxZ") || name == Str("$minZ") then
      match f.geometry
      case None => Throw
      case Some(Point(p)) => Normal(NumberValue(Z(p)))
      case Some(Polygon(rings)) =>
        var zs := ZNumbers(Flatten(rings));
        Normal(Num(if name == Str("$maxZ") then MathMax(zs) else MathMin(zs)))
      case _ => Normal(Null)
    else Normal(Null)
  }

  /** One step of the loops: visiting `p` after `ps` compares its z against the running extremes. */
  lemma ZStep(ps: seq<Position>, p: Position)
    ensures MathMin(ZNumbers(ps + [p])) == (if Less(Finite(Z(p)), MathMin(ZNumbers(ps))) then Finite(Z(p)) else MathMin(ZNumbers(ps)))
    ensures MathMax(ZNumbers(ps + [p])) == (if Less(MathMax(ZNumbers(ps)), Finite(Z(p))) then Finite(Z(p)) else MathMax(ZNumbers(ps)))
  {
    assert ZNumbers(ps + [p])[..|ps|] == ZNumbers(ps);
  }

  /** The inner loop of `getFunc`: visiting one ring after the positions `before` carries the
    * running extremes on to those of `before + ring`. */
  method ScanRing(ghost before: seq<Position>, ring: seq<Position>, minZ0: Number, maxZ0: Number)
    returns (minZ: Number, maxZ: Number)
    requires minZ0 == MathMin(ZNumbers(before)) && maxZ0 == MathMax(ZNumbers(before))
    ensures minZ == MathMin(ZNumbers(before + ring)) && maxZ == MathMax(ZNumbers(before + ring))
  {
    minZ, maxZ := minZ0, maxZ0;
    var y := 0;
    assert before + ring[..y] == before;
    while y < |ring|
      invariant 0 <= y <= |ring|
      invariant minZ == MathMin(ZNumbers(before + ring[..y]))
      invariant maxZ == MathMax(ZNumbers(before + ring[..y]))
    {
      var z := Z(ring[y]);
      ZStep(before + ring[..y], ring[y]);
      assert before + ring[..y + 1] == (before + ring[..y]) + [ring[y]];
      if Less(Finite(z), minZ) {
        minZ := Finite(z);
      }
      if Less(maxZ, Finite(z)) {
        maxZ := Finite(z);
      }
      y := y + 1;
    }
    assert ring[..y] == ring;
  }

  /** The outer loop of `getFunc`: the extremes of the z values of every ring's positions,
    * starting from `Infinity` and `-Infinity`. */
  method PolygonExtremes(rings: seq<seq<Position>>) returns (minZ: Number, maxZ: Number)
    ensures minZ == MathMin(ZNumbers(Flatten(rings))) && maxZ == MathMax(ZNumbers(Flatten(rings)))
  {
    minZ := PosInf;
    maxZ := NegInf;
    var i := 0;
    while i < |rings|
      invariant 0 <= i <= |rings|
      invariant minZ == MathMin(ZNumbers(Flatten(rings[..i])))
      invariant maxZ == MathMax(ZNumbers(Flatten(rings[..i])))
    {
      minZ, maxZ := ScanRing(Flatten(rings[..i]), rings[i], minZ, maxZ);
      assert rings[..i + 1] == rings[..i] + [rings[i]];
      FlattenSnoc(rings[..i], rings[i]);
      i := i + 1;
    }
    assert rings[..i] == rings;
  }

  /** `getFunc`, with its nested loops updating `minZ` and `maxZ`. */
  method GetFunc(name: JsValue, f: JsFeature) returns (r: Completion)
    ensures r == GetFuncSpec(name, f)
  {
    if name == Str("$maxZ") || name == Str("$minZ") {
      if f.geometry.None? {
        return Throw;
      }
      var g := f.geometry.value;
      if g.Point? {
        return Normal(NumberValue(Z(g.position)));
      }
      if g.Polygon? {
        var minZ, maxZ := PolygonExtremes(g.rings);
        return Normal(Num(if name == Str("$maxZ") then maxZ else minZ));
      }
    }
    return Normal(Null);
  }

  /** The `switch (operator)` of `parseExpression`, once both operands are known. */
  function Apply(e: Engine, op: JsValue, a: JsValue, b: JsValue, f: JsFeature): Completion
  {
    if op == Str("+") then Normal(Plus(e, a, b))
    else if op == Str("-") then Normal(Minus(e, a, b))
    else if op == Str("*") then Normal(Times(e, a, b))
    else if op == Str("/") then Normal(Divide(e, a, b))
    else if op == Str("concat") then Normal(Str(ToString(e, a) + ToString(e, b)))
    else if op == Str("lowercase") then Normal(Str(Lower(ToString(e, a))))
    else if op == Str("uppercase") then Normal(Str(Upper(ToString(e, a))))
    else if op == Str("property") then
      Normal(if f.properties.None? then Undefined else Lookup(f.properties.value, ToString(e, a)))
    else if op == Str("func") then GetFuncSpec(a, f)
    else Normal(Null)
  }

  /** `parseExpression(type, value, feature)` */
  function ParseExpression(e: Engine, kind: string, value: JsValue, f: JsFeature): Completion
    decreases value
  {
    if value == Str("") || value == Undefined then Normal(Undefined)
    else if !value.Arr? then
      if kind == "string" then Normal(Str(ToString(e, value)))
      else if kind == "number" then Normal(Num(ParseFloat(e, value)))
      else Normal(value)
    else
      var items := value.elems;
      var op := if |items| > 0 then items[0] else Undefined;
      var sub := if op == Str("property") || op == Str("func") then "" else kind;
      var a := if |items| > 1 && Truthy(items[1]) then ParseExpression(e, sub, items[1], f) else Normal(Undefined);
      if a.Throw? then Throw
      else
        var b := if |items| > 2 && Truthy(items[2]) then ParseExpression(e, sub, items[2], f) else Normal(Undefined);
        if b.Throw? then Throw
        else Apply(e, op, a.v, b.v, f)
  }

  // ---------------------------------------------------------------------------
  // Properties

  /** `""` and `undefined` evaluate to `undefined`, whatever the kind. */
  lemma EmptyIsUndefined(e: Engine, kind: string, f: JsFeature)
    ensures ParseExpression(e, kind, Str(""), f) == Normal(Undefined)
    ensures ParseExpression(e, kind, Undefined, f) == Normal(Undefined)
  {
  }

  /** Non-array values: a template string for "string", `parseFloat` for "number", the value otherwise. */
  lemma ScalarCoercion(e: Engine, kind: string, v: JsValue, f: JsFeature)
    requires !v.Arr? && v != Str("") && v != Undefined
    ensures kind == "string" ==> ParseExpression(e, kind, v, f) == Normal(Str(ToString(e, v)))
    ensures kind == "number" ==> ParseExpression(e, kind, v, f) == Normal(Num(ParseFloat(e, v)))
    ensures kind != "string" && kind != "number" ==> ParseExpression(e, kind, v, f) == Normal(v)
  {
  }

  /** A falsy operand is never evaluated: `["+", 1, 0]` under "number" is `1 + undefined`, NaN. */
  lemma FalsyOperandSkipped(e: Engine, f: JsFeature)
    ensures ParseExpression(e, "number", Arr([Str("+"), NumberValue(1.0), NumberValue(0.0)]), f) == Normal(Num(NaN))
  {
    assert ParseExpression(e, "number", NumberValue(1.0), f) == Normal(NumberValue(1.0));
  }

  /** ... and a falsy string operand is concatenated as the text "undefined". */
  lemma FalsyOperandInConcat(e: Engine, kind: string, f: JsFeature)
    requires kind != "number"
    ensures ParseExpression(e, kind, Arr([Str("concat"), Str("a"), Str("")]), f) == Normal(Str("aundefined"))
  {
    assert ParseExpression(e, kind, Str("a"), f) == Normal(Str("a"));
    assert "a" + "undefined" == "aundefined";
  }

  /** No numeric coercion of its own: with kind "" the texts "1" and "2" add up to "12"... */
  lemma PlusConcatenatesText(e: Engine, f: JsFeature)
    ensures ParseExpression(e, "", Arr([Str("+"), Str("1"), Str("2")]), f) == Normal(Str("12"))
  {
    assert ParseExpression(e, "", Str("1"), f) == Normal(Str("1"));
    assert ParseExpression(e, "", Str("2"), f) == Normal(Str("2"));
    assert "1" + "2" == "12";
  }

  /** ... while under "number" the operands are parsed first and add up to 3. */
  lemma PlusAddsParsedNumbers(e: Engine, f: JsFeature)
    ensures ParseExpression(e, "number", Arr([Str("+"), Str("1"), Str("2")]), f) == Normal(NumberValue(3.0))
  {
    DigitTextParses(e, f, 1);
    DigitTextParses(e, f, 2);
    assert Apply(e, Str("+"), NumberValue(1.0), NumberValue(2.0), f) == Normal(NumberValue(3.0));
  }

  lemma DigitTextParses(e: Engine, f: JsFeature, n: nat)
    requires 0 < n < 10
    ensures ParseExpression(e, "number", Str(IntToString(n)), f) == Normal(NumberValue(n as real))
    ensures IntToString(n) == [DigitChar(n)]
  {
    IntToStringIsPlainDecimal(n);
  }

  /** 'property' and 'func' operands are evaluated with kind "", so the outer kind does not matter. */
  lemma LookupOperandsIgnoreKind(e: Engine, k1: string, k2: string, op: string, items: seq<JsValue>, f: JsFeature)
    requires op == "property" || op == "func"
    requires |items| >= 1 && items[0] == Str(op)
    ensures ParseExpression(e, k1, Arr(items), f) == ParseExpression(e, k2, Arr(items), f)
  {
  }

  /** 'property' reads `feature?.properties?.[a]`: undefined when absent or without properties. */
  lemma PropertyLookup(e: Engine, kind: string, key: string, f: JsFeature)
    requires key != ""
    ensures ParseExpression(e, kind, Arr([Str("property"), Str(key)]), f)
         == Normal(if f.properties.None? then Undefined else Lookup(f.properties.value, key))
  {
    assert ParseExpression(e, "", Str(key), f) == Normal(Str(key));
  }

  /** An unknown operator returns null. */
  lemma UnknownOperatorIsNull(e: Engine, kind: string, op: JsValue, f: JsFeature)
    requires op !in {Str("+"), Str("-"), Str("*"), Str("/"), Str("concat"), Str("lowercase"),
                     Str("uppercase"), Str("property"), Str("func")}
    ensures ParseExpression(e, kind, Arr([op]), f) == Normal(Null)
  {
  }

  /** Nothing is caught: a 'func' call on a feature without geometry throws. */
  lemma FuncWithoutGeometryThrows(e: Engine, kind: string, name: string, f: JsFeature)
    requires name == "$minZ" || name == "$maxZ"
    requires f.geometry.None?
    ensures ParseExpression(e, kind, Arr([Str("func"), Str(name)]), f) == Throw
  {
    assert ParseExpression(e, "", Str(name), f) == Normal(Str(name));
  }

  /** `getFunc`: a Point gives `coordinates[2] || 0`; a Polygon gives the least (greatest) z over
    * all ring positions, missing z counting as 0, or +Infinity (-Infinity) without positions;
    * other geometries give null. */
  lemma GetFuncValues(name: JsValue, f: JsFeature)
    requires name == Str("$maxZ") || name == Str("$minZ")
    requires f.geometry.Some?
    ensures f.geometry.value.Point? ==> GetFuncSpec(name, f) == Normal(NumberValue(Z(f.geometry.value.position)))
    ensures f.geometry.value.Polygon? ==>
      var zs := ZValues(Flatten(f.geometry.value.rings));
      var m := GetFuncSpec(name, f).v.n;
      (zs == [] ==> m == (if name == Str("$maxZ") then NegInf else PosInf)) &&
      (zs != [] ==> m.Finite? && m.r in zs) &&
      (forall z :: z in zs ==> m == Finite(z) || (if name == Str("$maxZ") then Less(Finite(z), m) else Less(m, Finite(z))))
    ensures !(f.geometry.value.Point? || f.geometry.value.Polygon?) ==> GetFuncSpec(name, f) == Normal(Null)
  {
    if f.geometry.value.Polygon? {
      var zs := ZValues(Flatten(f.geometry.value.rings));
      MathMinOfFinites(zs);
      MathMaxOfFinites(zs);
    }
  }
}
