/** The backend's per-feature expression evaluator: a recursive interpreter over
  * `[operator, a, b]` lists that never raises, answering a default value instead. */
module PyExpression {
  import opened Wrappers
  import opened Numbers
  import opened Text
  import opened GeoJson
  import opened PyValues
  import opened Lists

  /** `get_z`: the third coordinate of a three-component position as `json.loads` read it,
    * else the int 0. */
  function GetZ(p: Position): PyValue
  {
    if |p| == 3 then JsonCoordinate(p[2]) else PyInt(0)
  }

  function ZNumber(p: Position): Number
  {
    NumOf(GetZ(p)).value
  }

  /** The `min_z` loop of `get_func`, starting from `math.inf` and replaced on `z < min_z`. */
  function MinZ(ps: seq<Position>): (m: PyValue)
    ensures NumOf(m).Some?
    ensures ps == [] ==> m == PyFloat(PosInf)
    ensures ps != [] ==> exists k :: 0 <= k < |ps| && m == GetZ(ps[k])
    ensures forall k :: 0 <= k < |ps| ==> !Less(ZNumber(ps[k]), NumOf(m).value)
  {
    if |ps| == 0 then PyFloat(PosInf)
    else
      var m := MinZ(ps[..|ps| - 1]);
      var z := GetZ(ps[|ps| - 1]);
      if Less(ZNumber(ps[|ps| - 1]), NumOf(m).value) then z else m
  }

  /** The `max_z` loop of `get_func`, starting from `-math.inf` and replaced on `z > max_z`. */
  function MaxZ(ps: seq<Position>): (m: PyValue)
    ensures NumOf(m).Some?
    ensures ps == [] ==> m == PyFloat(NegInf)
    ensures ps != [] ==> exists k :: 0 <= k < |ps| && m == GetZ(ps[k])
    ensures forall k :: 0 <= k < |ps| ==> !Less(NumOf(m).value, ZNumber(ps[k]))
  {
    if |ps| == 0 then PyFloat(NegInf)
    else
      var m := MaxZ(ps[..|ps| - 1]);
      var z := GetZ(ps[|ps| - 1]);
      if Less(NumOf(m).value, ZNumber(ps[|ps| - 1])) then z else m
  }

  /** `get_func(name, feature)` */
  function GetFunc(name: PyValue, f: PyFeature): PyValue
  {
    if name == PyStr("$maxZ") || name == PyStr("$minZ") then
      match f.geometry
      case Some(Decoded(Point(p))) => GetZ(p)
      case Some(Decoded(Polygon(rings))) =>
        if name == PyStr("$maxZ") then MaxZ(Flatten(rings)) else MinZ(Flatten(rings))
      case Some(PlacedPoint(_, _, z)) => z
      case _ => PyNone
    else PyNone
  }

  /** How one evaluation ends: with a value, or with an exception. */
  datatype Outcome = Returned(v: PyValue) | Raised

  /** `float(a) op float(b)` */
  function Arithmetic(ip: Interpreter, op: string, a: PyValue, b: PyValue): Outcome
  {
    match (Float(ip, a), Float(ip, b))
    case (Some(x), Some(y)) =>
      if op == "+" then Returned(PyFloat(Add(x, y)))
      else if op == "-" then Returned(PyFloat(Sub(x, y)))
      else if op == "*" then Returned(PyFloat(Mul(x, y)))
      else if y == Finite(0.0) then Raised
      else Returned(PyFloat(Div(x, y)))
    case _ => Raised
  }

  /** The operator dispatch of `parse_expression`, once both operands are known. */
  function Apply(ip: Interpreter, op: PyValue, a: PyValue, b: PyValue, f: PyFeature): Outcome
  {
    if op in {PyStr("+"), PyStr("-"), PyStr("*"), PyStr("/")} then Arithmetic(ip, op.s, a, b)
    else if op == PyStr("concat") then Returned(PyStr(Str(ip, a) + Str(ip, b)))
    else if op == PyStr("lowercase") then Returned(PyStr(Lower(Str(ip, a))))
    else if op == PyStr("uppercase") then Returned(PyStr(Upper(Str(ip, a))))
    else if op == PyStr("property") then
      match f.properties
      case None => Raised
      case Some(props) =>
        if a.PyList? || a.PyDict? then Raised
        else if a.PyStr? && Get(props, a.s).Some? then Returned(Get(props, a.s).value)
        else Returned(PyNone)
    else if op == PyStr("func") then Returned(GetFunc(a, f))
    else Returned(PyNone)
  }

  /** The body of `parse_expression` inside its `try`. */
  function Evaluate(ip: Interpreter, kind: string, value: PyValue, f: PyFeature): Outcome
    decreases value, 0
  {
    if !value.PyList? then
      if value == PyNone then Returned(PyNone)
      else if kind == "string" then Returned(PyStr(Str(ip, value)))
      else if kind == "number" then
        match Float(ip, value)
        case Some(n) => Returned(PyFloat(n))
        case None => Raised
      else Returned(value)
    else if |value.items| == 0 then Raised
    else
      var items := value.items;
      var op := items[0];
      var sub := if op == PyStr("property") || op == PyStr("func") then "" else kind;
      var a := if |items| > 1 then ParseExpression(ip, sub, items[1], f, PyNone) else PyNone;
      var b := if |items| > 2 then ParseExpression(ip, sub, items[2], f, PyNone) else PyNone;
      Apply(ip, op, a, b, f)
  }

  /** `parse_expression(type, value, feature, default_value)` */
  function ParseExpression(ip: Interpreter, kind: string, value: PyValue, f: PyFeature, default: PyValue): PyValue
    decreases value, 1
  {
    match Evaluate(ip, kind, value, f)
    case Returned(v) => v
    case Raised => default
  }

  // ---------------------------------------------------------------------------
  // Properties

  /** A non-list `None` yields `None`, never the caller's default. */
  lemma NoneYieldsNone(ip: Interpreter, kind: string, f: PyFeature, default: PyValue)
    ensures ParseExpression(ip, kind, PyNone, f, default) == PyNone
  {
  }

  /** A non-list scalar is coerced by kind: text for 'string', `float()` for 'number'
    * (the default when that raises), unchanged otherwise. */
  lemma ScalarCoercion(ip: Interpreter, kind: string, v: PyValue, f: PyFeature, default: PyValue)
    requires !v.PyList? && v != PyNone
    ensures kind == "string" ==> ParseExpression(ip, kind, v, f, default) == PyStr(Str(ip, v))
    ensures kind == "number" && Float(ip, v).Some? ==>
      ParseExpression(ip, kind, v, f, default) == PyFloat(Float(ip, v).value)
    ensures kind == "number" && Float(ip, v).None? ==> ParseExpression(ip, kind, v, f, default) == default
    ensures kind != "string" && kind != "number" ==> ParseExpression(ip, kind, v, f, default) == v
  {
  }

  /** Errors give the default: an empty list, and an arithmetic operator missing an operand
    * (whose `float(None)` raises). */
  lemma ErrorsGiveDefault(ip: Interpreter, kind: string, op: string, x: PyValue, f: PyFeature, default: PyValue)
    requires op in {"+", "-", "*", "/"}
    ensures ParseExpression(ip, kind, PyList([]), f, default) == default
    ensures ParseExpression(ip, kind, PyList([PyStr(op), x]), f, default) == default
  {
  }

  /** Division by zero gives the default, whatever the dividend. */
  lemma DivisionByZeroGivesDefault(ip: Interpreter, kind: string, x: PyValue, y: PyValue, f: PyFeature, default: PyValue)
    requires Float(ip, ParseExpression(ip, kind, y, f, PyNone)) == Some(Finite(0.0))
    ensures ParseExpression(ip, kind, PyList([PyStr("/"), x, y]), f, default) == default
  {
  }

  /** An operand that raises becomes `None`, not the outer default: concatenating a failed
    * division gives the text 'None'. */
  lemma FailedOperandIsNone(ip: Interpreter, x: PyValue, f: PyFeature, default: PyValue)
    ensures ParseExpression(ip, "", PyList([PyStr("concat"), PyList([PyStr("/"), x, PyInt(0)]), PyStr("m")]), f, default)
         == PyStr("Nonem")
  {
    var inner := PyList([PyStr("/"), x, PyInt(0)]);
    assert ParseExpression(ip, "", PyInt(0), f, PyNone) == PyInt(0);
    assert Evaluate(ip, "", inner, f) == Raised;
    assert ParseExpression(ip, "", inner, f, PyNone) == PyNone;
    assert ParseExpression(ip, "", PyStr("m"), f, PyNone) == PyStr("m");
    assert Str(ip, PyNone) + Str(ip, PyStr("m")) == "Nonem";
  }

  /** Only `value[1]` and `value[2]` are evaluated: further elements never matter. */
  lemma OnlyTwoOperands(ip: Interpreter, kind: string, items: seq<PyValue>, f: PyFeature, default: PyValue)
    requires |items| >= 3
    ensures ParseExpression(ip, kind, PyList(items), f, default)
         == ParseExpression(ip, kind, PyList(items[..3]), f, default)
  {
    assert items[..3][0] == items[0] && items[..3][1] == items[1] && items[..3][2] == items[2];
  }

  /** Operands of 'property' and 'func' are evaluated with kind '', so the outer kind does not matter. */
  lemma LookupOperandsIgnoreKind(ip: Interpreter, k1: string, k2: string, op: string, items: seq<PyValue>,
                                 f: PyFeature, default: PyValue)
    requires op == "property" || op == "func"
    requires |items| >= 1 && items[0] == PyStr(op)
    ensures ParseExpression(ip, k1, PyList(items), f, default) == ParseExpression(ip, k2, PyList(items), f, default)
  {
  }

  /** Other operators pass the outer kind down: under 'number', concat of the texts '1' and
    * '2' joins the floats 1.0 and 2.0. */
  lemma KindFlowsIntoOperands(ip: Interpreter, f: PyFeature, default: PyValue)
    ensures ParseExpression(ip, "number", PyList([PyStr("concat"), PyStr("1"), PyStr("2")]), f, default)
         == PyStr("1.02.0")
  {
    var a := PyFloat(Finite(1.0));
    var b := PyFloat(Finite(2.0));
    DigitOperands(ip, f);
    BinaryOperands(ip, "number", PyStr("concat"), PyStr("1"), PyStr("2"), f);
    assert Apply(ip, PyStr("concat"), a, b, f) == Returned(PyStr("1.02.0")) by {
      DigitTexts(ip);
      assert "1.0" + "2.0" == "1.02.0";
    }
  }

  /** The texts '1' and '2' evaluate to the floats 1.0 and 2.0 under 'number'. */
  lemma DigitOperands(ip: Interpreter, f: PyFeature)
    ensures ParseExpression(ip, "number", PyStr("1"), f, PyNone) == PyFloat(Finite(1.0))
    ensures ParseExpression(ip, "number", PyStr("2"), f, PyNone) == PyFloat(Finite(2.0))
  {
    DigitTexts(ip);
  }

  /** A two-operand node whose operator is not 'property' or 'func' applies it to its operands
    * evaluated under the same kind. */
  lemma BinaryOperands(ip: Interpreter, kind: string, op: PyValue, x: PyValue, y: PyValue, f: PyFeature)
    requires op != PyStr("property") && op != PyStr("func")
    ensures Evaluate(ip, kind, PyList([op, x, y]), f) ==
      Apply(ip, op, ParseExpression(ip, kind, x, f, PyNone), ParseExpression(ip, kind, y, f, PyNone), f)
  {
  }

  /** `float("1")` and `float("2")`, and the text of the floats they give. */
  lemma DigitTexts(ip: Interpreter)
    ensures Float(ip, PyStr("1")) == Some(Finite(1.0)) && Float(ip, PyStr("2")) == Some(Finite(2.0))
    ensures Str(ip, PyFloat(Finite(1.0))) == "1.0" && Str(ip, PyFloat(Finite(2.0))) == "2.0"
  {
    assert IntToString(1) == "1" && IntToString(2) == "2" by {
      assert NatToString(1) == "1" && NatToString(2) == "2";
    }
    IntToStringIsPlainDecimal(1);
    IntToStringIsPlainDecimal(2);
  }

  /** 'property' returns the property when its key is present and `None` when it is absent;
    * a feature without properties gives the default (KeyError). */
  lemma PropertyLookup(ip: Interpreter, kind: string, key: string, props: Dict, geometry: Option<PyGeometry>, default: PyValue)
    ensures var e := PyList([PyStr("property"), PyStr(key)]);
      ParseExpression(ip, kind, e, PyFeature(Some(props), geometry), default)
        == (if Get(props, key).Some? then Get(props, key).value else PyNone)
    ensures ParseExpression(ip, kind, PyList([PyStr("property"), PyStr(key)]), PyFeature(None, geometry), default)
         == default
  {
    var f := PyFeature(Some(props), geometry);
    assert ParseExpression(ip, "", PyStr(key), f, PyNone) == PyStr(key);
  }

  /** An unknown operator returns `None`. */
  lemma UnknownOperatorIsNone(ip: Interpreter, kind: string, op: PyValue, f: PyFeature, default: PyValue)
    requires op !in {PyStr("+"), PyStr("-"), PyStr("*"), PyStr("/"), PyStr("concat"), PyStr("lowercase"),
                     PyStr("uppercase"), PyStr("property"), PyStr("func")}
    ensures ParseExpression(ip, kind, PyList([op]), f, default) == PyNone
  {
  }

  /** A worked example: `["+", ["property", "a"], 2]` over `{a: 3}` is 5.0. */
  lemma AddPropertyExample(ip: Interpreter, geometry: Option<PyGeometry>)
    ensures ParseExpression(ip, "number", PyList([PyStr("+"), PyList([PyStr("property"), PyStr("a")]), PyInt(2)]),
                            PyFeature(Some([("a", PyInt(3))]), geometry), PyNone)
         == PyFloat(Finite(5.0))
  {
  }

  /** `get_func` answers `None` for other names, for geometries other than Point and
    * Polygon, and for a feature without geometry. */
  lemma GetFuncNone(name: PyValue, f: PyFeature)
    requires (name != PyStr("$maxZ") && name != PyStr("$minZ"))
          || f.geometry.None?
          || (f.geometry.value.Decoded? && !(f.geometry.value.decoded.Point? || f.geometry.value.decoded.Polygon?))
    ensures GetFunc(name, f) == PyNone
  {
  }

  /** An integral height reads as an int, so its text has no fraction. */
  lemma IntegralHeightText(ip: Interpreter, name: PyValue, p: Position)
    requires name == PyStr("$maxZ") || name == PyStr("$minZ")
    requires |p| == 3 && p[2] == p[2].Floor as real
    ensures Str(ip, GetFunc(name, PyFeature(None, Some(Decoded(Point(p)))))) == IntToString(p[2].Floor)
  {
  }

  /** For a decoded Point both functions give z when the position has exactly three components,
    * else 0; for a rebuilt Point, the third coordinate as it was computed; for a Polygon they
    * give a z of some position of some ring that is the least (greatest) of all, or inf (-inf)
    * when there is none. */
  lemma GetFuncValues(name: PyValue, f: PyFeature)
    requires name == PyStr("$maxZ") || name == PyStr("$minZ")
    requires f.geometry.Some?
    requires f.geometry.value.PlacedPoint? || f.geometry.value.decoded.Point? || f.geometry.value.decoded.Polygon?
    ensures f.geometry.value.PlacedPoint? ==> GetFunc(name, f) == f.geometry.value.z
    ensures f.geometry.value.Decoded? && f.geometry.value.decoded.Point? ==>
      var p := f.geometry.value.decoded.position;
      GetFunc(name, f) == (if |p| == 3 then JsonCoordinate(p[2]) else PyInt(0))
    ensures f.geometry.value.Decoded? && f.geometry.value.decoded.Polygon? ==>
      var ps := Flatten(f.geometry.value.decoded.rings);
      var m := GetFunc(name, f);
      (ps == [] ==> m == PyFloat(if name == PyStr("$maxZ") then NegInf else PosInf)) &&
      (ps != [] ==> exists k :: 0 <= k < |ps| && m == GetZ(ps[k])) &&
      (forall k :: 0 <= k < |ps| ==>
         if name == PyStr("$maxZ") then !Less(NumOf(m).value, ZNumber(ps[k])) else !Less(ZNumber(ps[k]), NumOf(m).value))
  {
    var g := f.geometry.value;
    if g.Decoded? && g.decoded.Polygon? {
      var ps := Flatten(g.decoded.rings);
      if name == PyStr("$maxZ") {
        assert GetFunc(name, f) == MaxZ(ps);
      } else {
        assert GetFunc(name, f) == MinZ(ps);
      }
    }
  }
}
