/** JavaScript values as JSON parsing produces them, and the few language rules the
  * frontend and the legacy server rely on: truthiness, string conversion, numeric
  * conversion, the `+` operator and object property update. */
module JsValues {
  import opened Wrappers
  import opened Numbers
  import opened Text
  import opened GeoJson

  datatype JsValue =
    | Undefined
    | Null
    | Bool(b: bool)
    | Num(n: Number)
    | Str(s: string)
    | Arr(elems: seq<JsValue>)
    | Obj(fields: seq<(string, JsValue)>)

  /** How an evaluation ends: normally with a value, or by throwing. */
  datatype Completion = Normal(v: JsValue) | Throw

  /** An object's own properties, in insertion order. */
  type Props = seq<(string, JsValue)>

  /** The engine's number-to-text and text-to-number conversions for inputs the model does
    * not spell out: a finite number that is not a small integer, and text that is not a
    * plain decimal. */
  datatype Engine = Engine(
    numberText: real -> string,
    parseFloatText: string -> Number,
    toNumberText: string -> Number)

  /** A GeoJSON feature: its `properties` (absent when undefined or null), its geometry
    * (absent when undefined) and its other members such as `type` and `id`. */
  datatype JsFeature = JsFeature(properties: Option<Props>, geometry: Option<Geometry>, others: Props)

  /** ToBoolean: undefined, null, false, 0, NaN and "" are falsy. */
  predicate Truthy(v: JsValue)
  {
    match v
    case Undefined => false
    case Null => false
    case Bool(b) => b
    case Num(n) => n != NaN && n != Finite(0.0)
    case Str(s) => s != ""
    case _ => true
  }

  /** `a || b` */
  function Or(a: JsValue, b: JsValue): JsValue
  {
    if Truthy(a) then a else b
  }

  /** `a ?? b` */
  function Coalesce(a: JsValue, b: JsValue): JsValue
  {
    if a == Undefined || a == Null then b else a
  }

  function NumberToString(e: Engine, n: Number): string
  {
    match n
    case NaN => "NaN"
    case PosInf => "Infinity"
    case NegInf => "-Infinity"
    case Finite(r) =>
      if r == r.Floor as real && -1000000000000000000000.0 < r < 1000000000000000000000.0
      then IntToString(r.Floor)
      else e.numberText(r)
  }

  /** ToString, as a template literal `${v}` applies it. */
  function ToString(e: Engine, v: JsValue): string
  {
    match v
    case Undefined => "undefined"
    case Null => "null"
    case Bool(b) => if b then "true" else "false"
    case Num(n) => NumberToString(e, n)
    case Str(s) => s
    case Arr(elems) =>
      Join(seq(|elems|, i requires 0 <= i < |elems| =>
             if elems[i].Undefined? || elems[i].Null? then "" else ToString(e, elems[i])), ",")
    case Obj(_) => "[object Object]"
  }

  predicate MayStartNumber(c: char)
  {
    IsDigit(c) || c == '+' || c == '-' || c == '.' || c == 'I' ||
    c == ' ' || c == '\t' || c == '\n' || c == '\r' || c as int == 11 || c as int == 12 || c as int > 127
  }

  /** `parseFloat` of a string: a plain decimal reads as its value, text that cannot start a
    * number is NaN, anything else is the engine's business. */
  function ParseFloatText(e: Engine, s: string): Number
  {
    if IsPlainDecimal(s) then Finite(DecimalValue(s))
    else if |s| == 0 || !MayStartNumber(s[0]) then NaN
    else e.parseFloatText(s)
  }

  /** `parseFloat(v)`. A number's own text always parses back to that number. */
  function ParseFloat(e: Engine, v: JsValue): Number
  {
    if v.Num? then v.n else ParseFloatText(e, ToString(e, v))
  }

  /** ToNumber of a string: the empty string is 0. */
  function StringToNumber(e: Engine, s: string): Number
  {
    if s == "" then Finite(0.0)
    else if IsPlainDecimal(s) then Finite(DecimalValue(s))
    else if !MayStartNumber(s[0]) then NaN
    else e.toNumberText(s)
  }

  function ToNumber(e: Engine, v: JsValue): Number
  {
    match v
    case Undefined => NaN
    case Null => Finite(0.0)
    case Bool(b) => Finite(if b then 1.0 else 0.0)
    case Num(n) => n
    case Str(s) => StringToNumber(e, s)
    case Arr(_) => StringToNumber(e, ToString(e, v))
    case Obj(_) => NaN
  }

  /** ToPrimitive: arrays and plain objects become their string form. */
  function ToPrimitive(e: Engine, v: JsValue): JsValue
  {
    if v.Arr? || v.Obj? then Str(ToString(e, v)) else v
  }

  /** The `+` operator: string concatenation as soon as either primitive is a string,
    * numeric addition otherwise. */
  function Plus(e: Engine, a: JsValue, b: JsValue): JsValue
  {
    var pa := ToPrimitive(e, a);
    var pb := ToPrimitive(e, b);
    if pa.Str? || pb.Str? then Str(ToString(e, pa) + ToString(e, pb))
    else Num(Add(ToNumber(e, pa), ToNumber(e, pb)))
  }

  /** Two numbers are added, whatever the engine. */
  lemma PlusOfNumbers(e: Engine, a: Number, b: Number)
    ensures Plus(e, Num(a), Num(b)) == Num(Add(a, b))
  {
  }

  function Minus(e: Engine, a: JsValue, b: JsValue): JsValue
  {
    Num(Sub(ToNumber(e, a), ToNumber(e, b)))
  }

  function Times(e: Engine, a: JsValue, b: JsValue): JsValue
  {
    Num(Mul(ToNumber(e, a), ToNumber(e, b)))
  }

  function Divide(e: Engine, a: JsValue, b: JsValue): JsValue
  {
    Num(Div(ToNumber(e, a), ToNumber(e, b)))
  }

  /** `o[key]` on an object's own properties: the first entry with that key, else undefined. */
  function Lookup(p: Props, key: string): JsValue
  {
    if |p| == 0 then Undefined
    else if p[0].0 == key then p[0].1
    else Lookup(p[1..], key)
  }

  /** `v?.key`, and a member destructured from `v || {}`: an object's own property, undefined
    * for anything else. */
  function Member(v: JsValue, key: string): JsValue
  {
    if v.Obj? then Lookup(v.fields, key) else Undefined
  }

  function Keys(p: Props): seq<string>
  {
    seq(|p|, i requires 0 <= i < |p| => p[i].0)
  }

  /** `o[key] = v`, or `{...o, [key]: v}`: an existing key keeps its place, a new one is appended. */
  function Assign(p: Props, key: string, v: JsValue): (q: Props)
    ensures Lookup(q, key) == v
    ensures forall k :: k != key ==> Lookup(q, k) == Lookup(p, k)
    ensures key in Keys(p) ==> Keys(q) == Keys(p)
    ensures key !in Keys(p) ==> Keys(q) == Keys(p) + [key]
  {
    if |p| == 0 then [(key, v)]
    else if p[0].0 == key then
      assert Keys(p)[0] == key;
      [(key, v)] + p[1..]
    else
      var rest := Assign(p[1..], key, v);
      assert Keys(p) == [p[0].0] + Keys(p[1..]);
      assert Keys([p[0]] + rest) == [p[0].0] + Keys(rest);
      [p[0]] + rest
  }

  function NumberValue(r: real): JsValue
  {
    Num(Finite(r))
  }

  /** A position as the JSON array it was parsed from. */
  function PositionValue(p: Position): JsValue
  {
    Arr(seq(|p|, i requires 0 <= i < |p| => NumberValue(p[i])))
  }

  /** `geometry.coordinates` as a JSON value. */
  function CoordinatesValue(g: Geometry): JsValue
  {
    match g
    case Point(p) => PositionValue(p)
    case MultiPoint(ps) => Arr(seq(|ps|, i requires 0 <= i < |ps| => PositionValue(ps[i])))
    case LineString(ps) => Arr(seq(|ps|, i requires 0 <= i < |ps| => PositionValue(ps[i])))
    case MultiLineString(ls) =>
      Arr(seq(|ls|, i requires 0 <= i < |ls| =>
        Arr(seq(|ls[i]|, j requires 0 <= j < |ls[i]| => PositionValue(ls[i][j])))))
    case Polygon(rs) =>
      Arr(seq(|rs|, i requires 0 <= i < |rs| =>
        Arr(seq(|rs[i]|, j requires 0 <= j < |rs[i]| => PositionValue(rs[i][j])))))
    case MultiPolygon(ps) =>
      Arr(seq(|ps|, i requires 0 <= i < |ps| =>
        Arr(seq(|ps[i]|, j requires 0 <= j < |ps[i]| =>
          Arr(seq(|ps[i][j]|, k requires 0 <= k < |ps[i][j]| => PositionValue(ps[i][j][k])))))))
    case OtherGeometry(_) => Undefined
  }

  /** `v[i]` on an array value; undefined outside it or on a non-array. */
  function Index(v: JsValue, i: nat): JsValue
  {
    if v.Arr? && i < |v.elems| then v.elems[i] else Undefined
  }
}
