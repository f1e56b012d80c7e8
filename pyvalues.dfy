/** Python values as the backend workers handle them (decoded JSON plus int/float),
  * with the built-ins they rely on: truthiness, `str()`, `float()` and dict update. */
module PyValues {
  import opened Wrappers
  import opened Numbers
  import opened Text
  import opened GeoJson

  /** The names of the exceptions the workers raise, as a `Result`'s error. */
  const IndexError: string := "IndexError"
  const ZeroDivisionError: string := "ZeroDivisionError"
  const ValueError: string := "ValueError"
  const KeyError: string := "KeyError"
  const TypeError: string := "TypeError"

  datatype PyValue =
    | PyNone
    | PyBool(b: bool)
    | PyInt(i: int)
    | PyFloat(f: Number)
    | PyStr(s: string)
    | PyList(items: seq<PyValue>)
    | PyDict(entries: seq<(string, PyValue)>)

  /** A dict with string keys, in insertion order. */
  type Dict = seq<(string, PyValue)>

  /** What the interpreter does that the model leaves abstract: the repr of a float that is
    * not a small integer, `float()` of text that is not a plain decimal (None when it raises
    * ValueError), and the text of a list or dict. */
  datatype Interpreter = Interpreter(
    floatText: real -> string,
    floatOfText: string -> Option<Number>,
    containerText: PyValue -> string)

  /** The `geometry` member of a feature dict: as `json.loads` read it from the database's
    * GeoJSON text, or the Point dict the instance task rebuilds with the coordinates
    * `[x, y, z + translate_z]`, whose three entries are whatever Python values they evaluated to. */
  datatype PyGeometry =
    | Decoded(decoded: Geometry)
    | PlacedPoint(x: PyValue, y: PyValue, z: PyValue)

  /** A GeoJSON feature dict: its `properties` and `geometry` members, when present. */
  datatype PyFeature = PyFeature(properties: Option<Dict>, geometry: Option<PyGeometry>)

  /** `json.loads` of one coordinate of the database's GeoJSON text, which prints an integral
    * value without a fraction: an int then, a float otherwise. */
  function JsonCoordinate(x: real): (v: PyValue)
    ensures NumOf(v) == Some(Finite(x))
    ensures v.PyInt? <==> x == x.Floor as real
    ensures v.PyInt? || v.PyFloat?
  {
    if x == x.Floor as real then PyInt(x.Floor) else PyFloat(Finite(x))
  }

  /** `bool(v)`: None, False, 0, 0.0, "" and empty containers are falsy; NaN is truthy. */
  predicate Truthy(v: PyValue)
  {
    match v
    case PyNone => false
    case PyBool(b) => b
    case PyInt(i) => i != 0
    case PyFloat(f) => f != Finite(0.0)
    case PyStr(s) => s != ""
    case PyList(items) => items != []
    case PyDict(entries) => entries != []
  }

  function FloatToString(ip: Interpreter, n: Number): string
  {
    match n
    case NaN => "nan"
    case PosInf => "inf"
    case NegInf => "-inf"
    case Finite(r) =>
      if r == r.Floor as real && -10000000000000000.0 < r < 10000000000000000.0
      then IntToString(r.Floor) + ".0"
      else ip.floatText(r)
  }

  /** `str(v)`, which is also what `f"{v}"` produces. */
  function Str(ip: Interpreter, v: PyValue): string
  {
    match v
    case PyNone => "None"
    case PyBool(b) => if b then "True" else "False"
    case PyInt(i) => IntToString(i)
    case PyFloat(f) => FloatToString(ip, f)
    case PyStr(s) => s
    case _ => ip.containerText(v)
  }

  function FloatOfText(ip: Interpreter, s: string): Option<Number>
  {
    if IsPlainDecimal(s) then Some(Finite(DecimalValue(s))) else ip.floatOfText(s)
  }

  /** `float(v)`; None when it raises (TypeError for None and containers, ValueError for bad text). */
  function Float(ip: Interpreter, v: PyValue): Option<Number>
  {
    match v
    case PyNone => None
    case PyBool(b) => Some(Finite(if b then 1.0 else 0.0))
    case PyInt(i) => Some(Finite(i as real))
    case PyFloat(f) => Some(f)
    case PyStr(s) => FloatOfText(ip, s)
    case _ => None
  }

  /** The numeric value of an int, bool or float, as comparisons see it. */
  function NumOf(v: PyValue): Option<Number>
  {
    match v
    case PyBool(b) => Some(Finite(if b then 1.0 else 0.0))
    case PyInt(i) => Some(Finite(i as real))
    case PyFloat(f) => Some(f)
    case _ => None
  }

  /** `a + b` where `a` is a number: an int when both are ints or bools, a float otherwise, and
    * TypeError when `b` is not a number. */
  function AddToNumber(a: PyValue, b: PyValue): (r: Result<PyValue>)
    requires NumOf(a).Some?
    ensures r.Ok? <==> NumOf(b).Some?
    ensures r.Err? ==> r.error == TypeError
    ensures r.Ok? ==> NumOf(r.value) == Some(Add(NumOf(a).value, NumOf(b).value))
    ensures r.Ok? ==> (r.value.PyFloat? <==> a.PyFloat? || b.PyFloat?)
    ensures r.Ok? ==> r.value.PyInt? || r.value.PyFloat?
  {
    if NumOf(b).None? then Err(TypeError)
    else if a.PyFloat? || b.PyFloat? then Ok(PyFloat(Add(NumOf(a).value, NumOf(b).value)))
    else Ok(PyInt(IntOf(a) + IntOf(b)))
  }

  /** The integer value of an int or a bool. */
  function IntOf(v: PyValue): int
  {
    match v
    case PyBool(b) => if b then 1 else 0
    case PyInt(i) => i
    case _ => 0
  }

  /** `d.get(key)`: the value under `key`, if present. */
  function Get(d: Dict, key: string): Option<PyValue>
  {
    if |d| == 0 then None
    else if d[0].0 == key then Some(d[0].1)
    else Get(d[1..], key)
  }

  function Keys(d: Dict): seq<string>
  {
    seq(|d|, i requires 0 <= i < |d| => d[i].0)
  }

  predicate UniqueKeys(d: Dict)
  {
    forall i, j :: 0 <= i < j < |d| ==> d[i].0 != d[j].0
  }

  /** `d[key] = v` (or `{**d, key: v}`): an existing key keeps its position. */
  function SetItem(d: Dict, key: string, v: PyValue): (r: Dict)
    ensures Get(r, key) == Some(v)
    ensures forall k :: k != key ==> Get(r, k) == Get(d, k)
    ensures key in Keys(d) ==> Keys(r) == Keys(d)
    ensures key !in Keys(d) ==> Keys(r) == Keys(d) + [key]
  {
    if |d| == 0 then [(key, v)]
    else if d[0].0 == key then
      assert Keys(d)[0] == key;
      [(key, v)] + d[1..]
    else
      var rest := SetItem(d[1..], key, v);
      assert Keys(d) == [d[0].0] + Keys(d[1..]);
      assert Keys([d[0]] + rest) == [d[0].0] + Keys(rest);
      [d[0]] + rest
  }

  /** `{**a, **b}` */
  function Merge(a: Dict, b: Dict): Dict
    decreases |b|
  {
    if |b| == 0 then a else Merge(SetItem(a, b[0].0, b[0].1), b[1..])
  }

  /** After `{**a, **b}` every key of `b` reads its value from `b`, every other key from `a`. */
  lemma {:induction false} MergeGet(a: Dict, b: Dict, k: string)
    requires UniqueKeys(b)
    ensures Get(Merge(a, b), k) == if Get(b, k).Some? then Get(b, k) else Get(a, k)
    decreases |b|
  {
    if |b| > 0 {
      var a' := SetItem(a, b[0].0, b[0].1);
      assert UniqueKeys(b[1..]);
      MergeGet(a', b[1..], k);
      if k == b[0].0 {
        assert Get(b[1..], k) == None by {
          GetAbsent(b[1..], k);
        }
      }
    }
  }

  lemma {:induction false} GetAbsent(d: Dict, k: string)
    requires forall i :: 0 <= i < |d| ==> d[i].0 != k
    ensures Get(d, k) == None
  {
    if |d| > 0 {
      GetAbsent(d[1..], k);
    }
  }
}
