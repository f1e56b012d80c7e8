/** Double-precision numbers as both JavaScript and Python see them, without rounding:
  * a finite value is an exact real, and the three special values are explicit.
  * Negative zero is not distinguished from zero. */
module Numbers {

  datatype Number = Finite(r: real) | PosInf | NegInf | NaN

  function Neg(a: Number): Number
  {
    match a
    case Finite(x) => Finite(-x)
    case PosInf => NegInf
    case NegInf => PosInf
    case NaN => NaN
  }

  /** IEEE-754 addition: infinities of opposite sign give NaN. */
  function Add(a: Number, b: Number): Number
  {
    match (a, b)
    case (NaN, _) => NaN
    case (_, NaN) => NaN
    case (PosInf, NegInf) => NaN
    case (NegInf, PosInf) => NaN
    case (PosInf, _) => PosInf
    case (_, PosInf) => PosInf
    case (NegInf, _) => NegInf
    case (_, NegInf) => NegInf
    case (Finite(x), Finite(y)) => Finite(x + y)
  }

  function Sub(a: Number, b: Number): Number
  {
    Add(a, Neg(b))
  }

  function SignOf(a: Number): int
  {
    match a
    case Finite(x) => if x > 0.0 then 1 else if x < 0.0 then -1 else 0
    case PosInf => 1
    case NegInf => -1
    case NaN => 0
  }

  function InfWithSign(s: int): Number
  {
    if s < 0 then NegInf else PosInf
  }

  /** IEEE-754 multiplication: zero times an infinity gives NaN. */
  function Mul(a: Number, b: Number): Number
  {
    match (a, b)
    case (NaN, _) => NaN
    case (_, NaN) => NaN
    case (Finite(x), Finite(y)) => Finite(x * y)
    case _ =>
      if SignOf(a) == 0 || SignOf(b) == 0 then NaN else InfWithSign(SignOf(a) * SignOf(b))
  }

  /** IEEE-754 division, as JavaScript performs it: x/0 is an infinity (or NaN for 0/0). */
  function Div(a: Number, b: Number): Number
  {
    match (a, b)
    case (NaN, _) => NaN
    case (_, NaN) => NaN
    case (Finite(x), Finite(y)) =>
      if y != 0.0 then Finite(x / y)
      else if x == 0.0 then NaN
      else InfWithSign(SignOf(a))
    case (Finite(_), _) => Finite(0.0)
    case (_, Finite(y)) => InfWithSign(SignOf(a) * (if y < 0.0 then -1 else 1))
    case _ => NaN
  }

  /** The IEEE `<` comparison: false whenever NaN is involved. */
  predicate Less(a: Number, b: Number)
  {
    match (a, b)
    case (NaN, _) => false
    case (_, NaN) => false
    case (Finite(x), Finite(y)) => x < y
    case (NegInf, NegInf) => false
    case (NegInf, _) => true
    case (_, PosInf) => a != PosInf
    case _ => false
  }

  /** Python's `round` on a float: to the nearest integer, ties to even. */
  function RoundHalfEven(r: real): (n: int)
    ensures -1.0 / 2.0 <= n as real - r <= 1.0 / 2.0
    ensures r == r.Floor as real ==> n == r.Floor
  {
    var f := r.Floor;
    var frac := r - f as real;
    if frac < 1.0 / 2.0 then f
    else if frac > 1.0 / 2.0 then f + 1
    else if f % 2 == 0 then f
    else f + 1
  }

  /** `math.ceil` of a real. */
  function Ceil(r: real): (n: int)
    ensures r <= n as real < r + 1.0
  {
    if r == r.Floor as real then r.Floor else r.Floor + 1
  }

  /** Python's `int()` on a float: truncation toward zero. */
  function Trunc(r: real): (n: int)
    ensures 0.0 <= r ==> n == r.Floor
    ensures r < 0.0 ==> n == -((-r).Floor)
  {
    if r >= 0.0 then r.Floor else -((-r).Floor)
  }

  function Pow2(n: nat): (p: nat)
    ensures p >= 1
  {
    if n == 0 then 1 else 2 * Pow2(n - 1)
  }

  function Pow4(n: nat): (p: nat)
    ensures p >= 1
  {
    if n == 0 then 1 else 4 * Pow4(n - 1)
  }

  /** The smaller of two numbers, NaN if either is NaN (one step of `Math.min`). */
  function MinNumber(a: Number, b: Number): Number
  {
    if a.NaN? || b.NaN? then NaN else if Less(b, a) then b else a
  }

  function MaxNumber(a: Number, b: Number): Number
  {
    if a.NaN? || b.NaN? then NaN else if Less(a, b) then b else a
  }

  /** `Math.min(...ns)`: +Infinity for no arguments. */
  function MathMin(ns: seq<Number>): Number
  {
    if |ns| == 0 then PosInf else MinNumber(MathMin(ns[..|ns| - 1]), ns[|ns| - 1])
  }

  /** `Math.max(...ns)`: -Infinity for no arguments. */
  function MathMax(ns: seq<Number>): Number
  {
    if |ns| == 0 then NegInf else MaxNumber(MathMax(ns[..|ns| - 1]), ns[|ns| - 1])
  }

  function Finites(zs: seq<real>): (ns: seq<Number>)
    ensures |ns| == |zs| && forall i :: 0 <= i < |zs| ==> ns[i] == Finite(zs[i])
  {
    seq(|zs|, i requires 0 <= i < |zs| => Finite(zs[i]))
  }

  /** Over finite values the minimum is +Infinity exactly when there are none, and otherwise
    * one of the values and below all of them. */
  lemma {:induction false} MathMinOfFinites(zs: seq<real>)
    ensures zs == [] <==> MathMin(Finites(zs)) == PosInf
    ensures zs != [] ==> MathMin(Finites(zs)).Finite? && MathMin(Finites(zs)).r in zs
    ensures forall z :: z in zs ==> Less(MathMin(Finites(zs)), Finite(z)) || MathMin(Finites(zs)) == Finite(z)
  {
    if zs != [] {
      var init := zs[..|zs| - 1];
      MathMinOfFinites(init);
      assert Finites(zs)[..|zs| - 1] == Finites(init);
      assert zs == init + [zs[|zs| - 1]];
    }
  }

  lemma {:induction false} MathMaxOfFinites(zs: seq<real>)
    ensures zs == [] <==> MathMax(Finites(zs)) == NegInf
    ensures zs != [] ==> MathMax(Finites(zs)).Finite? && MathMax(Finites(zs)).r in zs
    ensures forall z :: z in zs ==> Less(Finite(z), MathMax(Finites(zs))) || MathMax(Finites(zs)) == Finite(z)
  {
    if zs != [] {
      var init := zs[..|zs| - 1];
      MathMaxOfFinites(init);
      assert Finites(zs)[..|zs| - 1] == Finites(init);
      assert zs == init + [zs[|zs| - 1]];
    }
  }

  /** `Math.min(...a, ...b)` is the smaller of the two partial minima. */
  lemma {:induction false} MathMinAppend(a: seq<Number>, b: seq<Number>)
    ensures MathMin(a + b) == MinNumber(MathMin(a), MathMin(b))
    decreases |b|
  {
    if |b| == 0 {
      assert a + b == a;
    } else {
      var b' := b[..|b| - 1];
      assert (a + b)[..|a + b| - 1] == a + b';
      MathMinAppend(a, b');
    }
  }

  lemma {:induction false} MathMaxAppend(a: seq<Number>, b: seq<Number>)
    ensures MathMax(a + b) == MaxNumber(MathMax(a), MathMax(b))
    decreases |b|
  {
    if |b| == 0 {
      assert a + b == a;
    } else {
      var b' := b[..|b| - 1];
      assert (a + b)[..|a + b| - 1] == a + b';
      MathMaxAppend(a, b');
    }
  }
}
