/** Attribute-type inference of the legacy server: when a value counts as a number. */
module JsNumber {
  import opened Numbers
  import opened Text
  import opened JsValues

  /** `isNumber(value)`: never for a string, otherwise when `parseFloat` does not give NaN. */
  predicate IsNumber(e: Engine, v: JsValue)
  {
    !v.Str? && ParseFloat(e, v) != NaN
  }

  /** Every string is rejected, even one holding digits. */
  lemma StringsAreNotNumbers(e: Engine, s: string)
    ensures !IsNumber(e, Str(s))
  {
  }

  /** A number value is a number exactly when it is not NaN; infinities count. */
  lemma NumbersAreNumbers(e: Engine, n: Number)
    ensures IsNumber(e, Num(n)) <==> n != NaN
  {
  }

  /** null, undefined, booleans and plain objects are not numbers: their text cannot start one. */
  lemma NonNumericValues(e: Engine, b: bool, fields: seq<(string, JsValue)>)
    ensures !IsNumber(e, Null) && !IsNumber(e, Undefined)
    ensures !IsNumber(e, Bool(b))
    ensures !IsNumber(e, Obj(fields))
  {
    NullishAreNotNumbers(e);
    BooleansAreNotNumbers(e, b);
    ObjectsAreNotNumbers(e, fields);
  }

  lemma NullishAreNotNumbers(e: Engine)
    ensures !IsNumber(e, Null) && !IsNumber(e, Undefined)
  {
    NotNumberByText(e, Null, "null");
    NotNumberByText(e, Undefined, "undefined");
  }

  lemma BooleansAreNotNumbers(e: Engine, b: bool)
    ensures !IsNumber(e, Bool(b))
  {
    if b {
      NotNumberByText(e, Bool(b), "true");
    } else {
      NotNumberByText(e, Bool(b), "false");
    }
  }

  lemma ObjectsAreNotNumbers(e: Engine, fields: seq<(string, JsValue)>)
    ensures !IsNumber(e, Obj(fields))
  {
    NotNumberByText(e, Obj(fields), "[object Object]");
  }

  /** A value other than a number or a string whose text cannot start a number is not one. */
  lemma NotNumberByText(e: Engine, v: JsValue, s: string)
    requires !v.Num? && !v.Str? && ToString(e, v) == s && |s| > 0 && !MayStartNumber(s[0])
    ensures !IsNumber(e, v)
  {
    NonStarterIsNaN(e, s);
  }

  /** Text whose first character cannot start a number parses to NaN. */
  lemma NonStarterIsNaN(e: Engine, s: string)
    requires |s| > 0 && !MayStartNumber(s[0])
    ensures ParseFloatText(e, s) == NaN
  {
    var u := Unsigned(s);
    assert u == s && !IsDigit(u[0]);
    if '.' in u {
      var k := IndexOf(u, '.');
      if 0 < k {
        assert u[..k][0] == u[0];
      }
    }
  }

  /** A one-element array holding an integer is a number, because its text is that integer's. */
  lemma SingletonIntegerArray(e: Engine, i: int)
    requires -1000000000000000000000 < i < 1000000000000000000000
    ensures IsNumber(e, Arr([NumberValue(i as real)]))
  {
    IntToStringIsPlainDecimal(i);
    assert (i as real).Floor == i;
    assert ToString(e, Arr([NumberValue(i as real)])) == IntToString(i);
  }

  /** The empty array is not: its text is empty. */
  lemma EmptyArrayIsNotNumber(e: Engine)
    ensures !IsNumber(e, Arr([]))
  {
    assert !IsPlainDecimal("");
  }
}
