/**
 * How the Flask back end reads a decoded JSON request body: `dict.get`,
 * Python truthiness, `str(...)` and `int(...)` on the values JSON can carry.
 * A body is a `JsSemantics.Obj` (its keys in document order, as a Python
 * dict keeps them) and JSON `null` is `Null`, Python's `None`.
 */
module PyJson {
  import opened Wrappers
  import Text
  import opened JsSemantics

  /** `d.get(k)`: the value, or `None` when the key is absent. */
  function PyGet(d: Obj, k: string): (v: JsValue)
    ensures k in d.vals ==> v == d.vals[k]
    ensures k !in d.vals ==> v == Null
  {
    if k in d.vals then d.vals[k] else Null
  }

  /** `d.get(k, default)`. */
  function PyGetOr(d: Obj, k: string, default: JsValue): (v: JsValue)
    ensures k in d.vals ==> v == d.vals[k]
    ensures k !in d.vals ==> v == default
  {
    if k in d.vals then d.vals[k] else default
  }

  /** `not v`: `None`, `False`, `0` and `""` are false; `nan` is true in Python. */
  predicate PyFalsy(v: JsValue) {
    v == Undefined || v == Null || v == Bool(false) || v == Num(0) || v == Str("")
  }

  /** `v or default`. */
  function PyOr(v: JsValue, default: JsValue): (r: JsValue)
    ensures PyFalsy(v) ==> r == default
    ensures !PyFalsy(v) ==> r == v
  {
    if PyFalsy(v) then default else v
  }

  /** `str(v)`, which is also what an f-string inserts. */
  function PyStr(v: JsValue): (s: string)
    ensures v.Str? ==> s == v.s
    ensures v.Null? ==> s == "None"
  {
    match v
    case Undefined => "None"
    case Null => "None"
    case Bool(b) => if b then "True" else "False"
    case Num(n) => Text.IntToString(n)
    case NaN => "nan"
    case Str(s) => s
  }

  /** Python's white space for `int(...)` of a string (the ASCII part). */
  predicate PySpace(c: char) {
    c == ' ' || c == '\t' || c == '\n' || c == '\r' || c == '\U{000B}' || c == '\U{000C}'
  }

  function PyStrip(s: string): (r: string)
    ensures |r| <= |s|
    ensures r != [] ==> !PySpace(r[0]) && !PySpace(r[|r| - 1])
    decreases |s|
  {
    if s == [] then s
    else if PySpace(s[0]) then PyStrip(s[1..])
    else if PySpace(s[|s| - 1]) then PyStrip(s[..|s| - 1])
    else s
  }

  /** `int(s)` of a string: an optionally signed run of decimal digits between white space. */
  function PyIntOfString(s: string): (r: Result<int, string>)
    ensures Text.AllDigits(s) && s != [] ==> r == Success(Text.DigitsValue(s))
  {
    var t := PyStrip(s);
    var neg := t != [] && t[0] == '-';
    var body := if t != [] && (t[0] == '-' || t[0] == '+') then t[1..] else t;
    if body != [] && Text.AllDigits(body) then
      var v: int := Text.DigitsValue(body);
      Success(if neg then -v else v)
    else Failure("ValueError")
  }

  /**
   * `int(v)`: numbers are themselves, booleans are 0 and 1, strings are
   * parsed; `None` raises `TypeError` and `nan` raises `ValueError`.
   */
  function PyInt(v: JsValue): (r: Result<int, string>)
    ensures v.Num? ==> r == Success(v.n)
    ensures v.Null? || v.Undefined? || v.NaN? ==> r.Failure?
  {
    match v
    case Undefined => Failure("TypeError")
    case Null => Failure("TypeError")
    case Bool(b) => Success(if b then 1 else 0)
    case Num(n) => Success(n)
    case NaN => Failure("ValueError")
    case Str(s) => PyIntOfString(s)
  }

  /** `int` of an optionally negated run of digits is its value. */
  lemma PyIntOfDigits(digits: string, neg: bool)
    requires digits != [] && Text.AllDigits(digits)
    ensures var s := if neg then "-" + digits else digits;
      var v: int := Text.DigitsValue(digits);
      PyIntOfString(s) == Success(if neg then -v else v)
  {
    var s := if neg then "-" + digits else digits;
    assert s[|s| - 1] == digits[|digits| - 1];
    assert PyStrip(s) == s;
    if neg {
      assert s[1..] == digits;
    }
  }

  /** Reading back the decimal rendering of an integer gives the integer. */
  lemma {:induction false} PyIntOfPyStr(n: int)
    ensures PyInt(Str(PyStr(Num(n)))) == Success(n)
  {
    var m: nat := if n < 0 then -n else n;
    Text.NatToStringRoundTrip(m);
    PyIntOfDigits(Text.NatToString(m), n < 0);
    assert PyStr(Num(n)) == if n < 0 then "-" + Text.NatToString(m) else Text.NatToString(m);
  }
}
