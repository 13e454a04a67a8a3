/**
 * The slice of JavaScript value semantics that the front ends' logic depends on:
 * values and strict equality, truthiness, `String(v)`, `parseInt(v, 10)`, the
 * numeric conversion behind `<`, `new Date(v)`, `trim()`, `.length` in UTF-16
 * code units, and plain objects with ordered keys.
 *
 * Numbers are mathematical integers; `NaN` is its own value. Date strings are
 * parsed by a function supplied with the clock.
 */
module JsSemantics {
  import opened Wrappers
  import Text

  datatype JsValue = Undefined | Null | Bool(b: bool) | Num(n: int) | NaN | Str(s: string)

  /** `a === b`: the same value, except that `NaN` equals nothing. */
  predicate StrictEq(a: JsValue, b: JsValue) { a == b && !a.NaN? }

  /** The six falsy values of this value space. */
  predicate Falsy(v: JsValue) {
    v == Undefined || v == Null || v == Bool(false) || v == Num(0) || v == NaN || v == Str("")
  }

  /** `a || b`. */
  function Or(a: JsValue, b: JsValue): (r: JsValue)
    ensures Falsy(a) ==> r == b
    ensures !Falsy(a) ==> r == a
  {
    if Falsy(a) then b else a
  }

  // ---------------------------------------------------------------- strings

  /** ECMAScript WhiteSpace and LineTerminator code points, which `trim` removes. */
  predicate IsSpace(c: char) {
    c == '\t' || c == '\n' || c == '\U{000B}' || c == '\U{000C}' || c == '\r' || c == ' '
    || c == '\U{00A0}' || c == '\U{1680}' || ('\U{2000}' <= c <= '\U{200A}')
    || c == '\U{2028}' || c == '\U{2029}' || c == '\U{202F}' || c == '\U{205F}'
    || c == '\U{3000}' || c == '\U{FEFF}'
  }

  /** Every character is white space (true of the empty string). */
  predicate Blank(s: string) { forall i :: 0 <= i < |s| ==> IsSpace(s[i]) }

  function TrimStart(s: string): (r: string)
    ensures r == [] || !IsSpace(r[0])
    ensures |r| <= |s| && r == s[|s| - |r|..]
    ensures Blank(s[..|s| - |r|])
  {
    if s != [] && IsSpace(s[0]) then TrimStart(s[1..]) else s
  }

  function TrimEnd(s: string): (r: string)
    ensures r == [] || !IsSpace(r[|r| - 1])
    ensures r <= s && Blank(s[|r|..])
  {
    if s != [] && IsSpace(s[|s| - 1]) then
      var r := TrimEnd(s[..|s| - 1]);
      assert s[|r|..] == s[..|s| - 1][|r|..] + [s[|s| - 1]];
      r
    else s
  }

  /** `s.trim()`. */
  function Trim(s: string): string { TrimEnd(TrimStart(s)) }

  /** `!s.trim()` holds exactly for the strings made only of white space. */
  lemma TrimEmptyIffBlank(s: string)
    ensures Trim(s) == "" <==> Blank(s)
  {
  }

  /** `s.length`: UTF-16 code units, two for a character outside the Basic Multilingual Plane. */
  function Utf16Length(s: string): (n: nat)
    ensures |s| <= n <= 2 * |s|
    ensures n == |s| <==> forall i :: 0 <= i < |s| ==> s[i] as int <= 0xFFFF
    ensures n == 2 * |s| <==> forall i :: 0 <= i < |s| ==> s[i] as int > 0xFFFF
  {
    if s == [] then 0 else (if s[0] as int > 0xFFFF then 2 else 1) + Utf16Length(s[1..])
  }

  /** `String(v)`, also what a template literal `${v}` inserts. */
  function ToJsString(v: JsValue): string {
    match v
    case Undefined => "undefined"
    case Null => "null"
    case Bool(b) => if b then "true" else "false"
    case Num(n) => Text.IntToString(n)
    case NaN => "NaN"
    case Str(s) => s
  }

  // ---------------------------------------------------------------- numbers

  /** `parseInt(s, 10)`: leading white space, an optional sign, then the longest run of digits. */
  function ParseIntString(s: string): (r: JsValue)
    ensures r.Num? || r == NaN
  {
    var t := TrimStart(s);
    var neg := t != [] && t[0] == '-';
    var body := if t != [] && (t[0] == '-' || t[0] == '+') then t[1..] else t;
    var digits := Text.LeadingDigits(body);
    if digits == [] then NaN
    else
      var v: int := Text.DigitsValue(digits);
      Num(if neg then -v else v)
  }

  /**
   * `parseInt(v, 10)`. The argument is first converted with `String(v)`; the
   * spellings of `undefined`, `null`, the booleans and `NaN` hold no digits,
   * and an integer reads back as itself (`ParseIntIsStringParse`).
   */
  function ParseInt(v: JsValue): (r: JsValue)
    ensures r.Num? || r == NaN
  {
    match v
    case Str(s) => ParseIntString(s)
    case Num(n) => Num(n)
    case _ => NaN
  }

  /** `ParseInt` is `parseInt` of the string `String(v)`. */
  lemma ParseIntIsStringParse(v: JsValue)
    ensures ParseInt(v) == ParseIntString(ToJsString(v))
  {
    match v
    case Num(n) => ParseIntOfNumber(n);
    case Undefined => NoLeadingDigits("undefined");
    case Null => NoLeadingDigits("null");
    case Bool(b) => if b { NoLeadingDigits("true"); } else { NoLeadingDigits("false"); }
    case NaN => NoLeadingDigits("NaN");
    case Str(s) =>
  }

  /** A word that starts with a letter other than a sign has no digits for `parseInt`. */
  lemma NoLeadingDigits(s: string)
    requires s != [] && 'A' <= s[0] <= 'z'
    ensures ParseIntString(s) == NaN
  {
    TrimStartUnchanged(s);
  }

  /** `parseInt` of an optionally negated run of digits reads exactly those digits. */
  lemma ParseIntStringOfDigits(digits: string, s: string, neg: bool)
    requires digits != [] && Text.AllDigits(digits)
    requires s == if neg then "-" + digits else digits
    ensures var v: int := Text.DigitsValue(digits); ParseIntString(s) == Num(if neg then -v else v)
  {
    Text.LeadingDigitsAll(digits);
    if neg {
      NegativeDigits(digits, s);
    } else {
      assert !IsSpace(s[0]) by {
        assert s[0] == digits[0] && Text.IsDigit(digits[0]);
      }
      TrimStartUnchanged(s);
    }
  }

  /** The negative case: the sign is read, then the digits after it. */
  lemma NegativeDigits(digits: string, s: string)
    requires digits != [] && Text.AllDigits(digits) && Text.LeadingDigits(digits) == digits
    requires s == "-" + digits
    ensures var v: int := Text.DigitsValue(digits); ParseIntString(s) == Num(-v)
  {
    TrimStartUnchanged(s);
    assert s[1..] == digits;
  }

  /** A string that starts with a non-space character has nothing to trim at its start. */
  lemma TrimStartUnchanged(s: string)
    requires s != [] && !IsSpace(s[0])
    ensures TrimStart(s) == s
  {
  }

  /** `parseInt` of the decimal rendering of an integer gives the integer back. */
  lemma ParseIntOfNumber(n: int)
    ensures ParseIntString(Text.IntToString(n)) == Num(n)
  {
    var m: nat := if n < 0 then -n else n;
    Text.NatToStringRoundTrip(m);
    ParseIntStringOfDigits(Text.NatToString(m), Text.IntToString(n), n < 0);
  }

  /**
   * The numeric value of a string, as `ToNumber` reads it: surrounding white
   * space is ignored, an empty string is 0, and an optionally signed run of
   * decimal digits is its value; everything else is `NaN` (None) here.
   */
  function StringToNumber(s: string): Option<int>
  {
    var t := Trim(s);
    if t == [] then Some(0)
    else
      var neg := t[0] == '-';
      var body := if t[0] == '-' || t[0] == '+' then t[1..] else t;
      if body != [] && Text.AllDigits(body) then
        var v: int := Text.DigitsValue(body);
        Some(if neg then -v else v)
      else None
  }

  /** `ToNumber(v)`; None stands for `NaN`. */
  function ToNumber(v: JsValue): Option<int> {
    match v
    case Undefined => None
    case Null => Some(0)
    case Bool(b) => Some(if b then 1 else 0)
    case Num(n) => Some(n)
    case NaN => None
    case Str(s) => StringToNumber(s)
  }

  /** `v < k` for a number `k`: false whenever `v` converts to `NaN`. */
  predicate Below(v: JsValue, k: int) {
    var x := ToNumber(v);
    x.Some? && x.value < k
  }

  // ---------------------------------------------------------------- dates

  const DayMs: int := 86_400_000

  /**
   * The clock the front ends read: `Date.now()` in milliseconds, and the
   * date-string parser behind `new Date(s)` (None for an Invalid Date).
   */
  datatype Clock = Clock(nowMs: int, parse: string -> Option<int>)

  /** The largest time value a Date can hold, in milliseconds either side of the epoch. */
  const MaxTimeMs: int := 8_640_000_000_000_000

  /** `TimeClip`: a time value out of range makes an Invalid Date. */
  function TimeClip(t: int): Option<int> {
    if -MaxTimeMs <= t <= MaxTimeMs then Some(t) else None
  }

  /** The time value of `new Date(v)`; None is an Invalid Date. */
  function DateValue(v: JsValue, clock: Clock): Option<int> {
    match v
    case Undefined => None
    case Null => Some(0)
    case Bool(b) => Some(if b then 1 else 0)
    case Num(n) => TimeClip(n)
    case NaN => None
    case Str(s) => clock.parse(s)
  }

  /** `new Date(v) < new Date()`: false when the date is invalid. */
  predicate BeforeNow(v: JsValue, clock: Clock) {
    var t := DateValue(v, clock);
    t.Some? && t.value < clock.nowMs
  }

  /** `d.setHours(0, 0, 0, 0)`, with local time taken as UTC. */
  function Midnight(t: int): (m: int)
    ensures m <= t < m + DayMs
    ensures m % DayMs == 0
  {
    t - t % DayMs
  }

  /** Comparing two midnights is comparing the day numbers. */
  lemma MidnightOrder(a: int, b: int)
    ensures Midnight(a) < Midnight(b) <==> a / DayMs < b / DayMs
  {
    assert Midnight(a) == (a / DayMs) * DayMs;
    assert Midnight(b) == (b / DayMs) * DayMs;
    if a / DayMs < b / DayMs {
      assert (a / DayMs) * DayMs < (b / DayMs) * DayMs;
    } else {
      assert (a / DayMs) * DayMs >= (b / DayMs) * DayMs;
    }
  }

  // ---------------------------------------------------------------- objects

  /**
   * A plain object: its own keys in insertion order and their values. A key
   * that is absent reads as `undefined`.
   */
  datatype Obj = Obj(keys: seq<string>, vals: map<string, JsValue>)

  const EmptyObj: Obj := Obj([], map[])

  predicate DistinctKeys(keys: seq<string>) {
    forall i, j :: 0 <= i < j < |keys| ==> keys[i] != keys[j]
  }

  /** Keys are listed once each, and exactly the keys that have values are listed. */
  predicate WellFormed(o: Obj) {
    DistinctKeys(o.keys)
    && (forall k :: k in o.vals ==> k in o.keys)
    && (forall i :: 0 <= i < |o.keys| ==> o.keys[i] in o.vals)
  }

  /**
   * Two keys that differ at one position are different keys. Object literals
   * name their properties with string literals, and this spares the verifier
   * the search for that position when two literals have the same length.
   */
  lemma KeysDiffer(a: string, b: string, i: nat)
    requires i < |a| && i < |b| && a[i] != b[i]
    ensures a != b
  {
  }

  /** `o[k]`. */
  function Get(o: Obj, k: string): JsValue {
    if k in o.vals then o.vals[k] else Undefined
  }

  /** `{ ...o, [k]: v }`: an existing key keeps its place, a new key goes last. */
  function Put(o: Obj, k: string, v: JsValue): (r: Obj)
    ensures Get(r, k) == v
    ensures forall k' :: k' != k ==> Get(r, k') == Get(o, k')
    ensures WellFormed(o) ==> WellFormed(r)
    ensures k in o.vals ==> r.keys == o.keys
    ensures k !in o.vals ==> r.keys == o.keys + [k]
  {
    if k in o.vals then Obj(o.keys, o.vals[k := v]) else Obj(o.keys + [k], o.vals[k := v])
  }



  /** `{ ...a, ...b }` restricted to the keys listed: each listed key of `b` overwrites or extends `a`. */
  function SpreadKeys(a: Obj, b: Obj, keys: seq<string>): (r: Obj)
    ensures WellFormed(a) ==> WellFormed(r)
    ensures forall k :: k in keys ==> Get(r, k) == Get(b, k)
    ensures forall k :: k !in keys ==> Get(r, k) == Get(a, k)
  {
    if keys == [] then a
    else
      var k := keys[|keys| - 1];
      Put(SpreadKeys(a, b, keys[..|keys| - 1]), k, Get(b, k))
  }

  /** `{ ...a, ...b }`. */
  function Spread(a: Obj, b: Obj): (r: Obj)
    ensures WellFormed(a) ==> WellFormed(r)
    ensures forall k :: k in b.keys ==> Get(r, k) == Get(b, k)
    ensures forall k :: k !in b.keys ==> Get(r, k) == Get(a, k)
  {
    SpreadKeys(a, b, b.keys)
  }
}
