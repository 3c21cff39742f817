/** JSON values as PHP's json_decode($line, true) hands them to the server,
    and the loose PHP operations the server applies to them: array access
    with `??`, empty(), string conversion and the (int) cast.

    Objects become associative arrays; a repeated key keeps its last value,
    so an object is a map. JSON numbers are integers here, of any size:
    the floats json_decode makes of fractions, exponents and integers
    outside the 64-bit range are not modelled (see README). */
module JsonValue {
  import opened Wrappers
  import opened PhpStrings

  datatype Json =
    | JNull
    | JBool(b: bool)
    | JInt(n: int)
    | JStr(s: string)
    | JArr(items: seq<Json>)
    | JObj(fields: map<string, Json>)

  /** is_array(): both JSON arrays and JSON objects decode to PHP arrays. */
  predicate IsArray(v: Json) {
    v.JArr? || v.JObj?
  }

  /** `$v[key]` for the non-numeric string keys the server looks up: only a
      decoded object can hold such a key; a list's keys are integers. */
  function Get(v: Json, key: string): (r: Option<Json>)
    ensures r.Some? <==> v.JObj? && key in v.fields
  {
    if v.JObj? && key in v.fields then Some(v.fields[key]) else None
  }

  /** `$v[key] ?? default`: a missing key and an explicit null both give the
      default. */
  function Field(v: Json, key: string, default: Json): (r: Json)
    ensures Get(v, key) == None || Get(v, key) == Some(JNull) ==> r == default
    ensures Get(v, key).Some? && Get(v, key) != Some(JNull) ==> Some(r) == Get(v, key)
  {
    match Get(v, key)
    case Some(x) => if x.JNull? then default else x
    case None => default
  }

  /** PHP empty(). */
  predicate IsEmpty(v: Json) {
    match v
    case JNull => true
    case JBool(b) => !b
    case JInt(n) => n == 0
    case JStr(s) => IsEmptyString(s)
    case JArr(items) => |items| == 0
    case JObj(fields) => |fields| == 0
  }

  /** The seven values PHP's empty() holds for, written out. */
  const EmptyValues: set<Json> :=
    {JNull, JBool(false), JInt(0), JStr(""), JStr("0"), JArr([]), JObj(map[])}

  /** empty() is true of exactly the seven listed values, so every other
      value (including " ", "00", "false" and [0]) is truthy. */
  lemma EmptyExactly(v: Json)
    ensures IsEmpty(v) <==> v in EmptyValues
  {
    if v.JObj? && |v.fields| == 0 {
      assert v.fields == map[];
    }
  }

  /* ---------------- (string) ---------------- */

  function DigitChar(d: nat): (c: char)
    requires d < 10
    ensures IsDigit(c) && DigitValue(c) == d
  {
    ('0' as int + d) as char
  }

  predicate IsDigit(c: char) {
    '0' <= c <= '9'
  }

  function DigitValue(c: char): nat
    requires IsDigit(c)
  {
    c as int - '0' as int
  }

  predicate AllDigits(s: string) {
    forall k :: 0 <= k < |s| ==> IsDigit(s[k])
  }

  /** Decimal digits of n, most significant first, without leading zeros. */
  function Digits(n: nat): (s: string)
    ensures |s| >= 1 && AllDigits(s)
    decreases n
  {
    if n < 10 then [DigitChar(n)] else Digits(n / 10) + [DigitChar(n % 10)]
  }

  /** How PHP writes an int as a string. */
  function DecimalString(n: int): string {
    if n < 0 then "-" + Digits(-n) else Digits(n)
  }

  /** PHP's conversion to string, as used by the `.` operator. */
  function ToPhpString(v: Json): string {
    match v
    case JNull => ""
    case JBool(b) => if b then "1" else ""
    case JInt(n) => DecimalString(n)
    case JStr(s) => s
    case JArr(_) => "Array"
    case JObj(_) => "Array"
  }

  /* ---------------- (int) ---------------- */

  /** Value of a run of decimal digits. */
  function DigitsValue(ds: string): nat
    requires AllDigits(ds)
    decreases |ds|
  {
    if |ds| == 0 then 0 else DigitsValue(ds[..|ds| - 1]) * 10 + DigitValue(ds[|ds| - 1])
  }

  /** First non-digit position at or after i, or |s|. */
  function DigitRunEnd(s: string, i: nat): (k: nat)
    requires i <= |s|
    ensures i <= k <= |s|
    ensures AllDigits(s[i..k])
    ensures k < |s| ==> !IsDigit(s[k])
    decreases |s| - i
  {
    if i < |s| && IsDigit(s[i]) then DigitRunEnd(s, i + 1) else i
  }

  /** (int) of a string: leading whitespace, an optional sign, then the
      longest run of decimal digits; a string without digits there is 0. */
  function IntOfString(s: string): int {
    var i := SpaceEnd(s, 0);
    var signed := i < |s| && (s[i] == '-' || s[i] == '+');
    var j := if signed then i + 1 else i;
    var k := DigitRunEnd(s, j);
    var magnitude: int := DigitsValue(s[j..k]);
    if signed && s[i] == '-' then -magnitude else magnitude
  }

  /** PHP's (int) cast of a decoded JSON value. */
  function ToInt(v: Json): int {
    match v
    case JNull => 0
    case JBool(b) => if b then 1 else 0
    case JInt(n) => n
    case JStr(s) => IntOfString(s)
    case JArr(items) => if |items| == 0 then 0 else 1
    case JObj(fields) => if |fields| == 0 then 0 else 1
  }

  lemma {:induction false} DigitsValueOfDigits(n: nat)
    ensures DigitsValue(Digits(n)) == n
    decreases n
  {
    var s := Digits(n);
    if n >= 10 {
      DigitsValueOfDigits(n / 10);
      assert s[..|s| - 1] == Digits(n / 10);
    }
  }

  /** Casting the string PHP writes for an int back to int gives the int:
      (int)(string)$n === $n. */
  lemma IntOfDecimalString(n: int)
    ensures IntOfString(DecimalString(n)) == n
    ensures ToInt(JStr(ToPhpString(JInt(n)))) == n
  {
    var s := DecimalString(n);
    var ds := if n < 0 then Digits(-n) else Digits(n);
    var j := if n < 0 then 1 else 0;
    assert s[j..] == ds;
    assert !IsWhitespace(s[0]);
    assert SpaceEnd(s, 0) == 0;
    assert forall m :: j <= m < |s| ==> s[m] == ds[m - j];
    assert DigitRunEnd(s, j) == |s|;
    assert s[j..|s|] == ds;
    DigitsValueOfDigits(if n < 0 then -n else n);
  }
}
