/** The values `json.load` hands to the converter, and the handful of Python
    built-ins the converter applies to them: subscripting, `dict.get`,
    iteration, `str()` and `str.lower()`. */
module PyJson {

  /** A value produced by `json.load`: None, bool, int, str, list or dict.
      JSON numbers with a fraction or an exponent (Python floats) are not modelled. */
  datatype Json =
    | JNull
    | JBool(b: bool)
    | JInt(i: int)
    | JStr(s: string)
    | JList(items: seq<Json>)
    | JObject(fields: map<string, Json>)

  /** The exceptions the converter can end with; `SystemExit(code)` is `sys.exit(code)`. */
  datatype Error =
    | KeyError(key: string)
    | TypeError
    | AttributeError(attribute: string)
    | SystemExit(code: int)

  datatype Option<+T> = None | Some(value: T)

  datatype Result<+T> = Success(value: T) | Failure(error: Error)
  {
    predicate IsFailure() { Failure? }

    function PropagateFailure<U>(): Result<U>
      requires Failure?
    {
      Failure(error)
    }

    function Extract(): T
      requires Success?
    {
      value
    }
  }

  /** `j[key]` for a string key: only a dict can be subscripted by a string. */
  function Subscript(j: Json, key: string): Result<Json>
  {
    match j
    case JObject(m) => if key in m then Success(m[key]) else Failure(KeyError(key))
    case _ => Failure(TypeError)
  }

  /** `d.get(key, default)` on a dict `d`. */
  function GetOr(d: map<string, Json>, key: string, default: Json): Json
  {
    if key in d then d[key] else default
  }

  /** The elements a `for` loop visits. A dict is never iterated by the converter,
      a string yields its characters as one-character strings, and None, bool and
      int are not iterable. */
  function Iterate(j: Json): (r: Result<seq<Json>>)
    requires !j.JObject?
    ensures r.Success? <==> j.JList? || j.JStr?
    ensures j.JList? ==> r == Success(j.items)
    ensures j.JStr? ==> r.Success? && |r.value| == |j.s|
    ensures j.JStr? ==> forall k :: 0 <= k < |j.s| ==> r.value[k] == JStr([j.s[k]])
  {
    match j
    case JList(items) => Success(items)
    case JStr(s) => Success(seq(|s|, k requires 0 <= k < |s| => JStr([s[k]])))
    case _ => Failure(TypeError)
  }

  /** Only lists and dicts are unhashable. */
  predicate IsHashable(j: Json)
  {
    !j.JList? && !j.JObject?
  }

  function DigitChar(d: nat): char
    requires d < 10
  {
    (d + '0' as int) as char
  }

  predicate IsDigit(c: char)
  {
    '0' <= c <= '9'
  }

  predicate AllDigits(s: string)
  {
    |s| > 0 && forall k :: 0 <= k < |s| ==> IsDigit(s[k])
  }

  /** Decimal digits of a natural number, most significant first, no leading zero. */
  function NatToDecimal(n: nat): string
    decreases n
  {
    if n < 10 then [DigitChar(n)] else NatToDecimal(n / 10) + [DigitChar(n % 10)]
  }

  /** `str(n)` for a Python int. */
  function IntToDecimal(n: int): string
  {
    if n < 0 then "-" + NatToDecimal(-n) else NatToDecimal(n)
  }

  function DecimalToNat(s: string): nat
  {
    if s == [] then 0
    else
      var c := s[|s| - 1];
      DecimalToNat(s[..|s| - 1]) * 10 + (if IsDigit(c) then c as int - '0' as int else 0)
  }

  /** `int(s)` for an optionally signed string of decimal digits; None where Python raises. */
  function ParseInt(s: string): Option<int>
  {
    if |s| > 0 && s[0] == '-' then
      if AllDigits(s[1..]) then var n: int := DecimalToNat(s[1..]); Some(-n) else None
    else if AllDigits(s) then Some(DecimalToNat(s))
    else None
  }

  /** `str(j)` for the scalar values; lists and dicts (whose str() is Python's repr) render as "". */
  function PyStr(j: Json): string
  {
    match j
    case JNull => "None"
    case JBool(b) => if b then "True" else "False"
    case JInt(n) => IntToDecimal(n)
    case JStr(s) => s
    case JList(_) => ""
    case JObject(_) => ""
  }

  predicate IsUpper(c: char)
  {
    'A' <= c <= 'Z'
  }

  /** `s.lower()` restricted to ASCII letters. */
  function AsciiLower(s: string): (r: string)
    ensures |r| == |s|
    ensures forall k :: 0 <= k < |r| ==> !IsUpper(r[k])
    ensures forall k :: 0 <= k < |s| && !IsUpper(s[k]) ==> r[k] == s[k]
    ensures forall k :: 0 <= k < |s| && IsUpper(s[k]) ==> r[k] as int == s[k] as int + 32
  {
    seq(|s|, k requires 0 <= k < |s| => if IsUpper(s[k]) then (s[k] as int + 32) as char else s[k])
  }

  /** `int(str(n)) == n` for the digits of a natural number, which are all decimal digits. */
  lemma {:induction false} NatDecimalRoundTrip(n: nat)
    ensures AllDigits(NatToDecimal(n))
    ensures DecimalToNat(NatToDecimal(n)) == n
    decreases n
  {
    if n >= 10 {
      NatDecimalRoundTrip(n / 10);
      var s := NatToDecimal(n);
      var prefix := NatToDecimal(n / 10);
      assert s == prefix + [DigitChar(n % 10)];
      assert s[..|s| - 1] == prefix;
    }
  }

  /** `int(str(n)) == n` for every Python int. */
  lemma IntDecimalRoundTrip(n: int)
    ensures ParseInt(IntToDecimal(n)) == Some(n)
  {
    if n < 0 {
      NatDecimalRoundTrip(-n);
      var s := IntToDecimal(n);
      assert s[1..] == NatToDecimal(-n);
    } else {
      NatDecimalRoundTrip(n);
    }
  }
}
