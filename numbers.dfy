/** Python's `float(...)` over JSON values, and the scripts' `safe_float`,
    which both ia/train.py and ia/main.py define identically. Decimal parsing
    stands behind `Parse`, a partial function from strings to reals. */
module Numbers {
  import opened Wrappers
  import opened Values

  predicate IsDigit(c: char) {
    '0' <= c <= '9'
  }

  predicate AllDigits(s: string) {
    forall i :: 0 <= i < |s| ==> IsDigit(s[i])
  }

  function DigitsValue(s: string): nat
    requires AllDigits(s)
  {
    if s == [] then 0 else DigitsValue(s[..|s| - 1]) * 10 + (s[|s| - 1] as int - '0' as int)
  }

  function Pow10(k: nat): (r: nat)
    ensures r > 0
  {
    if k == 0 then 1 else 10 * Pow10(k - 1)
  }

  function FirstIndexOf(s: string, c: char): (i: nat)
    requires c in s
    ensures i < |s| && s[i] == c && c !in s[..i]
  {
    if s[0] == c then 0
    else
      var i := 1 + FirstIndexOf(s[1..], c);
      assert s[..i] == [s[0]] + s[1..][..i - 1];
      i
  }

  /** Digits with an optional decimal point: "12", "12.5", "12.", ".5". */
  function ParseUnsigned(s: string): (r: Option<real>)
    ensures s != [] && AllDigits(s) ==> r == Some(DigitsValue(s) as real)
    ensures r.Some? ==> r.value >= 0.0
  {
    if '.' in s then
      var k := FirstIndexOf(s, '.');
      var whole, frac := s[..k], s[k + 1..];
      if AllDigits(whole) && AllDigits(frac) && (whole != [] || frac != []) then
        Some(DigitsValue(whole) as real + DigitsValue(frac) as real / Pow10(|frac|) as real)
      else None
    else if s != [] && AllDigits(s) then Some(DigitsValue(s) as real)
    else None
  }

  /** The decimal literals `float` accepts, with an optional sign. */
  function Parse(s: string): (r: Option<real>)
    ensures r.Some? ==> s != []
    ensures s != [] && AllDigits(s) ==> r == Some(DigitsValue(s) as real)
  {
    if s != [] && (s[0] == '-' || s[0] == '+') then
      match ParseUnsigned(s[1..])
      case Some(x) => Some(if s[0] == '-' then -x else x)
      case None => None
    else ParseUnsigned(s)
  }

  /** `float(v)`: a number is itself, a boolean is 1.0 or 0.0, a string is
      parsed (ValueError when it is not a number); None, lists and dicts raise
      TypeError. */
  function PyFloat(v: Json): (r: Result<real, PyError>)
    ensures r.Failure? ==> r.error == ValueError || r.error == TypeError
    ensures r.Failure? && r.error == ValueError <==> v.JStr? && Parse(v.s).None?
    ensures v.JStr? && Parse(v.s).Some? ==> r == Success(Parse(v.s).value)
    ensures v.JNum? ==> r == Success(v.n)
    ensures v.JBool? ==> r == Success(if v.b then 1.0 else 0.0)
    ensures v.JNull? || v.JArray? || v.JObject? ==> r == Failure(TypeError)
  {
    match v
    case JNum(x) => Success(x)
    case JBool(b) => Success(if b then 1.0 else 0.0)
    case JStr(s) =>
      (match Parse(s)
       case Some(x) => Success(x)
       case None => Failure(ValueError))
    case _ => Failure(TypeError)
  }

  /** `safe_float(value)`: the value `float` gives, or 0.0 where `float`
      raises ValueError or TypeError (missing fields arrive as None). */
  function SafeFloat(v: Json): (r: real)
    ensures PyFloat(v).Success? ==> r == PyFloat(v).value
    ensures PyFloat(v).Failure? ==> r == 0.0
  {
    match PyFloat(v)
    case Success(x) => x
    case Failure(_) => 0.0
  }

  /** A missing or non-numeric input is indistinguishable from a true zero reading. */
  lemma SafeFloatDefaults(v: Json)
    ensures v.JNull? ==> SafeFloat(v) == 0.0
    ensures v.JStr? && Parse(v.s).None? ==> SafeFloat(v) == 0.0
    ensures v.JArray? || v.JObject? ==> SafeFloat(v) == 0.0
    ensures v.JStr? && Parse(v.s).Some? ==> SafeFloat(v) == Parse(v.s).value
    ensures v.JNum? ==> SafeFloat(v) == v.n
  {
  }
}
