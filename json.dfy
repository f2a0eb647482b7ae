/**
 * The JSON values a token endpoint can answer with, and the two Python
 * operations the client applies to them: truthiness (`if not x`) and `int(x)`.
 */
module Json {
  import opened Wrappers

  /** A decoded JSON value; numbers are integral. */
  datatype Value =
    | Null
    | Bool(b: bool)
    | Number(n: int)
    | Str(s: string)
    | Array(items: seq<Value>)
    | Object(fields: map<string, Value>)

  /** Python's truth value of the decoded value: false for null, false, 0, "" and empty containers. */
  predicate Truthy(v: Value) {
    match v
    case Null => false
    case Bool(b) => b
    case Number(n) => n != 0
    case Str(s) => s != ""
    case Array(items) => items != []
    case Object(fields) => fields != map[]
  }

  /** `dict.get(key, default)`. */
  function GetOr(fields: map<string, Value>, key: string, default: Value): (r: Value)
    ensures key in fields ==> r == fields[key]
    ensures key !in fields ==> r == default
  {
    if key in fields then fields[key] else default
  }

  predicate IsDigit(c: char) {
    '0' <= c <= '9'
  }

  /** Every character of `s` is an ASCII digit. */
  predicate AllDigits(s: string) {
    forall k :: 0 <= k < |s| ==> IsDigit(s[k])
  }

  /** The value of a non-empty run of decimal digits, read most significant first. */
  function DigitsValue(s: string): (n: nat)
    requires AllDigits(s)
    decreases |s|
  {
    if s == [] then 0
    else
      assert IsDigit(s[|s| - 1]);
      DigitsValue(s[..|s| - 1]) * 10 + (s[|s| - 1] as int - '0' as int)
  }

  /** The decimal numeral of a natural number, without leading zeros. */
  function Decimal(n: nat): (s: string)
    ensures s != [] && AllDigits(s)
    decreases n
  {
    var d := [('0' as int + n % 10) as char];
    if n < 10 then d else Decimal(n / 10) + d
  }

  /** `int(s)` for a string: an optional sign and at least one ASCII digit; None where Python raises. */
  function ParseInt(s: string): (r: Option<int>)
  {
    if s == [] then None
    else
      var signed := s[0] == '-' || s[0] == '+';
      var digits := if signed then s[1..] else s;
      if digits != [] && AllDigits(digits)
      then Some((if s[0] == '-' then -1 else 1) * DigitsValue(digits))
      else None
  }

  /**
   * Python's `int(v)` on a decoded value: integers as they are, booleans as 1 and 0,
   * numeral strings parsed; None where Python raises (null, other strings, containers).
   */
  function ToInt(v: Value): (r: Option<int>)
    ensures v.Number? ==> r == Some(v.n)
    ensures v.Null? || v.Array? || v.Object? ==> r.None?
  {
    match v
    case Number(n) => Some(n)
    case Bool(b) => Some(if b then 1 else 0)
    case Str(s) => ParseInt(s)
    case _ => None
  }

  /** Reading back the numeral of a natural number gives the number. */
  lemma {:induction false} DigitsValueDecimal(n: nat)
    ensures DigitsValue(Decimal(n)) == n
    decreases n
  {
    var d := [('0' as int + n % 10) as char];
    if n >= 10 {
      var s := Decimal(n);
      assert s == Decimal(n / 10) + d;
      assert s[..|s| - 1] == Decimal(n / 10);
      DigitsValueDecimal(n / 10);
    }
  }

  /** Round trip: `int()` of the numeral of any integer (with `-` when negative) is that integer. */
  lemma ParseIntNumeral(n: int)
    ensures ParseInt(if n < 0 then "-" + Decimal(-n) else Decimal(n)) == Some(n)
  {
    if n < 0 {
      DigitsValueDecimal(-n);
      assert ("-" + Decimal(-n))[1..] == Decimal(-n);
    } else {
      DigitsValueDecimal(n);
    }
  }

  /**
   * `int()` raises on a string with any character that is not a digit,
   * except a sign in first position: `int("a")` and `int("12s")` both fail.
   */
  lemma ParseIntRejectsNonDigit(s: string, k: nat)
    requires k < |s| && !IsDigit(s[k])
    requires k == 0 ==> s[0] != '-' && s[0] != '+'
    ensures ParseInt(s) == None
  {
    var digits := if s[0] == '-' || s[0] == '+' then s[1..] else s;
    var j := if s[0] == '-' || s[0] == '+' then k - 1 else k;
    assert 0 <= j < |digits| && digits[j] == s[k] && !IsDigit(digits[j]);
  }

  /** `int()` of a JSON string holding the numeral of an integer is that integer, as for the number itself. */
  lemma ToIntNumeralString(n: int)
    ensures ToInt(Str(if n < 0 then "-" + Decimal(-n) else Decimal(n))) == Some(n)
    ensures ToInt(Number(n)) == Some(n)
  {
    ParseIntNumeral(n);
  }
}
