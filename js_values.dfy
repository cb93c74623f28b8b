/**
  JavaScript values as they arrive in a request body, the conversions the
  request layer applies to them, and the integer syntax shared by the
  validators and the database's parameter parsing.
*/
module JsValues {
  import opened Wrappers

  /** A request field. Numbers are integral and unbounded: fractions, the
      2^53 precision limit of a double, arrays and objects are not modelled. */
  datatype Value = Undefined | Null | Bool(b: bool) | Num(n: int) | Str(s: string)

  /** `String(n)` writes an integral number in plain decimal only while its
      magnitude is below 10^21; from there on it uses exponent notation
      ("1e+21"), which `ToText` does not produce. */
  const PlainLimit: int := 1_000_000_000_000_000_000_000

  predicate PrintsPlain(n: int)
  {
    -PlainLimit < n < PlainLimit
  }

  /** A parsed request body: field name to value. */
  type Body = map<string, Value>

  /** `req.body.<name>`: undefined when the field is absent. */
  function Field(body: Body, name: string): Value
  {
    if name in body then body[name] else Undefined
  }

  /** JavaScript truthiness, as used by `!x` tests. */
  predicate Truthy(v: Value)
  {
    match v
    case Undefined => false
    case Null => false
    case Bool(b) => b
    case Num(n) => n != 0
    case Str(s) => s != ""
  }

  /** The request layer's conversion of a field to text before any check:
      `undefined` and `null` become the empty string, anything else `String(v)`. */
  function ToText(v: Value): string
  {
    match v
    case Undefined => ""
    case Null => ""
    case Bool(b) => if b then "true" else "false"
    case Num(n) => IntText(n)
    case Str(s) => s
  }

  predicate IsDigit(c: char)
  {
    '0' <= c <= '9'
  }

  predicate AllDigits(s: string)
  {
    forall i :: 0 <= i < |s| ==> IsDigit(s[i])
  }

  /** Integer syntax: an optional sign followed by at least one decimal digit. */
  predicate IsIntText(s: string)
  {
    if |s| > 0 && (s[0] == '-' || s[0] == '+') then |s| > 1 && AllDigits(s[1..])
    else |s| > 0 && AllDigits(s)
  }

  function DigitsValue(s: string): nat
    requires AllDigits(s)
  {
    if s == [] then 0 else DigitsValue(s[..|s| - 1]) * 10 + (s[|s| - 1] as int - '0' as int)
  }

  /** The integer a text spells, or None when it is not integer syntax. */
  function ParseIntText(s: string): (r: Option<int>)
    ensures r.Some? <==> IsIntText(s)
  {
    if !IsIntText(s) then None
    else if s[0] == '-' then Some(-(DigitsValue(s[1..]) as int))
    else if s[0] == '+' then Some(DigitsValue(s[1..]))
    else Some(DigitsValue(s))
  }

  function DigitChar(d: nat): char
    requires d < 10
  {
    ('0' as int + d) as char
  }

  function NatText(n: nat): string
  {
    if n < 10 then [DigitChar(n)] else NatText(n / 10) + [DigitChar(n % 10)]
  }

  /** `String(i)` for an integer `i`. */
  function IntText(i: int): string
  {
    if i < 0 then "-" + NatText(-i) else NatText(i)
  }

  lemma {:induction false} NatTextDigits(n: nat)
    ensures |NatText(n)| > 0 && AllDigits(NatText(n))
    ensures DigitsValue(NatText(n)) == n
  {
    if n >= 10 {
      NatTextDigits(n / 10);
      var s := NatText(n);
      assert s[..|s| - 1] == NatText(n / 10);
    }
  }

  /** Printing an integer and reading it back gives the same integer. */
  lemma IntTextRoundTrip(i: int)
    ensures IsIntText(IntText(i))
    ensures ParseIntText(IntText(i)) == Some(i)
  {
    if i < 0 {
      NatTextDigits(-i);
      assert IntText(i)[1..] == NatText(-i);
    } else {
      NatTextDigits(i);
    }
  }

  /** How PostgreSQL reads a truthy JavaScript value bound to an integer
      parameter: numbers as themselves, text by integer syntax; None means
      the query fails (for `true`, or for text that is not an integer). */
  function ParamAsInt(v: Value): (r: Option<int>)
    requires Truthy(v)
    ensures v.Num? ==> r == Some(v.n)
    ensures r.Some? <==> v.Num? || (v.Str? && IsIntText(v.s))
  {
    match v
    case Num(n) => Some(n)
    case Str(s) => ParseIntText(s)
    case Bool(_) => None
  }

  /** A truthy field whose text is integer syntax is read by the database as
      the integer that text spells. */
  lemma IntTextParamRead(v: Value)
    requires Truthy(v) && IsIntText(ToText(v))
    ensures ParamAsInt(v) == ParseIntText(ToText(v))
  {
    if v.Num? {
      IntTextRoundTrip(v.n);
    }
  }
}
