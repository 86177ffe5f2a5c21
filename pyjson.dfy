/**
 * The decoded inbound payload as the server sees it: `json.loads` turns a
 * text frame into a Python dict whose values are JSON values. The handler
 * only ever looks values up with `dict.get`, tests them for truthiness with
 * `bool(...)`, compares them with `==`, renders them with `str(...)` and
 * slices the rendered text. Those four Python operations are modelled here.
 */
module PyJson {
  /**
   * Text that `str()` can produce for a float, a list or a dict: it always
   * holds some character other than a digit or a minus sign (a `.`, an
   * exponent, `inf`/`nan`, or a bracket), so it never reads as an integer.
   */
  predicate NonIntegerText(t: string)
    decreases |t|
  {
    |t| > 0 && ((!IsDigit(t[0]) && t[0] != '-') || NonIntegerText(t[1..]))
  }

  /** A string of digits and minus signs, such as any `str()` of an integer, is never opaque text. */
  lemma {:induction false} IntegerTextNotOpaque(t: string)
    requires forall k :: 0 <= k < |t| ==> IsDigit(t[k]) || t[k] == '-'
    ensures !NonIntegerText(t)
    decreases |t|
  {
    if |t| > 0 {
      assert IsDigit(t[0]) || t[0] == '-';
      IntegerTextNotOpaque(t[1..]);
    }
  }

  type OpaqueText = t: string | NonIntegerText(t) witness "[]"

  /**
   * A JSON value after `json.loads`. Null, booleans, integral numbers and
   * strings are exact. A float, an array or an object is kept only as what
   * the handler can observe of it: its Python truthiness and the text
   * `str()` produces for it.
   */
  datatype Json =
    | JNull
    | JBool(b: bool)
    | JInt(i: int)
    | JStr(s: string)
    | JOpaque(truthy: bool, text: OpaqueText)

  /** Python's `bool(v)`. */
  predicate Truthy(v: Json) {
    match v
    case JNull => false
    case JBool(b) => b
    case JInt(i) => i != 0
    case JStr(s) => s != ""
    case JOpaque(t, _) => t
  }

  /** Python's falsy values: `None`, `False`, `0`, `""`, and the empty (or zero) opaque values. */
  lemma FalsyValues(v: Json)
    ensures !Truthy(v) <==> v == JNull || v == JBool(false) || v == JInt(0) || v == JStr("") || (v.JOpaque? && !v.truthy)
  {
  }

  /** `data.get(key)`: a missing key reads as `None`. */
  function Get(data: map<string, Json>, key: string): (v: Json)
    ensures key !in data ==> v == JNull
    ensures key in data ==> v == data[key]
  {
    if key in data then data[key] else JNull
  }

  /** `data.get(key, default)`. */
  function GetOr(data: map<string, Json>, key: string, default: Json): (v: Json)
    ensures key !in data ==> v == default
    ensures key in data ==> v == data[key]
  {
    if key in data then data[key] else default
  }

  predicate IsDigit(c: char) {
    '0' <= c <= '9'
  }

  function Digit(d: int): (c: char)
    requires 0 <= d < 10
    ensures IsDigit(c)
  {
    ('0' as int + d) as char
  }

  /** Decimal digits of a natural number, most significant first. */
  function Natural(n: nat): (r: string)
    ensures 1 <= |r|
    ensures 10 <= n ==> 2 <= |r|
    ensures forall k :: 0 <= k < |r| ==> IsDigit(r[k])
  {
    if n < 10 then [Digit(n)] else Natural(n / 10) + [Digit(n % 10)]
  }

  /** Python's `str(i)` for an `int`: optional minus sign, then digits. */
  function Decimal(i: int): (r: string)
    ensures 1 <= |r|
    ensures r[0] == '-' <==> i < 0
  {
    if i < 0 then "-" + Natural(-i) else Natural(i)
  }

  /** Python's `str(v)`. */
  function Str(v: Json): string {
    match v
    case JNull => "None"
    case JBool(b) => if b then "True" else "False"
    case JInt(i) => Decimal(i)
    case JStr(s) => s
    case JOpaque(_, text) => text
  }

  /** Python's slice `s[:n]`: the first `n` characters, or all of them if fewer. */
  function Prefix(s: string, n: nat): (r: string)
    ensures |r| == if |s| < n then |s| else n
    ensures r <= s
  {
    if |s| < n then s else s[..n]
  }

  /** Different natural numbers have different decimal renderings. */
  lemma {:induction false} NaturalInjective(a: nat, b: nat)
    requires Natural(a) == Natural(b)
    ensures a == b
  {
    var ra, rb := Natural(a), Natural(b);
    if a < 10 || b < 10 {
      // a single digit on one side forces a single digit on the other
      assert |ra| == 1 == |rb|;
      assert a < 10 && b < 10;
      assert Digit(a) == ra[0] == rb[0] == Digit(b);
    } else {
      assert ra == Natural(a / 10) + [Digit(a % 10)];
      assert rb == Natural(b / 10) + [Digit(b % 10)];
      assert Digit(a % 10) == ra[|ra| - 1] == rb[|rb| - 1] == Digit(b % 10);
      assert Natural(a / 10) == ra[..|ra| - 1] == rb[..|rb| - 1] == Natural(b / 10);
      NaturalInjective(a / 10, b / 10);
    }
  }

  /** Python's `str` is injective on integers: equal texts mean equal numbers. */
  lemma DecimalInjective(a: int, b: int)
    requires Decimal(a) == Decimal(b)
    ensures a == b
  {
    if a < 0 {
      assert b < 0;
      assert Natural(-a) == Decimal(a)[1..] == Decimal(b)[1..] == Natural(-b);
      NaturalInjective(-a, -b);
    } else {
      assert 0 <= b;
      NaturalInjective(a, b);
    }
  }
}
