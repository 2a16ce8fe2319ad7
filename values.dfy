/** Values of a decoded device response, their Python truthiness and their
    rendering by `str()` when a metric line is built. */
module Values {

  datatype Option<+T> = None | Some(value: T)

  /** A value of the response's `data` mapping as the device client decodes
      it from JSON: `null`, a boolean, an integer, a string, or a mapping
      whose entries keep the order in which the mapping iterates. */
  datatype Value =
    | VNull
    | VBool(b: bool)
    | VInt(i: int)
    | VStr(s: string)
    | VMap(entries: seq<Field>)

  /** One `(name, value)` item of a mapping, in iteration order. */
  datatype Field = Field(name: string, value: Value)

  /** Python's `not value`: None, False, 0, "" and {} are falsy. */
  predicate Falsy(v: Value)
  {
    match v
    case VNull => true
    case VBool(b) => !b
    case VInt(i) => i == 0
    case VStr(s) => s == []
    case VMap(es) => es == []
  }

  predicate IsDigit(c: char)
  {
    '0' <= c <= '9'
  }

  predicate AllDigits(s: string)
  {
    forall k :: 0 <= k < |s| ==> IsDigit(s[k])
  }

  function DigitChar(d: nat): (c: char)
    requires d < 10
    ensures IsDigit(c)
  {
    ('0' as int + d) as char
  }

  /** The decimal digits of `n`, most significant first, without leading zeros. */
  function NatDigits(n: nat): (r: string)
    ensures |r| >= 1
    ensures n >= 1 ==> r[0] != '0'
    decreases n
  {
    if n < 10 then [DigitChar(n)] else NatDigits(n / 10) + [DigitChar(n % 10)]
  }

  /** Python's `str()` of an `int`: an optional minus sign, then the digits. */
  function Decimal(i: int): string
  {
    if i < 0 then "-" + NatDigits(-i) else NatDigits(i)
  }

  /** Python's `str()` of a value as the handler formats it. A non-empty
      mapping is rendered as a fixed placeholder instead of Python's repr. */
  function Render(v: Value): string
  {
    match v
    case VNull => "None"
    case VBool(b) => if b then "True" else "False"
    case VInt(i) => Decimal(i)
    case VStr(s) => s
    case VMap(es) => if es == [] then "{}" else "{...}"
  }

  /** The number a non-empty string of decimal digits denotes. */
  function DigitsValue(s: string): nat
    requires |s| >= 1 && AllDigits(s)
    decreases |s|
  {
    var d := (s[|s| - 1] as int - '0' as int) as nat;
    if |s| == 1 then d else 10 * DigitsValue(s[..|s| - 1]) + d
  }

  /** Reads back what `Decimal` writes: an optional minus sign and at least one digit. */
  function ParseDecimal(s: string): Option<int>
  {
    if |s| >= 2 && s[0] == '-' && AllDigits(s[1..]) then Some(0 - DigitsValue(s[1..]) as int)
    else if |s| >= 1 && AllDigits(s) then Some(DigitsValue(s))
    else None
  }

  lemma {:induction false} NatDigitsRoundTrip(n: nat)
    ensures AllDigits(NatDigits(n))
    ensures DigitsValue(NatDigits(n)) == n
    decreases n
  {
    if n >= 10 {
      NatDigitsRoundTrip(n / 10);
      var r := NatDigits(n);
      assert r[..|r| - 1] == NatDigits(n / 10);
    }
  }

  /** The rendering of an integer is read back as the same integer. */
  lemma DecimalRoundTrip(i: int)
    ensures ParseDecimal(Decimal(i)) == Some(i)
  {
    if i < 0 {
      NatDigitsRoundTrip(-i);
      assert ("-" + NatDigits(-i))[1..] == NatDigits(-i);
    } else {
      NatDigitsRoundTrip(i);
    }
  }
}
