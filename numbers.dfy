/**
  The .NET conversions between numbers and text that the game uses:
  `int.TryParse` (with `NumberStyles.Integer` and a '-' negative sign),
  `bool.TryParse`, `int.ToString()` and `bool.ToString()`.
 */
module Numbers {
  import opened Wrappers
  import opened Text

  const Int32Min: int := -0x8000_0000
  const Int32Max: int := 0x7FFF_FFFF

  /** The C# `int`. */
  type Int32 = x: int | Int32Min <= x <= Int32Max

  /** The white space `NumberStyles.Integer` allows around the number. */
  predicate IsNumberWhite(c: char) {
    ('\t' <= c <= '\r') || c == ' '
  }

  predicate IsDigit(c: char) {
    '0' <= c <= '9'
  }

  predicate AllDigits(s: string) {
    forall i :: 0 <= i < |s| ==> IsDigit(s[i])
  }

  function DropLeadingWhite(s: string): string {
    if s != [] && IsNumberWhite(s[0]) then DropLeadingWhite(s[1..]) else s
  }

  function DropTrailingWhite(s: string): string {
    if s != [] && IsNumberWhite(s[|s| - 1]) then DropTrailingWhite(s[..|s| - 1]) else s
  }

  /** The value of a string of decimal digits, most significant first. */
  function DigitsValue(s: string): nat
    requires AllDigits(s)
  {
    if s == [] then 0 else DigitsValue(s[..|s| - 1]) * 10 + (s[|s| - 1] as int - '0' as int)
  }

  /** `int.TryParse(s, out n)`: optional surrounding white space, an optional
      sign, one or more decimal digits, and a value that fits in 32 bits. */
  function TryParseInt(s: string): (r: Option<Int32>)
  {
    var t := DropTrailingWhite(DropLeadingWhite(s));
    var signed := t != [] && (t[0] == '-' || t[0] == '+');
    var digits := if signed then t[1..] else t;
    if digits == [] || !AllDigits(digits) then None
    else
      var v: int := if signed && t[0] == '-' then -(DigitsValue(digits) as int) else DigitsValue(digits);
      if Int32Min <= v <= Int32Max then Some(v) else None
  }

  function DigitChar(d: nat): char
    requires d < 10
  {
    ('0' as int + d) as char
  }

  /** The decimal digits of `n`, without leading zeros. */
  function NatToString(n: nat): (s: string)
    ensures s != [] && AllDigits(s)
  {
    if n < 10 then [DigitChar(n)] else NatToString(n / 10) + [DigitChar(n % 10)]
  }

  /** `int.ToString()`. */
  function IntToString(n: int): string {
    if n < 0 then "-" + NatToString(-n) else NatToString(n)
  }

  lemma {:induction false} NatToStringValue(n: nat)
    ensures DigitsValue(NatToString(n)) == n
  {
    if n >= 10 {
      NatToStringValue(n / 10);
      var s := NatToString(n);
      assert s[..|s| - 1] == NatToString(n / 10);
    }
  }

  /** `int.TryParse` reads back what `int.ToString()` writes. */
  lemma IntToStringRoundTrip(n: Int32)
    ensures TryParseInt(IntToString(n)) == Some(n)
  {
    var m: nat := if n < 0 then -(n as int) else n;
    var digits := NatToString(m);
    NatToStringValue(m);
    var s := IntToString(n);
    assert s == if n < 0 then "-" + digits else digits;
    assert !IsNumberWhite(s[0]);
    assert DropLeadingWhite(s) == s;
    assert !IsNumberWhite(s[|s| - 1]);
    assert DropTrailingWhite(s) == s;
    if n < 0 {
      assert s[1..] == digits;
    } else {
      assert IsDigit(s[0]);
    }
  }

  /** `bool.TryParse(s, out b)`: "True" or "False" in any case, surrounded by
      any white space (compared case-insensitively with `bool.TrueString`
      and `bool.FalseString`). */
  function TryParseBool(s: string): Option<bool> {
    var w := ToLower(Trim(s));
    if w == "true" then Some(true)
    else if w == "false" then Some(false)
    else None
  }

  /** `bool.ToString()`. */
  function BoolToString(b: bool): string {
    if b then "True" else "False"
  }

  /** The lower-case word `bool.TryParse` compares against. */
  function BoolWord(b: bool): string {
    if b then "true" else "false"
  }

  lemma LowerBoolToString(b: bool)
    ensures Trim(BoolToString(b)) == BoolToString(b)
    ensures ToLower(BoolToString(b)) == BoolWord(b)
  {
    var s, w := BoolToString(b), BoolWord(b);
    assert !IsWhiteSpace(s[0]) && !IsWhiteSpace(s[|s| - 1]);
    var l := ToLower(s);
    assert |l| == |w|;
    forall i | 0 <= i < |l| ensures l[i] == w[i] { }
  }

  lemma TrimBoolWord(b: bool)
    ensures Trim(BoolWord(b)) == BoolWord(b)
  {
    var w := BoolWord(b);
    assert !IsWhiteSpace(w[0]) && !IsWhiteSpace(w[|w| - 1]);
  }

  /** `bool.TryParse` reads back `b.ToString()` and `b.ToString().ToLower()`. */
  lemma BoolToStringRoundTrip(b: bool)
    ensures TryParseBool(BoolToString(b)) == Some(b)
    ensures TryParseBool(ToLower(BoolToString(b))) == Some(b)
  {
    LowerBoolToString(b);
    TrimBoolWord(b);
    ToLowerIdempotent(BoolToString(b));
  }
}
