/** Python's `str(n)` for an int and `int(s)` for a str in base 10, the two
    conversions the token's `sub` claim goes through. */
module PyInt {
  import opened Wrappers

  predicate IsDigit(c: char) { '0' <= c <= '9' }

  function DigitValue(c: char): (d: nat)
    requires IsDigit(c)
    ensures d < 10
  {
    (c as int) - ('0' as int)
  }

  function DigitChar(d: nat): (c: char)
    requires d < 10
    ensures IsDigit(c) && DigitValue(c) == d
  {
    (('0' as int) + d) as char
  }

  /** The characters `int()` skips around a number: the ASCII white space
      \t \n \v \f \r and space, and the non-ASCII white space characters,
      which it first turns into spaces. The ASCII separators U+001C..U+001F
      count as white space for `str.strip()` but not for `int()`. */
  predicate IsSpace(c: char) {
    var u := c as int;
    || (9 <= u <= 13) || u == 32 || u == 0x85 || u == 0xA0 || u == 0x1680
    || (0x2000 <= u <= 0x200A) || u == 0x2028 || u == 0x2029 || u == 0x202F
    || u == 0x205F || u == 0x3000
  }

  /** Decimal digits of `n`, most significant first, without leading zeros. */
  function Digits(n: nat): (s: string)
    ensures |s| >= 1
    ensures forall i :: 0 <= i < |s| ==> IsDigit(s[i])
    ensures s[0] == '0' <==> n == 0
  {
    if n < 10 then [DigitChar(n)] else Digits(n / 10) + [DigitChar(n % 10)]
  }

  /** The most digits `int()` converts (`sys.get_int_max_str_digits()`,
      Python 3.11 on); a longer digit string raises ValueError. */
  const MaxStrDigits: nat := 4300

  /** `str(n)`: a minus sign for negative numbers, then the digits of the
      magnitude without leading zeros. */
  function Str(n: int): (s: string)
    ensures |s| >= 1
    ensures s[0] == '-' <==> n < 0
    ensures forall i :: 0 <= i < |s| ==> IsDigit(s[i]) || (i == 0 && s[i] == '-')
    ensures n >= 0 && |s| > 1 ==> s[0] != '0'
    ensures n < 0 ==> |s| > 1 && s[1] != '0'
  {
    if n < 0 then "-" + Digits(-n) else Digits(n)
  }

  function Pow10(k: nat): (p: nat)
    ensures p >= 1
  {
    if k == 0 then 1 else 10 * Pow10(k - 1)
  }

  /** A number below 10^k has at most k digits. */
  lemma {:induction false} DigitsLength(n: nat, k: nat)
    requires k >= 1 && n < Pow10(k)
    ensures |Digits(n)| <= k
  {
    if n >= 10 {
      assert k >= 2;
      assert n / 10 < Pow10(k - 1);
      DigitsLength(n / 10, k - 1);
    }
  }

  lemma Pow10Of19()
    ensures Pow10(19) == 10000000000000000000
  {
    assert Pow10(4) == 10000;
    assert Pow10(8) == 100000000;
    assert Pow10(12) == 1000000000000;
    assert Pow10(16) == 10000000000000000;
  }

  /** Every signed 64-bit integer, every rowid in particular, is well
      inside the digit limit. */
  lemma Int64DigitsFit(n: int)
    requires -0x8000_0000_0000_0000 <= n <= 0x7FFF_FFFF_FFFF_FFFF
    ensures |Digits(if n < 0 then -n else n)| <= 19
    ensures |Str(n)| <= 20 && |Digits(if n < 0 then -n else n)| <= MaxStrDigits
  {
    Pow10Of19();
    DigitsLength(if n < 0 then -n else n, 19);
  }

  /** The number a string of decimal digits denotes. */
  function DigitsValue(s: string): nat
    requires forall i :: 0 <= i < |s| ==> IsDigit(s[i])
  {
    if |s| == 0 then 0 else DigitsValue(s[..|s| - 1]) * 10 + DigitValue(s[|s| - 1])
  }

  function StripLeft(s: string): string {
    if |s| > 0 && IsSpace(s[0]) then StripLeft(s[1..]) else s
  }

  function StripRight(s: string): string {
    if |s| > 0 && IsSpace(s[|s| - 1]) then StripRight(s[..|s| - 1]) else s
  }

  /** Digits, optionally grouped by single underscores: `1_000` but not
      `_1`, `1_` or `1__0`. */
  predicate IsDigitGroup(s: string) {
    && |s| > 0
    && IsDigit(s[0]) && IsDigit(s[|s| - 1])
    && (forall i :: 0 <= i < |s| ==> IsDigit(s[i]) || s[i] == '_')
    && (forall i :: 0 <= i < |s| - 1 ==> s[i] == '_' ==> s[i + 1] != '_')
  }

  function DropUnderscores(s: string): (t: string)
    ensures forall i :: 0 <= i < |t| ==> t[i] != '_'
    ensures (forall i :: 0 <= i < |s| ==> IsDigit(s[i]) || s[i] == '_') ==>
              forall i :: 0 <= i < |t| ==> IsDigit(t[i])
  {
    if |s| == 0 then ""
    else (if s[0] == '_' then "" else [s[0]]) + DropUnderscores(s[1..])
  }

  /** The digits of a number `int()` accepts, if they are within the limit. */
  function GroupValue(body: string): Option<nat>
    requires IsDigitGroup(body)
  {
    var digits := DropUnderscores(body);
    if |digits| > MaxStrDigits then None else Some(DigitsValue(digits))
  }

  /** `int(s)`: `None` where Python raises ValueError. */
  function Parse(s: string): (r: Option<int>)
    ensures |s| == 0 ==> r == None
    ensures 0 < |s| <= MaxStrDigits && (forall i :: 0 <= i < |s| ==> IsDigit(s[i])) ==>
              r == Some(DigitsValue(s))
  {
    if 0 < |s| && (forall i :: 0 <= i < |s| ==> IsDigit(s[i])) then
      PlainDigits(s);
      ParseStripped(StripRight(StripLeft(s)))
    else
      ParseStripped(StripRight(StripLeft(s)))
  }

  /** `int()` once the white space is gone: an optional sign, then a digit
      group within the limit. */
  function ParseStripped(t: string): Option<int> {
    if |t| > 0 && (t[0] == '-' || t[0] == '+') then
      var body := t[1..];
      if IsDigitGroup(body) then
        match GroupValue(body)
        case None => None
        case Some(v) => Some(if t[0] == '-' then -(v as int) else v)
      else None
    else if IsDigitGroup(t) then
      match GroupValue(t)
      case None => None
      case Some(v) => Some(v)
    else None
  }

  /** A plain digit string has no white space to strip and no sign, so
      only the limit decides. */
  lemma PlainDigits(s: string)
    requires 0 < |s| && forall i :: 0 <= i < |s| ==> IsDigit(s[i])
    ensures StripRight(StripLeft(s)) == s
    ensures ParseStripped(s) == if |s| <= MaxStrDigits then Some(DigitsValue(s)) else None
  {
    StripLeftNoSpace(s);
    StripRightNoSpace(s);
    DropUnderscoresOfDigits(s);
  }

  lemma {:induction false} DigitsValueOfDigits(n: nat)
    ensures DigitsValue(Digits(n)) == n
  {
    if n >= 10 {
      var s := Digits(n);
      assert s[..|s| - 1] == Digits(n / 10);
      DigitsValueOfDigits(n / 10);
    }
  }

  lemma {:induction false} DropUnderscoresOfDigits(s: string)
    requires forall i :: 0 <= i < |s| ==> IsDigit(s[i])
    ensures DropUnderscores(s) == s
  {
    if |s| > 0 {
      DropUnderscoresOfDigits(s[1..]);
    }
  }

  lemma StripLeftNoSpace(s: string)
    requires |s| > 0 && !IsSpace(s[0])
    ensures StripLeft(s) == s
  {
  }

  lemma StripRightNoSpace(s: string)
    requires |s| > 0 && !IsSpace(s[|s| - 1])
    ensures StripRight(s) == s
  {
  }

  /** A plain digit string is a digit group worth its digits' value. */
  lemma DigitsGroup(n: nat)
    requires |Digits(n)| <= MaxStrDigits
    ensures IsDigitGroup(Digits(n))
    ensures GroupValue(Digits(n)) == Some(n)
  {
    DigitsValueOfDigits(n);
    DropUnderscoresOfDigits(Digits(n));
  }

  /** `int(str(n)) == n` for every integer within the digit limit. */
  lemma ParseStr(n: int)
    requires |Digits(if n < 0 then -n else n)| <= MaxStrDigits
    ensures Parse(Str(n)) == Some(n)
  {
    var m: nat := if n < 0 then -n else n;
    var d := Digits(m);
    DigitsGroup(m);
    var s := Str(n);
    assert !IsSpace(s[0]) && !IsSpace(s[|s| - 1]);
    StripLeftNoSpace(s);
    StripRightNoSpace(s);
    assert StripRight(StripLeft(s)) == s;
    if n < 0 {
      assert s[1..] == d;
    } else {
      assert s == d && s[0] != '-' && s[0] != '+';
    }
  }

  /** Past the limit `int()` raises even on plain digits. */
  lemma TooManyDigitsRejected(s: string)
    requires |s| > MaxStrDigits && forall i :: 0 <= i < |s| ==> IsDigit(s[i])
    ensures Parse(s) == None
  {
    PlainDigits(s);
  }

  /** The information separators U+001C..U+001F are not white space to
      `int()`, so one before a digit, as in `"\x1c1"`, is refused. */
  lemma SeparatorRejected(c: char)
    requires 28 <= c as int <= 31
    ensures Parse([c, '1']) == None
  {
    var s := [c, '1'];
    assert StripLeft(s) == s;
    assert StripRight(s) == s;
  }

  /** `int()` raises on the empty string and on white space alone. */
  lemma {:induction false} BlankRejected(s: string)
    requires forall i :: 0 <= i < |s| ==> IsSpace(s[i])
    ensures Parse(s) == None
  {
    BlankStrips(s);
  }

  lemma {:induction false} BlankStrips(s: string)
    requires forall i :: 0 <= i < |s| ==> IsSpace(s[i])
    ensures StripLeft(s) == ""
  {
    if |s| > 0 {
      BlankStrips(s[1..]);
    }
  }
}
