/** The C library number conversions the configuration reader and the loader
    rely on: `strtol` with base 0 (as the offset parser) and `"%zu"` rendering
    (as the offset argument handed to the bootloader), with the integer widths
    of the 32-bit ARM9 target: `long` and `size_t` are 32 bits wide. */
module CNumbers {
  import opened JsonTokens

  const LongMin: int := -0x8000_0000
  const LongMax: int := 0x7FFF_FFFF

  /** `size_t` on the target. */
  type SizeT = x: int | 0 <= x < 0x1_0000_0000

  /** `isspace` in the C locale. */
  predicate IsSpace(c: char)
  {
    c == ' ' || '\t' <= c <= '\r'
  }

  /** The value of a digit in bases up to 36; 36 for a character that is no
      digit in any base. */
  function DigitValue(c: char): (d: nat)
    ensures d <= 36
    ensures d < 10 <==> '0' <= c <= '9'
  {
    if '0' <= c <= '9' then c as int - '0' as int
    else if 'a' <= c <= 'z' then c as int - 'a' as int + 10
    else if 'A' <= c <= 'Z' then c as int - 'A' as int + 10
    else 36
  }

  /** The first index at or after p that holds no white space. */
  function SkipSpace(json: string, p: nat): (q: nat)
    requires p <= |json|
    ensures p <= q <= |json|
    ensures q == |json| || !IsSpace(json[q])
    decreases |json| - p
  {
    if p < |json| && IsSpace(json[p]) then SkipSpace(json, p + 1) else p
  }

  /** The digit loop of `strtol`: reads base-`base` digits from p on, most
      significant first, accumulating into `acc`; the value and the index of
      the first character that is no such digit. */
  function Digits(json: string, p: nat, base: nat, acc: nat): (r: (nat, nat))
    requires p <= |json|
    ensures p <= r.1 <= |json|
    ensures r.1 > p ==> DigitValue(json[r.1 - 1]) < base
    ensures r.1 == |json| || DigitValue(json[r.1]) >= base
    ensures r.1 == p ==> r.0 == acc
    decreases |json| - p
  {
    if p < |json| && DigitValue(json[p]) < base then Digits(json, p + 1, base, acc * base + DigitValue(json[p]))
    else (acc, p)
  }

  /** Every character SkipSpace passes over is white space. */
  lemma {:induction false} SkipSpaceSkips(json: string, p: nat)
    requires p <= |json|
    ensures forall k :: p <= k < SkipSpace(json, p) ==> IsSpace(json[k])
    decreases |json| - p
  {
    if p < |json| && IsSpace(json[p]) {
      SkipSpaceSkips(json, p + 1);
    }
  }

  /** `base` to the power k. */
  function Power(base: nat, k: nat): nat
  {
    if k == 0 then 1 else base * Power(base, k - 1)
  }

  /** The positional value of a run of digits, most significant first: the
      sum of each digit times `base` to the number of digits after it. */
  function RunValue(s: seq<char>, base: nat): nat
  {
    if s == [] then 0 else DigitValue(s[0]) * Power(base, |s| - 1) + RunValue(s[1..], base)
  }

  /** Every character the digit loop reads is a digit of the base. */
  lemma {:induction false} DigitsRead(json: string, p: nat, base: nat, acc: nat)
    requires p <= |json|
    ensures forall k :: p <= k < Digits(json, p, base, acc).1 ==> DigitValue(json[k]) < base
    decreases |json| - p
  {
    if p < |json| && DigitValue(json[p]) < base {
      DigitsRead(json, p + 1, base, acc * base + DigitValue(json[p]));
    }
  }

  /** The value the digit loop accumulates is `acc` shifted left by the
      number of digits read plus the positional value of those digits. */
  lemma {:induction false} DigitsValue(json: string, p: nat, base: nat, acc: nat)
    requires p <= |json|
    ensures Digits(json, p, base, acc).0
         == acc * Power(base, Digits(json, p, base, acc).1 - p) + RunValue(json[p..Digits(json, p, base, acc).1], base)
    decreases |json| - p
  {
    var r := Digits(json, p, base, acc);
    if p < |json| && DigitValue(json[p]) < base {
      var d := DigitValue(json[p]);
      assert r == Digits(json, p + 1, base, acc * base + d);
      DigitsValue(json, p + 1, base, acc * base + d);
      RunValueHead(json, p, r.1, base);
      ShiftDigit(acc, base, d, Power(base, r.1 - p - 1), r.0, RunValue(json[p + 1..r.1], base));
    } else {
      assert json[p..r.1] == [];
    }
  }

  /** Splitting the leading digit off a run of digits in `json`. */
  lemma RunValueHead(json: string, p: nat, q: nat, base: nat)
    requires p < q <= |json|
    ensures RunValue(json[p..q], base) == DigitValue(json[p]) * Power(base, q - p - 1) + RunValue(json[p + 1..q], base)
  {
    assert json[p..q][0] == json[p] && json[p..q][1..] == json[p + 1..q];
  }

  /** Appending digit d to `acc` and then x more places: the value is `acc`
      shifted by one place more than x, plus d shifted by x. */
  lemma ShiftDigit(acc: nat, base: nat, d: nat, x: nat, value: nat, rest: nat)
    requires value == (acc * base + d) * x + rest
    ensures value == acc * (base * x) + (d * x + rest)
  {
    calc {
      (acc * base + d) * x;
      acc * base * x + d * x;
      acc * (base * x) + d * x;
    }
  }

  function Signed(negative: bool, magnitude: nat): int
  {
    if negative then -(magnitude as int) else magnitude
  }

  /** `strtol(&json[p], &end, 0)` as the mathematical value of the subject
      sequence and the index `end` points at: leading white space, an optional
      sign, then a hexadecimal ("0x"/"0X" and at least one hex digit), octal
      (a leading "0") or decimal constant, read as far as digits go. With no
      digits there is no conversion: the value is 0 and `end` is p itself. */
  function StrToL(json: string, p: nat): (r: (int, nat))
    requires p <= |json|
    ensures p <= r.1 <= |json|
    ensures r.1 == p ==> r.0 == 0
    ensures r.1 > p ==> DigitValue(json[r.1 - 1]) < 16
  {
    var q := SkipSpace(json, p);
    var negative := CharAt(json, q) == '-';
    var s := if CharAt(json, q) == '-' || CharAt(json, q) == '+' then q + 1 else q;
    if CharAt(json, s) == '0' && (CharAt(json, s + 1) == 'x' || CharAt(json, s + 1) == 'X')
       && DigitValue(CharAt(json, s + 2)) < 16
    then
      var digits := Digits(json, s + 2, 16, 0);
      (Signed(negative, digits.0), digits.1)
    else if DigitValue(CharAt(json, s)) < 10 then
      var digits := Digits(json, s, if CharAt(json, s) == '0' then 8 else 10, 0);
      (Signed(negative, digits.0), digits.1)
    else
      (0, p)
  }

  /** The `long` strtol returns: out-of-range values saturate (C11 7.22.1.4). */
  function LongOf(v: int): (r: int)
    ensures LongMin <= r <= LongMax
    ensures LongMin <= v <= LongMax ==> r == v
    ensures v > LongMax ==> r == LongMax
    ensures v < LongMin ==> r == LongMin
  {
    if v > LongMax then LongMax else if v < LongMin then LongMin else v
  }

  /** `(size_t)` of a `long`: reduction modulo 2^32 (C11 6.3.1.3). */
  function SizeTOfLong(v: int): (r: SizeT)
    requires LongMin <= v <= LongMax
    ensures 0 <= v ==> r == v
    ensures v < 0 ==> r == v + 0x1_0000_0000
  {
    v % 0x1_0000_0000
  }

  /** A hexadecimal offset is read whole: "0x1A" is 26 and ends at the end. */
  lemma StrToLHex()
    ensures StrToL("0x1A", 0) == (26, 4)
  {
    var json := "0x1A";
    assert SkipSpace(json, 0) == 0;
    assert Digits(json, 4, 16, 26) == (26, 4);
    assert Digits(json, 2, 16, 0) == (26, 4);
  }

  /** Trailing letters stop the conversion: "12abc" gives 12 and ends after "12". */
  lemma StrToLTrailing()
    ensures StrToL("12abc", 0) == (12, 2)
  {
    var json := "12abc";
    assert SkipSpace(json, 0) == 0;
    assert Digits(json, 2, 10, 12) == (12, 2);
    assert Digits(json, 0, 10, 0) == (12, 2);
  }

  /** A leading 0 selects octal: "017" is 15. */
  lemma StrToLOctal()
    ensures StrToL("017", 0) == (15, 3)
  {
    var json := "017";
    assert SkipSpace(json, 0) == 0;
    assert Digits(json, 3, 8, 15) == (15, 3);
    assert Digits(json, 0, 8, 0) == (15, 3);
  }

  /** "0x" without a hex digit after it is the octal constant 0 followed by
      the letter x. */
  lemma StrToLBareHexPrefix()
    ensures StrToL("0x", 0) == (0, 1)
  {
    var json := "0x";
    assert SkipSpace(json, 0) == 0;
    assert Digits(json, 1, 8, 0) == (0, 1);
  }

  /** With no digit there is no conversion: the value is 0 and the end is the start. */
  lemma StrToLNoDigits()
    ensures StrToL("abc", 0) == (0, 0)
    ensures StrToL("-", 0) == (0, 0)
  {
    assert SkipSpace("abc", 0) == 0;
    assert SkipSpace("-", 0) == 0;
  }

  /** `"%zu"`: the decimal digits of n, without leading zeros. */
  function DecimalString(n: nat): (s: string)
    ensures |s| >= 1
    ensures forall k :: 0 <= k < |s| ==> '0' <= s[k] <= '9'
    decreases n
  {
    var digit := ('0' as int + n % 10) as char;
    if n < 10 then [digit] else DecimalString(n / 10) + [digit]
  }

  function Pow10(k: nat): (r: nat)
    ensures r >= 1
  {
    if k == 0 then 1 else 10 * Pow10(k - 1)
  }

  /** A number below 10^k has at most k decimal digits. */
  lemma {:induction false} DecimalLength(n: nat, k: nat)
    requires 1 <= k && n < Pow10(k)
    ensures |DecimalString(n)| <= k
  {
    if n >= 10 {
      assert n / 10 < Pow10(k - 1);
      DecimalLength(n / 10, k - 1);
    }
  }

  /** Every `size_t` renders in at most ten characters. */
  lemma SizeTDecimalLength(n: SizeT)
    ensures |DecimalString(n)| <= 10
  {
    assert Pow10(10) == 10_000_000_000;
    DecimalLength(n, 10);
  }
}
