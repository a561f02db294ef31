/** The slice of JavaScript value semantics the console relies on: numbers that
    may be NaN, `toString` of a number, `Number(s)`, `parseInt(s)`, strict
    equality and the truthiness of a string read from storage. */
module Js {

  datatype Option<+T> = None | Some(value: T)

  /** A JavaScript number as the console meets it: an integer, or NaN. */
  datatype Num = Int(value: int) | NaN

  /** `a === b` on numbers: NaN is equal to nothing, not even itself. */
  function StrictEquals(a: Num, b: Num): (eq: bool)
    ensures eq <==> a == b && !a.NaN?
  {
    a.Int? && b.Int? && a.value == b.value
  }

  /** Truthiness of `localStorage.getItem(k)` or of a route parameter:
      `null`/`undefined` and the empty string are falsy. */
  function Truthy(v: Option<string>): (t: bool)
    ensures t <==> v != None && v != Some("")
  {
    v.Some? && v.value != ""
  }

  predicate IsDigit(c: char)
  {
    '0' <= c <= '9'
  }

  predicate AllDigits(s: string)
  {
    forall i :: 0 <= i < |s| ==> IsDigit(s[i])
  }

  function DigitChar(d: nat): (c: char)
    requires d < 10
    ensures IsDigit(c) && DigitValue(c) == d
  {
    ('0' as int + d) as char
  }

  function DigitValue(c: char): nat
    requires IsDigit(c)
  {
    c as int - '0' as int
  }

  /** The value of a string of decimal digits, most significant first. */
  function DigitsValue(s: string): nat
    requires AllDigits(s)
  {
    if s == [] then 0 else 10 * DigitsValue(s[..|s| - 1]) + DigitValue(s[|s| - 1])
  }

  /** Decimal text of a natural number: at least one digit, no leading zero. */
  function NatToDecimal(n: nat): (s: string)
    ensures 1 <= |s| && AllDigits(s)
    ensures s[0] == '0' <==> n == 0
    ensures n == 0 ==> s == "0"
  {
    if n < 10 then [DigitChar(n)] else NatToDecimal(n / 10) + [DigitChar(n % 10)]
  }

  /** `String(i)` for an integer: a minus sign before the digits of a negative.
      The text starts with `-` exactly for a negative, and the digits read
      back as the magnitude. */
  function IntToDecimal(i: int): (s: string)
    ensures 1 <= |s|
    ensures s[0] == '-' <==> i < 0
    ensures i >= 0 ==> AllDigits(s) && DigitsValue(s) == i
    ensures i < 0 ==> AllDigits(s[1..]) && DigitsValue(s[1..]) == -i
  {
    if i < 0 then
      var d := NatToDecimal(-i);
      DigitsValueOfDecimal(-i);
      assert ("-" + d)[1..] == d;
      "-" + d
    else
      DigitsValueOfDecimal(i);
      NatToDecimal(i)
  }

  /** `n.toString()` / template-literal interpolation of a number. */
  function NumToString(n: Num): (s: string)
    ensures 1 <= |s|
    ensures s[0] == '-' <==> n.Int? && n.value < 0
    ensures s == "NaN" <==> n.NaN?
  {
    match n
    case Int(i) => IntToDecimal(i)
    case NaN => "NaN"
  }

  /** Splits an optional leading sign off: (negative?, rest). */
  function SplitSign(s: string): (bool, string)
  {
    if |s| > 0 && s[0] == '-' then (true, s[1..])
    else if |s| > 0 && s[0] == '+' then (false, s[1..])
    else (false, s)
  }

  function Signed(negative: bool, magnitude: nat): int
  {
    if negative then -(magnitude as int) else magnitude
  }

  /** `Number(s)` for the strings the console produces: the empty string is 0,
      an optional sign followed by one or more digits is that integer, and any
      other text is NaN. */
  function StringToNumber(s: string): (n: Num)
    ensures s == "" ==> n == Int(0)
    ensures s != "" && AllDigits(s) ==> n == Int(DigitsValue(s))
    ensures s != "" && !IsDigit(s[0]) && s[0] != '-' && s[0] != '+' ==> n.NaN?
  {
    if s == "" then Int(0)
    else
      var (negative, rest) := SplitSign(s);
      if rest != [] && AllDigits(rest) then Int(Signed(negative, DigitsValue(rest))) else NaN
  }

  /** Length of the longest all-digit prefix of `s`. */
  function DigitPrefixLength(s: string): (k: nat)
    ensures k <= |s| && AllDigits(s[..k])
    ensures k < |s| ==> !IsDigit(s[k])
  {
    if s == [] || !IsDigit(s[0]) then 0
    else
      var k' := DigitPrefixLength(s[1..]);
      assert s[..k' + 1] == [s[0]] + s[1..][..k'];
      k' + 1
  }

  /** `parseInt(s)` with no radix: an optional sign, then the longest run of
      digits; whatever follows is ignored, and no digits at all gives NaN. */
  function ParseInt(s: string): (n: Num)
    ensures s == "" ==> n.NaN?
    ensures s != "" && IsDigit(s[0]) ==> n.Int? && n.value >= 0
    ensures s != "" && !IsDigit(s[0]) && s[0] != '-' && s[0] != '+' ==> n.NaN?
  {
    var (negative, rest) := SplitSign(s);
    var k := DigitPrefixLength(rest);
    if k == 0 then NaN else Int(Signed(negative, DigitsValue(rest[..k])))
  }

  // ---------------------------------------------------------------------------
  // Round trips between numbers and their decimal text

  /** Reading back the decimal text of `n` gives `n`. */
  lemma {:induction false} DigitsValueOfDecimal(n: nat)
    ensures DigitsValue(NatToDecimal(n)) == n
  {
    if n >= 10 {
      var s := NatToDecimal(n);
      var prefix := NatToDecimal(n / 10);
      assert s[..|s| - 1] == prefix;
      DigitsValueOfDecimal(n / 10);
    }
  }

  /** Two integers print the same exactly when they are equal. */
  lemma IntToDecimalInjective(i: int, j: int)
    requires IntToDecimal(i) == IntToDecimal(j)
    ensures i == j
  {
    if i < 0 {
      var s := IntToDecimal(i);
      assert NatToDecimal(-i) == s[1..] == NatToDecimal(-j);
      DigitsValueOfDecimal(-i);
      DigitsValueOfDecimal(-j);
    } else {
      DigitsValueOfDecimal(i);
      DigitsValueOfDecimal(j);
    }
  }

  /** Two numbers print the same exactly when they are the same number. */
  lemma NumToStringInjective(a: Num, b: Num)
    ensures NumToString(a) == NumToString(b) <==> a == b
  {
    if NumToString(a) == NumToString(b) {
      // only NaN prints as "NaN"
      if a.Int? && b.Int? {
        IntToDecimalInjective(a.value, b.value);
      }
    }
  }

  /** `Number(n.toString())` gives back `n`, NaN included. */
  lemma NumberOfToString(n: Num)
    ensures StringToNumber(NumToString(n)) == n
  {
    match n
    case NaN =>
      assert SplitSign("NaN") == (false, "NaN");
      assert !IsDigit("NaN"[0]);
    case Int(i) =>
      var s := NumToString(n);
      if i < 0 {
        assert SplitSign(s) == (true, NatToDecimal(-i));
        DigitsValueOfDecimal(-i);
      } else {
        assert SplitSign(s) == (false, NatToDecimal(i));
        DigitsValueOfDecimal(i);
      }
  }

  /** `Number(n.toString())` gives back `n` for every number at once. */
  lemma NumberOfEveryToString()
    ensures forall n :: StringToNumber(NumToString(n)) == n
  {
    forall n {
      NumberOfToString(n);
    }
  }

  /** The all-digit prefix of digits followed by a non-digit is those digits. */
  lemma {:induction false} DigitPrefixOfDigits(d: string, junk: string)
    requires AllDigits(d)
    requires junk == [] || !IsDigit(junk[0])
    ensures DigitPrefixLength(d + junk) == |d|
  {
    if d != [] {
      assert (d + junk)[1..] == d[1..] + junk;
      DigitPrefixOfDigits(d[1..], junk);
    }
  }

  /** `parseInt` reads back the decimal text of an integer and ignores any
      trailing text that does not start with a digit. */
  lemma ParseIntOfDecimal(i: int, junk: string)
    requires junk == [] || !IsDigit(junk[0])
    ensures ParseInt(IntToDecimal(i) + junk) == Int(i)
  {
    var m: nat := if i < 0 then -i else i;
    var d := NatToDecimal(m);
    var rest := d + junk;
    assert SplitSign(IntToDecimal(i) + junk) == (i < 0, rest) by {
      if i < 0 {
        assert IntToDecimal(i) + junk == "-" + rest;
      } else {
        assert IntToDecimal(i) + junk == rest;
        assert IsDigit(rest[0]);
      }
    }
    DigitPrefixOfDigits(d, junk);
    assert rest[..|d|] == d;
    DigitsValueOfDecimal(m);
    assert Signed(i < 0, DigitsValue(rest[..|d|])) == i;
  }
}
