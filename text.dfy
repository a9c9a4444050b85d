/**
 * The string formatting the report uses: Python's `str` on an integer, the
 * "{count}x {type}" label and `str.join`, each with the parser that undoes it.
 */
module Text {
  import opened Wrappers

  predicate IsDigit(c: char) { '0' <= c <= '9' }

  function DigitChar(d: nat): (c: char)
    requires d < 10
    ensures IsDigit(c)
  {
    ('0' as int + d) as char
  }

  function DigitValue(c: char): (d: nat)
    requires IsDigit(c)
    ensures d < 10 && DigitChar(d) == c
  {
    c as int - '0' as int
  }

  /** Decimal digits of `n`, most significant first, without leading zeros. */
  function NatToString(n: nat): (s: string)
    ensures |s| > 0 && forall i :: 0 <= i < |s| ==> IsDigit(s[i])
    ensures n < 10 <==> |s| == 1
    ensures s[0] == '0' <==> n == 0
  {
    if n < 10 then [DigitChar(n)] else NatToString(n / 10) + [DigitChar(n % 10)]
  }

  /** `str(n)` for a Python int: a minus sign for negatives, then the digits. */
  function IntToString(n: int): (s: string)
    ensures |s| > 0 && forall i :: 0 <= i < |s| ==> IsDigit(s[i]) || s[i] == '-'
    ensures s[0] == '-' <==> n < 0
    ensures n < 0 ==> |s| > 1 && s[1] != '0'
    ensures n >= 0 ==> (s[0] == '0' <==> n == 0)
  {
    if n < 0 then "-" + NatToString(-n) else NatToString(n)
  }

  /** The value of a string of decimal digits. */
  function DigitsValue(s: string): nat
    requires forall i :: 0 <= i < |s| ==> IsDigit(s[i])
  {
    if |s| == 0 then 0 else DigitsValue(s[..|s| - 1]) * 10 + DigitValue(s[|s| - 1])
  }

  /** Decimal digits written the way `NatToString` writes them: no leading zero unless the number is 0. */
  predicate Canonical(s: string)
  {
    |s| > 0 && (|s| == 1 || s[0] != '0') && forall i :: 0 <= i < |s| ==> IsDigit(s[i])
  }

  function ParseNat(s: string): Option<nat>
  {
    if Canonical(s) then Some(DigitsValue(s)) else None
  }

  /** Reads back what `IntToString` writes: an optional minus sign and digits, and no "-0". */
  function ParseInt(s: string): Option<int>
  {
    if |s| > 0 && s[0] == '-' then
      if |s| > 1 && s[1] == '0' then None
      else match ParseNat(s[1..])
      case Some(n) => Some(-(n as int))
      case None => None
    else
      match ParseNat(s)
      case Some(n) => Some(n)
      case None => None
  }

  lemma {:induction false} DigitsOfNat(n: nat)
    ensures DigitsValue(NatToString(n)) == n
  {
    var s := NatToString(n);
    if n >= 10 {
      assert s[..|s| - 1] == NatToString(n / 10);
      DigitsOfNat(n / 10);
    }
  }

  /** `IntToString` loses nothing: every integer is read back from its decimal form. */
  lemma IntToStringRoundTrip(n: int)
    ensures ParseInt(IntToString(n)) == Some(n)
  {
    if n < 0 {
      assert IntToString(n)[1..] == NatToString(-n);
      DigitsOfNat(-n);
    } else {
      DigitsOfNat(n);
    }
  }

  /** Canonical digits that start with a non-zero digit stand for a positive number. */
  lemma {:induction false} CanonicalPositive(s: string)
    requires Canonical(s) && s[0] != '0'
    ensures DigitsValue(s) >= 1
  {
    if |s| > 1 {
      assert s[..|s| - 1][0] == s[0];
      CanonicalPositive(s[..|s| - 1]);
    }
  }

  /** Canonical digits are exactly what `NatToString` writes for their value. */
  lemma {:induction false} CanonicalDigits(s: string)
    requires Canonical(s)
    ensures NatToString(DigitsValue(s)) == s
  {
    if |s| > 1 {
      var init := s[..|s| - 1];
      assert init[0] == s[0];
      CanonicalPositive(init);
      CanonicalDigits(init);
      assert s == init + [s[|s| - 1]];
    }
  }

  /** `ParseInt` accepts only the text `IntToString` writes: the decimal form of a number is unique. */
  lemma ParseIntExact(s: string, n: int)
    requires ParseInt(s) == Some(n)
    ensures s == IntToString(n)
  {
    if |s| > 0 && s[0] == '-' {
      CanonicalPositive(s[1..]);
      CanonicalDigits(s[1..]);
      assert s == "-" + s[1..];
    } else {
      CanonicalDigits(s);
    }
  }

  /** Position of the first `c` in `s`, if any. */
  function IndexOf(s: string, c: char): (k: Option<nat>)
    ensures k.None? ==> c !in s
    ensures k.Some? ==> k.value < |s| && s[k.value] == c && c !in s[..k.value]
  {
    if |s| == 0 then None
    else if s[0] == c then Some(0)
    else match IndexOf(s[1..], c)
      case None => None
      case Some(k) => (assert s[..k + 1] == [s[0]] + s[1..][..k]; Some(k + 1))
  }

  lemma IndexOfAfter(a: string, c: char, b: string)
    requires c !in a
    ensures IndexOf(a + [c] + b, c) == Some(|a|)
  {
    var s := a + [c] + b;
    assert s[|a|] == c;
  }

  /** The "{count}x {type}" label of a pool or a group of instances. */
  function CountedLabel(count: int, name: string): (shown: string)
    ensures ',' !in name ==> ',' !in shown
  {
    IntToString(count) + "x " + name
  }

  /** Reads a "{count}x {type}" label back into its count and type. */
  function ParseCountedLabel(s: string): Option<(int, string)>
  {
    match IndexOf(s, 'x')
    case None => None
    case Some(k) =>
      if k + 1 < |s| && s[k + 1] == ' ' then
        match ParseInt(s[..k])
        case Some(n) => Some((n, s[k + 2..]))
        case None => None
      else None
  }

  lemma CountedLabelRoundTrip(count: int, name: string)
    ensures ParseCountedLabel(CountedLabel(count, name)) == Some((count, name))
  {
    var digits := IntToString(count);
    var shown := CountedLabel(count, name);
    assert shown == digits + ['x'] + ([' '] + name);
    IndexOfAfter(digits, 'x', [' '] + name);
    assert shown[..|digits|] == digits;
    assert shown[|digits| + 2..] == name;
    IntToStringRoundTrip(count);
  }

  /** `ParseCountedLabel` accepts only the text `CountedLabel` writes: a count and a type pin the label. */
  lemma CountedLabelExact(s: string, count: int, name: string)
    requires ParseCountedLabel(s) == Some((count, name))
    ensures s == CountedLabel(count, name)
  {
    var k := IndexOf(s, 'x').value;
    ParseIntExact(s[..k], count);
    assert s == s[..k] + "x " + s[k + 2..];
  }

  /** `sep.join(parts)`. */
  function Join(parts: seq<string>, sep: string): (s: string)
    ensures |parts| > 0 ==> parts[0] <= s
  {
    if |parts| == 0 then ""
    else if |parts| == 1 then parts[0]
    else parts[0] + sep + Join(parts[1..], sep)
  }
}
