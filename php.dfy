/** PHP's scalar conversions that the bot relies on: the `(int)` cast of a
    (possibly absent) message text and the `(string)` cast of an integer. */
module Php {
  import opened Wrappers

  predicate IsDigit(c: char) { '0' <= c <= '9' }

  /** The whitespace PHP skips before a numeric string. */
  predicate IsSpace(c: char) { c == ' ' || c == '\t' || c == '\n' || c == '\r' || c == '\U{000B}' || c == '\U{000C}' }

  predicate AllDigits(s: string) { forall i :: 0 <= i < |s| ==> IsDigit(s[i]) }

  function DigitValue(c: char): nat
    requires IsDigit(c)
  {
    (c as int) - ('0' as int)
  }

  function DigitChar(d: nat): (c: char)
    requires d < 10
    ensures IsDigit(c) && DigitValue(c) == d
  {
    ('0' as int + d) as char
  }

  function SkipSpace(s: string): (t: string)
    ensures |t| <= |s|
    ensures t == [] || !IsSpace(t[0])
  {
    if s != [] && IsSpace(s[0]) then SkipSpace(s[1..]) else s
  }

  /** The longest prefix of `s` made of decimal digits. */
  function DigitPrefix(s: string): (ds: string)
    ensures AllDigits(ds)
    ensures |ds| <= |s|
    ensures |ds| == |s| || !IsDigit(s[|ds|])
  {
    if s != [] && IsDigit(s[0]) then [s[0]] + DigitPrefix(s[1..]) else []
  }

  /** The value of a string of decimal digits, most significant first. */
  function DigitsValue(ds: string): nat
    requires AllDigits(ds)
  {
    if ds == [] then 0 else DigitsValue(ds[..|ds| - 1]) * 10 + DigitValue(ds[|ds| - 1])
  }

  /** PHP's `(int)` of a string: optional leading whitespace, an optional sign
      and the longest digit prefix; text without digits there gives 0. */
  function StringToInt(s: string): (r: int)
    ensures var t := SkipSpace(s);
            var u := if t != [] && (t[0] == '-' || t[0] == '+') then t[1..] else t;
            u == [] || !IsDigit(u[0]) ==> r == 0
    ensures r < 0 ==> SkipSpace(s) != [] && SkipSpace(s)[0] == '-'
  {
    var t := SkipSpace(s);
    if t != [] && (t[0] == '-' || t[0] == '+') then
      var magnitude: int := DigitsValue(DigitPrefix(t[1..]));
      if t[0] == '-' then -magnitude else magnitude
    else
      DigitsValue(DigitPrefix(t))
  }

  /** `(int) $bot->message()?->text`: an absent text (null) casts to 0. */
  function CastToInt(text: Option<string>): int
  {
    match text
    case None => 0
    case Some(s) => StringToInt(s)
  }

  /** Decimal digits of a natural number, with no leading zero. */
  function NatToString(n: nat): (s: string)
    ensures |s| >= 1
    ensures AllDigits(s)
    ensures n >= 10 ==> s[0] != '0'
    ensures |s| == 1 <==> n < 10
  {
    if n < 10 then [DigitChar(n)] else NatToString(n / 10) + [DigitChar(n % 10)]
  }

  /** PHP's `(string)` of an integer. */
  function IntToString(n: int): (r: string)
    ensures n >= 0 ==> |r| >= 1 && AllDigits(r)
    ensures n < 0 ==> |r| >= 2 && r[0] == '-' && AllDigits(r[1..])
  {
    if n < 0 then "-" + NatToString(-n) else NatToString(n)
  }

  lemma {:induction false} DigitsValueOfNatToString(n: nat)
    ensures DigitsValue(NatToString(n)) == n
  {
    var s := NatToString(n);
    if n >= 10 {
      DigitsValueOfNatToString(n / 10);
      assert s[..|s| - 1] == NatToString(n / 10);
    }
  }

  lemma {:induction false} DigitPrefixOfDigits(ds: string, rest: string)
    requires AllDigits(ds)
    requires rest == [] || !IsDigit(rest[0])
    ensures DigitPrefix(ds + rest) == ds
  {
    if ds != [] {
      assert (ds + rest)[1..] == ds[1..] + rest;
      DigitPrefixOfDigits(ds[1..], rest);
    }
  }

  /** Whitespace in front of a string does not change what `(int)` reads. */
  lemma {:induction false} LeadingSpaceIgnored(space: string, s: string)
    requires forall i :: 0 <= i < |space| ==> IsSpace(space[i])
    ensures StringToInt(space + s) == StringToInt(s)
  {
    SkipSpaceOfSpace(space, s);
  }

  lemma {:induction false} SkipSpaceOfSpace(space: string, s: string)
    requires forall i :: 0 <= i < |space| ==> IsSpace(space[i])
    ensures SkipSpace(space + s) == SkipSpace(s)
  {
    if space != [] {
      assert (space + s)[0] == space[0];
      assert (space + s)[1..] == space[1..] + s;
      SkipSpaceOfSpace(space[1..], s);
    } else {
      assert space + s == s;
    }
  }

  /** A zero in front of a digit string does not change its value. */
  lemma {:induction false} LeadingZeroIgnored(ds: string)
    requires AllDigits(ds)
    ensures AllDigits("0" + ds)
    ensures DigitsValue("0" + ds) == DigitsValue(ds)
  {
    var z := "0" + ds;
    if ds != [] {
      assert z[..|z| - 1] == "0" + ds[..|ds| - 1];
      assert z[|z| - 1] == ds[|ds| - 1];
      LeadingZeroIgnored(ds[..|ds| - 1]);
    }
  }

  /** A zero in front of a number does not change what `(int)` reads. */
  lemma ZeroPrefixIgnored(s: string)
    requires s == [] || IsDigit(s[0])
    ensures StringToInt("0" + s) == StringToInt(s)
  {
    var z := "0" + s;
    assert z[0] == '0' && z[1..] == s;
    LeadingZeroIgnored(DigitPrefix(s));
  }

  /** A `+` in front of a number does not change what `(int)` reads. */
  lemma PlusSignIgnored(s: string)
    requires s == [] || IsDigit(s[0])
    ensures StringToInt("+" + s) == StringToInt(s)
  {
    var p := "+" + s;
    assert p[0] == '+' && p[1..] == s;
  }

  /** Reading a digit string followed by text that does not continue it. */
  lemma ReadDigits(digits: string, rest: string)
    requires digits != [] && AllDigits(digits)
    requires rest == [] || !IsDigit(rest[0])
    ensures StringToInt(digits + rest) == DigitsValue(digits)
  {
    var u := digits + rest;
    DigitPrefixOfDigits(digits, rest);
    assert IsDigit(u[0]);
  }

  /** The same, after a minus sign. */
  lemma ReadNegativeDigits(digits: string, rest: string)
    requires digits != [] && AllDigits(digits)
    requires rest == [] || !IsDigit(rest[0])
    ensures StringToInt("-" + digits + rest) == -(DigitsValue(digits) as int)
  {
    var t := "-" + digits + rest;
    AfterSign(digits, rest);
    DigitPrefixOfDigits(digits, rest);
    assert t[0] == '-';
  }

  lemma AfterSign(digits: string, rest: string)
    ensures ("-" + digits + rest)[1..] == digits + rest
  {
  }

  /** `(int)` reads back any integer that `(string)` writes, also when text that
      does not start with a digit follows it. */
  lemma StringToIntOfIntToString(n: int, rest: string)
    requires rest == [] || !IsDigit(rest[0])
    ensures StringToInt(IntToString(n) + rest) == n
  {
    var mag: nat := if n < 0 then -n else n;
    var digits := NatToString(mag);
    DigitsValueOfNatToString(mag);
    if n < 0 {
      ReadNegativeDigits(digits, rest);
    } else {
      ReadDigits(digits, rest);
    }
    assert IntToString(n) == if n < 0 then "-" + digits else digits;
  }
}
