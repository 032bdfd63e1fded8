/**
 * Decimal numerals and the `str.split` of Python, as the bot uses them to
 * write and read its callback data, its times and its dates.
 */
module Text {
  import opened Wrappers

  predicate IsDigit(c: char)
  {
    '0' <= c <= '9'
  }

  predicate AllDigits(s: string)
  {
    forall i :: 0 <= i < |s| ==> IsDigit(s[i])
  }

  function DigitValue(c: char): (d: nat)
    requires IsDigit(c)
    ensures d < 10
  {
    c as int - '0' as int
  }

  function DigitChar(d: nat): (c: char)
    requires d < 10
    ensures IsDigit(c) && DigitValue(c) == d
  {
    ('0' as int + d) as char
  }

  /** The value of a string of decimal digits, read from the left (empty string: 0). */
  function DigitsValue(s: string): nat
    requires AllDigits(s)
  {
    if s == [] then 0 else DigitsValue(s[..|s| - 1]) * 10 + DigitValue(s[|s| - 1])
  }

  /** `str(n)`: the decimal numeral of n without leading zeros. */
  function Decimal(n: nat): (s: string)
    ensures 1 <= |s| && AllDigits(s)
    ensures DigitsValue(s) == n
    ensures |s| == 1 <==> n < 10
    ensures s[0] == '0' <==> n == 0
    decreases n
  {
    if n < 10 then [DigitChar(n)]
    else
      var s := Decimal(n / 10) + [DigitChar(n % 10)];
      assert s[..|s| - 1] == Decimal(n / 10);
      assert s[0] == Decimal(n / 10)[0];
      s
  }

  /** A leading zero does not change the value of a numeral. */
  lemma {:induction false} LeadingZero(s: string)
    requires AllDigits(s)
    ensures AllDigits("0" + s) && DigitsValue("0" + s) == DigitsValue(s)
  {
    if s != [] {
      var t := "0" + s;
      assert t[..|t| - 1] == "0" + s[..|s| - 1];
      LeadingZero(s[..|s| - 1]);
    }
  }

  /** `f"{n:02d}"`: the numeral of n padded with zeros to at least two digits. */
  function Pad2(n: nat): (s: string)
    ensures 2 <= |s| && AllDigits(s)
    ensures DigitsValue(s) == n
    ensures n < 100 <==> |s| == 2
    ensures s[0] == '0' <==> n < 10
  {
    if n < 10 then
      LeadingZero(Decimal(n));
      "0" + Decimal(n)
    else
      assert n / 10 >= 1;
      Decimal(n)
  }

  /** Every two-digit numeral is the padded numeral of its own value. */
  lemma TwoDigits(s: string)
    requires |s| == 2 && AllDigits(s)
    ensures Pad2(DigitsValue(s)) == s
  {
    assert s[..1] == [s[0]] && s[..1][..0] == [];
    assert DigitsValue(s[..1]) == DigitValue(s[0]);
    var n := DigitsValue(s);
    assert n == DigitValue(s[0]) * 10 + DigitValue(s[1]);
    if DigitValue(s[0]) == 0 {
      assert n == DigitValue(s[1]);
    } else {
      assert n / 10 == DigitValue(s[0]) && n % 10 == DigitValue(s[1]);
    }
  }

  /** A non-empty string of decimal digits: a numeral `int()` reads. */
  predicate IsNumeral(s: string)
  {
    1 <= |s| && AllDigits(s)
  }

  /** `int(s)` for a plain decimal numeral; anything else makes Python raise. */
  function ParseNat(s: string): (r: Option<nat>)
    ensures r.Some? <==> IsNumeral(s)
  {
    if IsNumeral(s) then Some(DigitsValue(s)) else None
  }

  /** `str.split(sep)`: the pieces between the separators, in order. */
  function Split(s: string, sep: char): (parts: seq<string>)
    ensures 1 <= |parts|
    ensures forall i :: 0 <= i < |parts| ==> sep !in parts[i]
    ensures Join(parts, sep) == s
    decreases |s|
  {
    if s == [] then [""]
    else
      var rest := Split(s[1..], sep);
      if s[0] == sep then
        assert ([""] + rest)[1..] == rest;
        [""] + rest
      else
        var parts := [[s[0]] + rest[0]] + rest[1..];
        assert parts[1..] == rest[1..];
        assert |rest| > 1 ==> Join(rest, sep) == rest[0] + [sep] + Join(rest[1..], sep);
        parts
  }

  /** `sep.join(parts)`, the inverse of Split. */
  function Join(parts: seq<string>, sep: char): string
    requires 1 <= |parts|
    decreases |parts|
  {
    if |parts| == 1 then parts[0] else parts[0] + [sep] + Join(parts[1..], sep)
  }

  /** The piece at `index` of `s.split(sep)`; None where Python raises IndexError. */
  function Field(s: string, sep: char, index: nat): (r: Option<string>)
    ensures r.Some? <==> index < |Split(s, sep)|
    ensures r.Some? ==> r.value == Split(s, sep)[index] && sep !in r.value
  {
    var parts := Split(s, sep);
    if index < |parts| then Some(parts[index]) else None
  }

  lemma {:induction false} SplitNoSeparator(p: string, sep: char)
    requires sep !in p
    ensures Split(p, sep) == [p]
    decreases |p|
  {
    if p != [] {
      SplitNoSeparator(p[1..], sep);
      assert [p[0]] + p[1..] == p;
    }
  }

  lemma {:induction false} SplitFirst(p: string, sep: char, rest: string)
    requires sep !in p
    ensures Split(p + [sep] + rest, sep) == [p] + Split(rest, sep)
    decreases |p|
  {
    var s := p + [sep] + rest;
    if p == [] {
      assert s[1..] == rest;
    } else {
      assert s[1..] == p[1..] + [sep] + rest;
      SplitFirst(p[1..], sep, rest);
      assert [p[0]] + p[1..] == p;
    }
  }

  /** Splitting a join of separator-free pieces gives the pieces back. */
  lemma {:induction false} SplitJoin(parts: seq<string>, sep: char)
    requires 1 <= |parts|
    requires forall i :: 0 <= i < |parts| ==> sep !in parts[i]
    ensures Split(Join(parts, sep), sep) == parts
    decreases |parts|
  {
    if |parts| == 1 {
      SplitNoSeparator(parts[0], sep);
    } else {
      SplitJoin(parts[1..], sep);
      SplitFirst(parts[0], sep, Join(parts[1..], sep));
    }
  }

  lemma DigitsHaveNoSeparator(s: string, sep: char)
    requires AllDigits(s) && !IsDigit(sep)
    ensures sep !in s
  {
  }

  /** Splitting two separator-free pieces joined by the separator. */
  lemma SplitTwo(a: string, b: string, sep: char)
    requires sep !in a && sep !in b
    ensures Split(a + [sep] + b, sep) == [a, b]
  {
    SplitFirst(a, sep, b);
    SplitNoSeparator(b, sep);
  }

  /** Splitting three separator-free pieces joined by the separator. */
  lemma SplitThree(a: string, b: string, c: string, sep: char)
    requires sep !in a && sep !in b && sep !in c
    ensures Split(a + [sep] + (b + [sep] + c), sep) == [a, b, c]
  {
    SplitFirst(a, sep, b + [sep] + c);
    SplitTwo(b, c, sep);
    assert [a] + [b, c] == [a, b, c];
  }

  /** The second field of `tag + sep + value` is `value` when neither holds the separator. */
  lemma FieldOfTagged(tag: string, value: string, sep: char)
    requires sep !in tag && sep !in value
    ensures Field(tag + [sep] + value, sep, 1) == Some(value)
  {
    SplitTwo(tag, value, sep);
  }
}
