/** Models of the few pieces of Python's string handling the integration
    relies on: str() of an int, int() of a string, str.split, str.join,
    str.strip and the f"{z:02d}" format. */
module Text {
  import opened Wrappers

  newtype byte = x: int | 0 <= x < 256

  predicate IsDigit(c: char) { '0' <= c <= '9' }

  predicate AllDigits(s: string) { forall i :: 0 <= i < |s| ==> IsDigit(s[i]) }

  function DigitValue(c: char): (d: nat)
    requires IsDigit(c)
    ensures d < 10
  {
    (c as int) - ('0' as int)
  }

  function DigitChar(d: nat): (c: char)
    requires d < 10
    ensures IsDigit(c) && DigitValue(c) == d
  {
    (('0' as int) + d) as char
  }

  // ---------------------------------------------------------------- str(int)

  /** The model of str() on a non-negative int: decimal digits, no leading
      zero, and no bound on the number of digits. */
  function NatToString(n: nat): (s: string)
    ensures |s| >= 1 && AllDigits(s)
    ensures s[0] == '0' <==> n == 0
  {
    if n < 10 then [DigitChar(n)] else NatToString(n / 10) + [DigitChar(n % 10)]
  }

  /** The model of str() on any int. */
  function IntToString(i: int): (s: string)
    ensures |s| >= 1
  {
    if i < 0 then "-" + NatToString(-i) else NatToString(i)
  }

  /** Python's f"{z:02d}": at least two characters, zero-filled after the sign. */
  function ZeroPad2(z: int): string
  {
    if 0 <= z < 10 then "0" + IntToString(z) else IntToString(z)
  }

  // ---------------------------------------------------------------- int(str)

  /** The number a non-empty run of decimal digits denotes. */
  function DigitsValue(s: string): nat
    requires AllDigits(s)
  {
    if s == [] then 0 else 10 * DigitsValue(s[..|s| - 1]) + DigitValue(s[|s| - 1])
  }

  /** The model of int() on a string: an optional sign followed by one or
      more ASCII digits gives its value, every other string gives None. */
  function ParseInt(s: string): Option<int>
  {
    if |s| >= 2 && (s[0] == '-' || s[0] == '+') && AllDigits(s[1..]) then
      var magnitude: int := DigitsValue(s[1..]);
      Some(if s[0] == '-' then -magnitude else magnitude)
    else if |s| >= 1 && AllDigits(s) then
      Some(DigitsValue(s))
    else
      None
  }

  lemma ParseIntOneDigit(a: char)
    requires IsDigit(a)
    ensures ParseInt([a]) == Some(DigitValue(a))
  {
    assert [a][..0] == [];
    assert AllDigits([a]);
    assert DigitsValue([a]) == 10 * DigitsValue([]) + DigitValue(a);
  }

  lemma ParseIntTwoDigits(a: char, b: char)
    requires IsDigit(a) && IsDigit(b)
    ensures ParseInt([a, b]) == Some(10 * DigitValue(a) + DigitValue(b))
  {
    assert [a, b][..1] == [a];
    assert AllDigits([a, b]);
    ParseIntOneDigit(a);
    assert DigitsValue([a, b]) == 10 * DigitsValue([a]) + DigitValue(b);
  }

  lemma {:induction false} NatToStringValue(n: nat)
    ensures DigitsValue(NatToString(n)) == n
  {
    if n >= 10 {
      var s := NatToString(n);
      NatToStringValue(n / 10);
      assert s[..|s| - 1] == NatToString(n / 10);
    }
  }

  lemma ParseIntNat(n: nat)
    ensures ParseInt(NatToString(n)) == Some(n)
  {
    var s := NatToString(n);
    NatToStringValue(n);
    assert IsDigit(s[0]);
  }

  lemma ParseIntNeg(n: nat)
    ensures ParseInt("-" + NatToString(n)) == Some(-(n as int))
  {
    var s := "-" + NatToString(n);
    assert s[1..] == NatToString(n);
    NatToStringValue(n);
  }

  /** The parser reads back what the renderer writes, for every int. */
  lemma ParseIntShow(i: int)
    ensures ParseInt(IntToString(i)) == Some(i)
  {
    if i < 0 {
      ParseIntNeg(-i);
    } else {
      ParseIntNat(i);
    }
  }

  /** Distinct ints render as distinct strings. */
  lemma IntToStringInjective(a: int, b: int)
    ensures IntToString(a) == IntToString(b) ==> a == b
  {
    ParseIntShow(a);
    ParseIntShow(b);
  }

  /** ParseInt rejects any string holding a character that is neither a
      digit nor a leading sign. */
  lemma ParseIntRejects(s: string, k: nat)
    requires k < |s| && !IsDigit(s[k]) && (k > 0 || (s[k] != '-' && s[k] != '+'))
    ensures ParseInt(s) == None
  {
    if k > 0 {
      assert s[1..][k - 1] == s[k];
    }
  }

  /** For the zones 0..99 the padded form is exactly two decimal digits that
      denote the zone; below 10 it is "0" before the unpadded form, which is a
      single digit. */
  lemma ZeroPad2TwoDigits(z: int)
    requires 0 <= z <= 99
    ensures |ZeroPad2(z)| == 2 && AllDigits(ZeroPad2(z)) && DigitsValue(ZeroPad2(z)) == z
    ensures z < 10 ==> |IntToString(z)| == 1 && ZeroPad2(z) == "0" + IntToString(z)
  {
    var s := ZeroPad2(z);
    if z < 10 {
      assert s == ['0', DigitChar(z)];
      assert s[..1] == "0";
      assert DigitsValue(s[..1]) == 0;
    } else {
      assert NatToString(z / 10) == [DigitChar(z / 10)];
      assert s == [DigitChar(z / 10), DigitChar(z % 10)];
      NatToStringValue(z);
    }
  }

  // ---------------------------------------------------------------- split / join

  /** sep.join(parts) */
  function Join(parts: seq<string>, sep: char): string
    requires |parts| >= 1
  {
    if |parts| == 1 then parts[0] else parts[0] + [sep] + Join(parts[1..], sep)
  }

  /** s.split(sep): the maximal runs between separators, empty runs included. */
  function Split(s: string, sep: char): (parts: seq<string>)
    ensures |parts| >= 1
    ensures forall i :: 0 <= i < |parts| ==> sep !in parts[i]
    ensures Join(parts, sep) == s
  {
    if s == [] then [[]]
    else
      var rest := Split(s[1..], sep);
      if s[0] == sep then
        assert ([[]] + rest)[1..] == rest;
        [[]] + rest
      else
        var parts := [[s[0]] + rest[0]] + rest[1..];
        assert parts[1..] == rest[1..];
        assert Join(parts, sep) == [s[0]] + Join(rest, sep);
        parts
  }

  lemma {:induction false} SplitNoSeparator(x: string, sep: char)
    requires sep !in x
    ensures Split(x, sep) == [x]
  {
    if x != [] {
      SplitNoSeparator(x[1..], sep);
    }
  }

  lemma {:induction false} SplitCons(x: string, t: string, sep: char)
    requires sep !in x
    ensures Split(x + [sep] + t, sep) == [x] + Split(t, sep)
  {
    var s := x + [sep] + t;
    if x == [] {
      assert s[1..] == t;
    } else {
      assert s[1..] == x[1..] + [sep] + t;
      SplitCons(x[1..], t, sep);
      assert [x[0]] + x[1..] == x;
    }
  }

  /** Splitting undoes joining when no part holds the separator. */
  lemma {:induction false} SplitJoin(parts: seq<string>, sep: char)
    requires |parts| >= 1
    requires forall i :: 0 <= i < |parts| ==> sep !in parts[i]
    ensures Split(Join(parts, sep), sep) == parts
  {
    if |parts| == 1 {
      SplitNoSeparator(parts[0], sep);
    } else {
      SplitJoin(parts[1..], sep);
      SplitCons(parts[0], Join(parts[1..], sep), sep);
    }
  }

  lemma {:induction false} JoinSnoc(parts: seq<string>, last: string, sep: char)
    requires |parts| >= 1
    ensures Join(parts + [last], sep) == Join(parts, sep) + [sep] + last
  {
    if |parts| > 1 {
      assert (parts + [last])[1..] == parts[1..] + [last];
      JoinSnoc(parts[1..], last, sep);
    }
  }

  // ---------------------------------------------------------------- strip

  /** s.lstrip(chars): the suffix left after dropping leading characters in cs. */
  function StripLeft(s: string, cs: set<char>): (r: string)
    ensures |r| <= |s| && r == s[|s| - |r|..]
    ensures r == [] || r[0] !in cs
    ensures forall i :: 0 <= i < |s| - |r| ==> s[i] in cs
  {
    if |s| > 0 && s[0] in cs then StripLeft(s[1..], cs) else s
  }

  /** s.rstrip(chars): the prefix left after dropping trailing characters in cs. */
  function StripRight(s: string, cs: set<char>): (r: string)
    ensures |r| <= |s| && r == s[..|r|]
    ensures r == [] || r[|r| - 1] !in cs
    ensures forall i :: |r| <= i < |s| ==> s[i] in cs
  {
    if |s| > 0 && s[|s| - 1] in cs then StripRight(s[..|s| - 1], cs) else s
  }

  /** s.strip(chars) */
  function Strip(s: string, cs: set<char>): string
  {
    StripRight(StripLeft(s, cs), cs)
  }

  /** The characters str.isspace() accepts, which str.strip() with no
      argument removes. */
  const Whitespace: set<char> := {
    '\t', '\n', '\U{0B}', '\U{0C}', '\r', '\U{1C}', '\U{1D}', '\U{1E}', '\U{1F}', ' ',
    '\U{85}', '\U{A0}', '\U{1680}',
    '\U{2000}', '\U{2001}', '\U{2002}', '\U{2003}', '\U{2004}', '\U{2005}',
    '\U{2006}', '\U{2007}', '\U{2008}', '\U{2009}', '\U{200A}',
    '\U{2028}', '\U{2029}', '\U{202F}', '\U{205F}', '\U{3000}'
  }

  lemma {:induction false} StripRightTail(x: string, tail: string, cs: set<char>)
    requires |x| > 0 && x[|x| - 1] !in cs
    requires forall i :: 0 <= i < |tail| ==> tail[i] in cs
    ensures StripRight(x + tail, cs) == x
  {
    if tail != [] {
      var s := x + tail;
      assert s[|s| - 1] == tail[|tail| - 1];
      assert s[..|s| - 1] == x + tail[..|tail| - 1];
      StripRightTail(x, tail[..|tail| - 1], cs);
    } else {
      assert x + tail == x;
    }
  }

  /** Stripping a text whose first and last characters are kept, followed by
      characters that are all stripped, gives back that text. */
  lemma StripFramed(x: string, tail: string, cs: set<char>)
    requires |x| > 0 && x[0] !in cs && x[|x| - 1] !in cs
    requires forall i :: 0 <= i < |tail| ==> tail[i] in cs
    ensures Strip(x + tail, cs) == x
  {
    assert (x + tail)[0] == x[0];
    StripRightTail(x, tail, cs);
  }
}
