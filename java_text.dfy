/**
 * The parts of java.lang.String, java.lang.Long and java.util.regex that the
 * service relies on, over `seq<char>`. Case mapping is ASCII only.
 */
module JavaText {
  import opened Wrappers

  /** `\s` in a java.util.regex pattern: space, \t, \n, vertical tab, form feed, \r. */
  predicate IsRegexSpace(c: char) {
    c == ' ' || c == '\t' || c == '\n' || c as int == 11 || c as int == 12 || c == '\r'
  }

  /** Character.isWhitespace restricted to ASCII: the regex spaces and the separators 0x1C-0x1F. */
  predicate IsWhitespace(c: char) {
    IsRegexSpace(c) || (28 <= c as int <= 31)
  }

  function LowerChar(c: char): char {
    if 'A' <= c <= 'Z' then (c as int + 32) as char else c
  }

  function UpperChar(c: char): char {
    if 'a' <= c <= 'z' then (c as int - 32) as char else c
  }

  /** String.toLowerCase. */
  function Lower(s: string): (r: string)
    ensures |r| == |s| && forall i :: 0 <= i < |s| ==> r[i] == LowerChar(s[i])
  {
    if s == [] then [] else [LowerChar(s[0])] + Lower(s[1..])
  }

  /** String.toUpperCase. */
  function Upper(s: string): (r: string)
    ensures |r| == |s| && forall i :: 0 <= i < |s| ==> r[i] == UpperChar(s[i])
  {
    if s == [] then [] else [UpperChar(s[0])] + Upper(s[1..])
  }

  /**
   * String.equalsIgnoreCase, stated through lower-casing; `EqualsIgnoreCaseIsLower`
   * shows it agrees with the character-by-character definition below.
   */
  predicate EqualsIgnoreCase(a: string, b: string) {
    Lower(a) == Lower(b)
  }

  /**
   * One position of String.regionMatches(true, ...): the characters are equal,
   * or equal after toUpperCase, or equal after toUpperCase then toLowerCase.
   */
  predicate CharsMatchIgnoreCase(a: char, b: char) {
    a == b || UpperChar(a) == UpperChar(b) || LowerChar(UpperChar(a)) == LowerChar(UpperChar(b))
  }

  /** String.equalsIgnoreCase as the JDK writes it: same length, every position matches. */
  predicate RegionEqualsIgnoreCase(a: string, b: string) {
    |a| == |b| && forall i :: 0 <= i < |a| ==> CharsMatchIgnoreCase(a[i], b[i])
  }

  lemma CharsMatchIsLower(a: char, b: char)
    ensures CharsMatchIgnoreCase(a, b) <==> LowerChar(a) == LowerChar(b)
  {
  }

  /** Comparing position by position ignoring case is comparing the lower-cased strings. */
  lemma EqualsIgnoreCaseIsLower(a: string, b: string)
    ensures RegionEqualsIgnoreCase(a, b) <==> EqualsIgnoreCase(a, b)
  {
    if RegionEqualsIgnoreCase(a, b) {
      forall i | 0 <= i < |a|
        ensures Lower(a)[i] == Lower(b)[i]
      {
        CharsMatchIsLower(a[i], b[i]);
      }
    }
    if EqualsIgnoreCase(a, b) {
      forall i | 0 <= i < |a|
        ensures CharsMatchIgnoreCase(a[i], b[i])
      {
        assert Lower(a)[i] == Lower(b)[i];
        CharsMatchIsLower(a[i], b[i]);
      }
    }
  }

  predicate StartsWith(s: string, p: string) {
    |p| <= |s| && s[..|p|] == p
  }

  /** String.regionMatches(true, 0, p, 0, |p|): `s` begins with `p`, ignoring case. */
  predicate StartsWithIgnoreCase(s: string, p: string) {
    |p| <= |s| && EqualsIgnoreCase(s[..|p|], p)
  }

  /** Against an upper-case prefix, testing the upper-cased string is testing the string ignoring case. */
  lemma UpperStartsWith(s: string, p: string)
    requires forall i :: 0 <= i < |p| ==> 'A' <= p[i] <= 'Z'
    ensures StartsWith(Upper(s), p) <==> StartsWithIgnoreCase(s, p)
  {
    if |p| <= |s| {
      var u := Upper(s);
      if StartsWith(u, p) {
        forall i | 0 <= i < |p|
          ensures Lower(s[..|p|])[i] == Lower(p)[i]
        {
          assert u[..|p|][i] == p[i];
        }
      }
      if StartsWithIgnoreCase(s, p) {
        forall i | 0 <= i < |p|
          ensures u[..|p|][i] == p[i]
        {
          assert Lower(s[..|p|])[i] == Lower(p)[i];
        }
      }
    }
  }

  /** Strings equal ignoring case upper-case alike. */
  lemma UpperIgnoresCase(a: string, b: string)
    requires EqualsIgnoreCase(a, b)
    ensures Upper(a) == Upper(b)
  {
    assert |a| == |Lower(a)| == |Lower(b)| == |b|;
    forall i | 0 <= i < |a|
      ensures Upper(a)[i] == Upper(b)[i]
    {
      assert LowerChar(a[i]) == Lower(a)[i] == Lower(b)[i] == LowerChar(b[i]);
      UpperOfLower(a[i]);
      UpperOfLower(b[i]);
    }
  }

  lemma UpperOfLower(c: char)
    ensures UpperChar(LowerChar(c)) == UpperChar(c)
  {
  }

  predicate EndsWith(s: string, p: string) {
    |p| <= |s| && s[|s| - |p|..] == p
  }

  /** Removes leading and trailing characters satisfying `drop`. */
  function TrimBy(s: string, drop: char -> bool): (r: string)
    ensures |r| <= |s|
    ensures r != [] ==> !drop(r[0]) && !drop(r[|r| - 1])
    ensures forall c :: c in r ==> c in s
    ensures s != [] && !drop(s[0]) && !drop(s[|s| - 1]) ==> r == s
    decreases |s|
  {
    if s == [] then s
    else if drop(s[0]) then TrimBy(s[1..], drop)
    else if drop(s[|s| - 1]) then TrimBy(s[..|s| - 1], drop)
    else s
  }

  /** String.trim: removes characters up to and including ' ' at both ends. */
  function Trim(s: string): string {
    TrimBy(s, c => c <= ' ')
  }

  /** String.strip: removes whitespace at both ends. */
  function Strip(s: string): string {
    TrimBy(s, IsWhitespace)
  }

  function CountChar(s: string, c: char): (n: nat)
    ensures n <= |s|
  {
    if s == [] then 0 else (if s[0] == c then 1 else 0) + CountChar(s[1..], c)
  }

  lemma {:induction false} CountCharAppend(a: string, b: string, c: char)
    ensures CountChar(a + b, c) == CountChar(a, c) + CountChar(b, c)
  {
    if a != [] {
      assert (a + b)[0] == a[0];
      assert (a + b)[1..] == a[1..] + b;
      CountCharAppend(a[1..], b, c);
    } else {
      assert a + b == b;
    }
  }

  lemma {:induction false} CountCharAbsent(s: string, c: char)
    requires c !in s
    ensures CountChar(s, c) == 0
  {
    if s != [] {
      assert s[0] in s;
      assert forall x :: x in s[1..] ==> x in s;
      CountCharAbsent(s[1..], c);
    }
  }

  lemma CountCharSplit(s: string, k: nat, c: char)
    requires k <= |s|
    ensures CountChar(s, c) == CountChar(s[..k], c) + CountChar(s[k..], c)
  {
    assert s == s[..k] + s[k..];
    CountCharAppend(s[..k], s[k..], c);
  }

  /** String.indexOf(ch, from): the first index at or after `from` holding `c`, or -1. */
  function IndexOf(s: string, c: char, from: nat): (r: int)
    ensures r == -1 || from <= r < |s|
    ensures r == -1 ==> forall k :: from <= k < |s| ==> s[k] != c
    ensures r != -1 ==> s[r] == c && forall k :: from <= k < r ==> s[k] != c
    decreases |s| - from
  {
    if from >= |s| then -1
    else if s[from] == c then from
    else IndexOf(s, c, from + 1)
  }

  /**
   * String.replace(target, ""): every occurrence of `t`, scanned left to right
   * without overlap, is removed.
   */
  function RemoveAll(s: string, t: string): (r: string)
    requires |t| > 0
    ensures |r| <= |s|
    decreases |s|
  {
    if |s| < |t| then s
    else if s[..|t|] == t then RemoveAll(s[|t|..], t)
    else [s[0]] + RemoveAll(s[1..], t)
  }

  /** Removing an occurrence makes the string strictly shorter. */
  lemma {:induction false} RemoveAllShrinks(s: string, t: string, i: nat)
    requires |t| > 0 && i + |t| <= |s| && s[i..i + |t|] == t
    ensures |RemoveAll(s, t)| < |s|
  {
    if s[..|t|] != t {
      assert i > 0;
      assert s[1..][i - 1..i - 1 + |t|] == t;
      RemoveAllShrinks(s[1..], t, i - 1);
    }
  }

  /** Removing occurrences of a text holding an even number of `c` keeps the parity of `c`. */
  lemma {:induction false} RemoveAllParity(s: string, t: string, c: char)
    requires |t| > 0 && CountChar(t, c) % 2 == 0
    ensures CountChar(RemoveAll(s, t), c) % 2 == CountChar(s, c) % 2
    decreases |s|
  {
    if |s| < |t| {
    } else if s[..|t|] == t {
      var tail := s[|t|..];
      assert RemoveAll(s, t) == RemoveAll(tail, t);
      RemoveAllParity(tail, t, c);
      CountCharSplit(s, |t|, c);
      EvenShift(CountChar(s, c), CountChar(t, c), CountChar(tail, c), CountChar(RemoveAll(tail, t), c));
    } else {
      RemoveAllParity(s[1..], t, c);
      var rest := RemoveAll(s[1..], t);
      assert RemoveAll(s, t) == [s[0]] + rest;
      assert ([s[0]] + rest)[1..] == rest;
    }
  }

  lemma EvenShift(whole: int, removed: int, tail: int, result: int)
    requires whole == removed + tail && removed % 2 == 0 && result % 2 == tail % 2
    ensures result % 2 == whole % 2
  {
  }

  /** Removing occurrences never adds a character. */
  lemma {:induction false} RemoveAllKeeps(s: string, t: string, x: char)
    requires |t| > 0 && x in RemoveAll(s, t)
    ensures x in s
    decreases |s|
  {
    if |s| < |t| {
    } else if s[..|t|] == t {
      RemoveAllKeeps(s[|t|..], t, x);
    } else if x != s[0] {
      RemoveAllKeeps(s[1..], t, x);
    }
  }

  /** Every piece between separators, empty pieces included ("a,,b" gives "a", "", "b"). */
  function SplitAll(s: string, sep: char -> bool): (r: seq<string>)
    ensures |r| > 0
    ensures forall p :: p in r ==> forall c :: c in p ==> !sep(c) && c in s
  {
    if s == [] then [[]]
    else
      var rest := SplitAll(s[1..], sep);
      assert forall c :: c in s[1..] ==> c in s;
      assert rest[0] in rest;
      assert forall p :: p in rest[1..] ==> p in rest;
      assert !sep(s[0]) ==> forall c :: c in [s[0]] + rest[0] ==> !sep(c) && c in s;
      if sep(s[0]) then [[]] + rest else [[s[0]] + rest[0]] + rest[1..]
  }

  function DropTrailingEmpty(xs: seq<string>): (r: seq<string>)
    ensures |r| <= |xs| && r == xs[..|r|]
    ensures r != [] ==> r[|r| - 1] != []
    ensures forall k :: |r| <= k < |xs| ==> xs[k] == []
  {
    if xs == [] then xs
    else if xs[|xs| - 1] == [] then DropTrailingEmpty(xs[..|xs| - 1])
    else xs
  }

  /**
   * String.split(regex) for a one-character class: a text with no separator
   * is returned whole (so "" gives [""]); otherwise trailing empty pieces are
   * dropped.
   */
  function JavaSplit(s: string, sep: char -> bool): (r: seq<string>)
    ensures forall p :: p in r ==> forall c :: c in p ==> !sep(c) && c in s
  {
    if forall c :: c in s ==> !sep(c) then [s]
    else
      var all := SplitAll(s, sep);
      var kept := DropTrailingEmpty(all);
      assert forall p :: p in kept ==> p in all;
      kept
  }

  /** Keeps the non-empty strings, in order. */
  function NonEmpty(xs: seq<string>): (r: seq<string>)
    ensures forall t :: t in r ==> t in xs && t != []
    ensures forall t :: t in xs && t != [] ==> t in r
  {
    if xs == [] then []
    else (if xs[0] == [] then [] else [xs[0]]) + NonEmpty(xs[1..])
  }

  lemma {:induction false} NonEmptyAppend(a: seq<string>, b: seq<string>)
    ensures NonEmpty(a + b) == NonEmpty(a) + NonEmpty(b)
  {
    if a != [] {
      assert (a + b)[0] == a[0];
      assert (a + b)[1..] == a[1..] + b;
      NonEmptyAppend(a[1..], b);
    } else {
      assert a + b == b;
    }
  }

  lemma {:induction false} NonEmptyOfEmpties(xs: seq<string>)
    requires forall k :: 0 <= k < |xs| ==> xs[k] == []
    ensures NonEmpty(xs) == []
  {
    if xs != [] {
      NonEmptyOfEmpties(xs[1..]);
    }
  }

  /** Dropping trailing empty pieces does not change the non-empty pieces. */
  lemma JavaSplitNonEmpty(s: string, sep: char -> bool)
    ensures NonEmpty(JavaSplit(s, sep)) == NonEmpty(SplitAll(s, sep))
  {
    if forall c :: c in s ==> !sep(c) {
      SplitAllNoSeparator(s, sep);
    } else {
      DropTrailingNonEmpty(SplitAll(s, sep));
    }
  }

  /** Dropping trailing empty strings keeps the non-empty ones. */
  lemma DropTrailingNonEmpty(all: seq<string>)
    ensures NonEmpty(DropTrailingEmpty(all)) == NonEmpty(all)
  {
    var kept := DropTrailingEmpty(all);
    assert all == kept + all[|kept|..];
    NonEmptyAppend(kept, all[|kept|..]);
    NonEmptyOfEmpties(all[|kept|..]);
  }

  lemma {:induction false} SplitAllNoSeparator(s: string, sep: char -> bool)
    requires forall c :: c in s ==> !sep(c)
    ensures SplitAll(s, sep) == [s]
  {
    if s != [] {
      assert s[0] in s;
      forall c | c in s[1..] ensures !sep(c) {
        assert c in s;
      }
      SplitAllNoSeparator(s[1..], sep);
      assert [s[0]] + s[1..] == s;
    }
  }

  // ---- decimal numbers ----

  function DigitChar(d: nat): char
    requires d < 10
  {
    ('0' as int + d) as char
  }

  predicate IsDigit(c: char) { '0' <= c <= '9' }

  predicate AllDigits(s: string) { forall c :: c in s ==> IsDigit(c) }

  /** Decimal digits of `n`, most significant first, without leading zeros. */
  function NatToString(n: nat): (r: string)
    ensures |r| > 0 && AllDigits(r)
    ensures r[0] != '-' && r[0] != '+'
  {
    if n < 10 then [DigitChar(n)] else NatToString(n / 10) + [DigitChar(n % 10)]
  }

  /** Long.toString / Integer.toString / StringBuilder.append of a number. */
  function IntToString(i: int): (r: string)
    ensures |r| > 0
  {
    if i < 0 then "-" + NatToString(-i) else NatToString(i)
  }

  function DigitsValue(s: string): nat
    requires AllDigits(s)
  {
    if s == [] then 0
    else
      assert s[|s| - 1] in s;
      assert forall c :: c in s[..|s| - 1] ==> c in s;
      10 * DigitsValue(s[..|s| - 1]) + (s[|s| - 1] as int - '0' as int)
  }

  lemma {:induction false} DigitsOfNat(n: nat)
    ensures DigitsValue(NatToString(n)) == n
  {
    if n >= 10 {
      var r := NatToString(n);
      assert r[..|r| - 1] == NatToString(n / 10);
      DigitsOfNat(n / 10);
    }
  }

  const LONG_MIN: int := -0x8000_0000_0000_0000
  const LONG_MAX: int := 0x7FFF_FFFF_FFFF_FFFF
  const INT_MIN: int := -0x8000_0000
  const INT_MAX: int := 0x7FFF_FFFF

  /**
   * Long.parseLong / Integer.valueOf over the range [lo, hi]: an optional
   * sign, then at least one digit; anything else, or a value out of range,
   * raises NumberFormatException.
   */
  function ParseSigned(s: string, lo: int, hi: int): (r: Result<int>)
    ensures r.Ok? ==> lo <= r.value <= hi
  {
    if s == [] then Err(NumberFormat)
    else
      var neg := s[0] == '-';
      var body := if s[0] == '-' || s[0] == '+' then s[1..] else s;
      if body == [] || !AllDigits(body) then Err(NumberFormat)
      else
        var d: int := DigitsValue(body);
        var v := if neg then -d else d;
        if lo <= v <= hi then Ok(v) else Err(NumberFormat)
  }

  function ParseLong(s: string): Result<int> { ParseSigned(s, LONG_MIN, LONG_MAX) }

  function ParseInt(s: string): Result<int> { ParseSigned(s, INT_MIN, INT_MAX) }

  /** Printing a number and parsing it back gives the number. */
  lemma ParseSignedOfIntToString(i: int, lo: int, hi: int)
    requires lo <= i <= hi
    ensures ParseSigned(IntToString(i), lo, hi) == Ok(i)
  {
    if i < 0 {
      assert IntToString(i)[1..] == NatToString(-i);
      DigitsOfNat(-i);
    } else {
      DigitsOfNat(i);
    }
  }

  /** A Java int: the (int) cast of a long, and int arithmetic, wrap around modulo 2^32 into the int range. */
  function Wrap32(x: int): (r: int)
    ensures INT_MIN <= r <= INT_MAX
    ensures INT_MIN <= x <= INT_MAX ==> r == x
    decreases if x < INT_MIN then INT_MIN - x else x - INT_MAX
  {
    if x < INT_MIN then Wrap32(x + 0x1_0000_0000)
    else if x > INT_MAX then Wrap32(x - 0x1_0000_0000)
    else x
  }

  /** Wrapping is the residue modulo 2^32, shifted into the int range. */
  lemma {:induction false} WrapMod(x: int)
    ensures Wrap32(x) == (x - INT_MIN) % 0x1_0000_0000 + INT_MIN
    decreases if x < INT_MIN then INT_MIN - x else x - INT_MAX
  {
    if x < INT_MIN {
      WrapMod(x + 0x1_0000_0000);
      ModShift(x - INT_MIN + 0x1_0000_0000, 1);
    } else if x > INT_MAX {
      WrapMod(x - 0x1_0000_0000);
      ModShift(x - INT_MIN, 1);
    }
  }

  /** A value a Java int can hold. */
  predicate IsInt(x: int) { INT_MIN <= x <= INT_MAX }

  /** Wrapping the first operand of a sum before adding does not change the wrapped sum. */
  lemma WrapAdd(a: int, b: int)
    ensures Wrap32(Wrap32(a) + b) == Wrap32(a + b)
  {
    WrapMod(a);
    WrapMod(Wrap32(a) + b);
    WrapMod(a + b);
    var k := (a - INT_MIN) / 0x1_0000_0000;
    assert Wrap32(a) + b - INT_MIN == (a + b - INT_MIN) - k * 0x1_0000_0000;
    ModShift(a + b - INT_MIN, k);
  }

  lemma ModShift(x: int, k: int)
    ensures (x - k * 0x1_0000_0000) % 0x1_0000_0000 == x % 0x1_0000_0000
  {
    var q := x / 0x1_0000_0000;
    var r := x % 0x1_0000_0000;
    assert x - k * 0x1_0000_0000 == (q - k) * 0x1_0000_0000 + r;
  }

  /** String.hashCode: h = 31 * h + c over the characters, in int arithmetic. */
  function StringHash(s: string): (h: int)
    ensures INT_MIN <= h <= INT_MAX
  {
    if s == [] then 0 else Wrap32(31 * StringHash(s[..|s| - 1]) + s[|s| - 1] as int)
  }
}
