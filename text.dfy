/** The Kotlin string operations the app relies on, restricted to ASCII where
    Kotlin consults Unicode tables (case mapping, whitespace, digits). */
module Text {
  import opened Wrappers

  predicate IsAsciiUpper(c: char) { 'A' <= c <= 'Z' }
  predicate IsAsciiLower(c: char) { 'a' <= c <= 'z' }

  /** `Char.lowercaseChar()` on ASCII letters; every other character is kept. */
  function LowerChar(c: char): char {
    if IsAsciiUpper(c) then (c as int + 32) as char else c
  }

  /** `Char.uppercaseChar()` (and `titlecase()`) on ASCII letters. */
  function UpperChar(c: char): char {
    if IsAsciiLower(c) then (c as int - 32) as char else c
  }

  /** `String.lowercase()`. */
  function Lower(s: string): string {
    seq(|s|, i requires 0 <= i < |s| => LowerChar(s[i]))
  }

  /** `String.uppercase()`. */
  function Upper(s: string): string {
    seq(|s|, i requires 0 <= i < |s| => UpperChar(s[i]))
  }

  /** Lower-casing ignores the case the input was written in. */
  lemma LowerIgnoresCase(s: string)
    ensures Lower(Upper(s)) == Lower(s)
    ensures Lower(Lower(s)) == Lower(s)
  {
  }

  /** A string without upper-case letters is its own lower-case form. */
  lemma LowerFixed(s: string)
    requires forall i :: 0 <= i < |s| ==> !IsAsciiUpper(s[i])
    ensures Lower(s) == s
  {
  }

  /** `Char.isWhitespace()` on the ASCII range: space, TAB..CR and the four
      information separators U+001C..U+001F. */
  predicate IsWhitespace(c: char) {
    c == ' ' || '\t' <= c <= '\r' || '\U{1C}' <= c <= '\U{1F}'
  }

  /** `String.isBlank()`: empty or whitespace only. */
  predicate IsBlank(s: string) {
    forall i :: 0 <= i < |s| ==> IsWhitespace(s[i])
  }

  // ---------------------------------------------------------------------
  // split / joinToString

  /** `String.split(d)` for a one-character delimiter: the pieces between
      delimiters, empty ones included, always at least one. */
  function Split(s: string, d: char): (r: seq<string>)
    ensures |r| >= 1
    ensures forall i :: 0 <= i < |r| ==> d !in r[i]
  {
    if s == [] then [[]]
    else if s[0] == d then [[]] + Split(s[1..], d)
    else
      var rest := Split(s[1..], d);
      [[s[0]] + rest[0]] + rest[1..]
  }

  /** `List<String>.joinToString(sep)`. */
  function Join(pieces: seq<string>, sep: string): string {
    if |pieces| == 0 then []
    else if |pieces| == 1 then pieces[0]
    else pieces[0] + sep + Join(pieces[1..], sep)
  }

  /** Splitting loses nothing: joining the pieces with the delimiter gives the input back. */
  lemma {:induction false} JoinSplit(s: string, d: char)
    ensures Join(Split(s, d), [d]) == s
  {
    if s != [] {
      JoinSplit(s[1..], d);
      var rest := Split(s[1..], d);
      if s[0] == d {
        assert Split(s, d) == [[]] + rest;
        assert ([[]] + rest)[1..] == rest;
      } else {
        var r := Split(s, d);
        assert r == [[s[0]] + rest[0]] + rest[1..];
        if |rest| == 1 {
          assert s == [s[0]] + s[1..];
        } else {
          assert r[1..] == rest[1..];
          assert Join(rest, [d]) == rest[0] + [d] + Join(rest[1..], [d]);
          assert s == [s[0]] + s[1..];
        }
      }
    }
  }

  /** A string without the delimiter is a single piece. */
  lemma {:induction false} SplitWithoutDelimiter(s: string, d: char)
    requires d !in s
    ensures Split(s, d) == [s]
  {
    if s != [] {
      SplitWithoutDelimiter(s[1..], d);
      assert [s[0]] + s[1..] == s;
    }
  }

  /** A delimiter-free prefix joins the first piece of what follows it. */
  lemma {:induction false} SplitPrefix(a: string, t: string, d: char)
    requires d !in a
    ensures Split(a + t, d) == [a + Split(t, d)[0]] + Split(t, d)[1..]
  {
    if a != [] {
      assert (a + t)[1..] == a[1..] + t;
      SplitPrefix(a[1..], t, d);
      assert [a[0]] + (a[1..] + Split(t, d)[0]) == a + Split(t, d)[0];
    } else {
      var r := Split(t, d);
      assert a + t == t;
      assert a + r[0] == r[0];
      assert [r[0]] + r[1..] == r;
    }
  }

  /** `a + d + b` with no other delimiter splits into exactly `[a, b]`. */
  lemma SplitPair(a: string, b: string, d: char)
    requires d !in a && d !in b
    ensures Split(a + [d] + b, d) == [a, b]
  {
    var t := [d] + b;
    assert a + [d] + b == a + t;
    SplitPrefix(a, t, d);
    assert t[0] == d && t[1..] == b;
    SplitWithoutDelimiter(b, d);
    var r := Split(t, d);
    assert r == [[]] + [b];
    assert a + r[0] == a;
  }

  // ---------------------------------------------------------------------
  // substrings

  /** SQL `LIKE '%' || sub || '%'` without wildcards in `sub`, before case folding. */
  predicate Contains(s: string, sub: string) {
    sub <= s || (s != [] && Contains(s[1..], sub))
  }

  /** `String.substringBefore(c)`: everything before the first `c`, or the whole string. */
  function SubstringBefore(s: string, c: char): (r: string)
    ensures r <= s
    ensures c !in r
    ensures |r| < |s| ==> s[|r|] == c
  {
    if s == [] then []
    else if s[0] == c then []
    else [s[0]] + SubstringBefore(s[1..], c)
  }

  // ---------------------------------------------------------------------
  // decimal numbers

  const IntMin: int := -0x8000_0000
  const IntMax: int := 0x7fff_ffff

  predicate IsDigit(c: char) { '0' <= c <= '9' }

  predicate AllDigits(s: string) {
    forall i :: 0 <= i < |s| ==> IsDigit(s[i])
  }

  function DigitChar(d: nat): char
    requires d < 10
  {
    ('0' as int + d) as char
  }

  function DigitsValue(s: string): nat
    requires AllDigits(s)
  {
    if s == [] then 0
    else DigitsValue(s[..|s| - 1]) * 10 + (s[|s| - 1] as int - '0' as int)
  }

  /** `Int.toString()` for a non-negative number. */
  function NatToString(n: nat): (r: string)
    ensures |r| >= 1 && AllDigits(r)
  {
    if n < 10 then [DigitChar(n)] else NatToString(n / 10) + [DigitChar(n % 10)]
  }

  /** `String.padStart(length, c)`. */
  function PadStart(s: string, length: nat, c: char): string {
    if |s| >= length then s else seq(length - |s|, _ => c) + s
  }

  function InInt32(v: int): Option<int> {
    if IntMin <= v <= IntMax then Some(v) else None
  }

  /** `String.toInt()`: an optional sign and at least one digit, within the
      32-bit range; `None` is the `NumberFormatException`. */
  function ToInt(s: string): Option<int> {
    if s == [] then None
    else if s[0] == '-' || s[0] == '+' then
      if |s| == 1 || !AllDigits(s[1..]) then None
      else var v: int := DigitsValue(s[1..]);
        InInt32(if s[0] == '-' then -v else v)
    else if AllDigits(s) then InInt32(DigitsValue(s))
    else None
  }

  lemma {:induction false} DigitsOfNat(n: nat)
    ensures DigitsValue(NatToString(n)) == n
  {
    if n >= 10 {
      DigitsOfNat(n / 10);
      var p := NatToString(n / 10);
      var r := p + [DigitChar(n % 10)];
      assert r[..|r| - 1] == p;
    }
  }

  /** Reading back what `toString` printed gives the number. */
  lemma ToIntNatToString(n: nat)
    requires n <= IntMax
    ensures ToInt(NatToString(n)) == Some(n)
  {
    DigitsOfNat(n);
  }

  /** Zero-padding to two places leaves one number readable by `toInt`. */
  lemma TwoDigits(n: nat)
    requires n < 100
    ensures var t := PadStart(NatToString(n), 2, '0');
            |t| == 2 && AllDigits(t) && ToInt(t) == Some(n)
  {
    var s := NatToString(n);
    var t := PadStart(s, 2, '0');
    DigitsOfNat(n);
    if n < 10 {
      assert t == ['0'] + s;
      assert t[..1] == ['0'];
      assert DigitsValue(t[..1]) == 0 by {
        assert t[..1][..0] == [];
      }
      assert DigitsValue(t) == n;
    } else {
      assert NatToString(n / 10) == [DigitChar(n / 10)];
      assert t == s;
    }
  }
}
