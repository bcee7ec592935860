/** The string extensions of the app's common package. */
module Extensions {
  import opened Wrappers
  import opened Text
  import Seqs

  /** `replaceFirstChar { if (it.isLowerCase()) it.titlecase() else it.toString() }` on one piece. */
  function CapitalizeFirst(w: string): string {
    if w == [] then [] else [CapChar(w[0])] + w[1..]
  }

  function CapChar(c: char): char {
    if IsAsciiLower(c) then UpperChar(c) else c
  }

  /** `String.capitalizeWords()`: split on " ", capitalise each piece, join with " ". */
  function CapitalizeWords(s: string): string {
    Join(Seqs.Map(Split(s, ' '), CapitalizeFirst), " ")
  }

  /** An independent, character-by-character definition: a character is
      capitalised exactly when it starts the string or follows a space. */
  function CapitalizeScan(s: string, atStart: bool): string {
    if s == [] then []
    else [if atStart then CapChar(s[0]) else s[0]] + CapitalizeScan(s[1..], s[0] == ' ')
  }

  /** The pieces with the first one capitalised only when `first` holds. */
  function CapPieces(ps: seq<string>, first: bool): seq<string>
    requires |ps| >= 1
  {
    [if first then CapitalizeFirst(ps[0]) else ps[0]] + Seqs.Map(ps[1..], CapitalizeFirst)
  }

  lemma JoinCons(c: char, x: string, rest: seq<string>, sep: string)
    ensures Join([[c] + x] + rest, sep) == [c] + Join([x] + rest, sep)
  {
    if |rest| > 0 {
      assert ([[c] + x] + rest)[1..] == rest;
      assert ([x] + rest)[1..] == rest;
    }
  }

  lemma {:induction false} CapPiecesScan(t: string, first: bool)
    ensures Join(CapPieces(Split(t, ' '), first), " ") == CapitalizeScan(t, first)
  {
    if t != [] {
      var r := Split(t[1..], ' ');
      if t[0] == ' ' {
        CapPiecesScan(t[1..], true);
        assert Split(t, ' ') == [[]] + r;
        var ps := CapPieces(Split(t, ' '), first);
        assert ps == [[]] + Seqs.Map(r, CapitalizeFirst);
        assert Seqs.Map(r, CapitalizeFirst) == CapPieces(r, true);
        assert ps[1..] == CapPieces(r, true);
      } else {
        CapPiecesScan(t[1..], false);
        var c0 := if first then CapChar(t[0]) else t[0];
        assert Split(t, ' ') == [[t[0]] + r[0]] + r[1..];
        var ps := CapPieces(Split(t, ' '), first);
        assert ps == [[c0] + r[0]] + Seqs.Map(r[1..], CapitalizeFirst);
        assert CapPieces(r, false) == [r[0]] + Seqs.Map(r[1..], CapitalizeFirst);
        JoinCons(c0, r[0], Seqs.Map(r[1..], CapitalizeFirst), " ");
      }
    }
  }

  /** `capitalizeWords` agrees with the character-by-character definition. */
  lemma CapitalizeWordsIsScan(s: string)
    ensures CapitalizeWords(s) == CapitalizeScan(s, true)
  {
    var ps := Split(s, ' ');
    assert Seqs.Map(ps, CapitalizeFirst) == CapPieces(ps, true);
    CapPiecesScan(s, true);
  }

  lemma {:induction false} ScanShape(s: string, atStart: bool)
    ensures |CapitalizeScan(s, atStart)| == |s|
    ensures forall i :: 0 <= i < |s| ==>
      CapitalizeScan(s, atStart)[i] ==
        (if (if i == 0 then atStart else s[i - 1] == ' ') then CapChar(s[i]) else s[i])
  {
    if s != [] {
      ScanShape(s[1..], s[0] == ' ');
    }
  }

  /** Only the first character of each piece can change, and only from lower to upper case. */
  lemma CapitalizeWordsPointwise(s: string)
    ensures |CapitalizeWords(s)| == |s|
    ensures forall i :: 0 <= i < |s| ==>
      CapitalizeWords(s)[i] == (if i == 0 || s[i - 1] == ' ' then CapChar(s[i]) else s[i])
  {
    CapitalizeWordsIsScan(s);
    ScanShape(s, true);
  }

  lemma {:induction false} ScanIdempotent(s: string, atStart: bool)
    ensures CapitalizeScan(CapitalizeScan(s, atStart), atStart) == CapitalizeScan(s, atStart)
  {
    if s != [] {
      ScanIdempotent(s[1..], s[0] == ' ');
      var c := CapitalizeScan(s, atStart);
      assert c[0] == ' ' <==> s[0] == ' ';
      assert c[1..] == CapitalizeScan(s[1..], s[0] == ' ');
    }
  }

  /** Over ASCII, capitalising twice is capitalising once. */
  lemma CapitalizeWordsIdempotent(s: string)
    ensures CapitalizeWords(CapitalizeWords(s)) == CapitalizeWords(s)
  {
    CapitalizeWordsIsScan(s);
    CapitalizeWordsIsScan(CapitalizeWords(s));
    ScanIdempotent(s, true);
  }

  lemma {:induction false} SplitJoin(ps: seq<string>, d: char)
    requires |ps| >= 1
    requires forall i :: 0 <= i < |ps| ==> d !in ps[i]
    ensures Split(Join(ps, [d]), d) == ps
  {
    if |ps| == 1 {
      SplitWithoutDelimiter(ps[0], d);
    } else {
      SplitJoin(ps[1..], d);
      var rest := Join(ps[1..], [d]);
      assert Join(ps, [d]) == ps[0] + ([d] + rest);
      SplitPrefix(ps[0], [d] + rest, d);
      assert ([d] + rest)[1..] == rest;
      assert Split([d] + rest, d) == [[]] + ps[1..];
      assert ps[0] + [] == ps[0];
    }
  }

  /** `capitalizeWords` keeps the " "-separated pieces, each capitalised in place:
      in particular it keeps their number, and a piece that does not start
      with a lower-case letter comes out unchanged. */
  lemma CapitalizeWordsPieces(s: string)
    ensures Split(CapitalizeWords(s), ' ') == Seqs.Map(Split(s, ' '), CapitalizeFirst)
    ensures |Split(CapitalizeWords(s), ' ')| == |Split(s, ' ')|
  {
    var ps := Seqs.Map(Split(s, ' '), CapitalizeFirst);
    forall i | 0 <= i < |ps| ensures ' ' !in ps[i] {
      var w := Split(s, ' ')[i];
      if w != [] {
        assert ps[i] == [CapChar(w[0])] + w[1..];
        assert w == [w[0]] + w[1..];
      }
    }
    SplitJoin(ps, ' ');
  }

  /** `String?.orEmpty()`. */
  function OrEmpty(s: Option<string>): string {
    s.GetOr("")
  }

  /** `String?.isNotNullOrBlank()`. */
  predicate IsNotNullOrBlank(s: Option<string>) {
    !(s.None? || IsBlank(s.value))
  }

  /** True exactly for a present string with some non-whitespace character. */
  lemma IsNotNullOrBlankMeans(s: Option<string>)
    ensures IsNotNullOrBlank(s) <==>
      s.Some? && exists i :: 0 <= i < |s.value| && !IsWhitespace(s.value[i])
  {
  }

  /** The two null-tolerant helpers agree: a string is present and not blank
      exactly when its `orEmpty()` is not blank, and `orEmpty()` is empty
      exactly for null and for "". */
  lemma OrEmptyNotBlank(s: Option<string>)
    ensures IsNotNullOrBlank(s) <==> !IsBlank(OrEmpty(s))
    ensures OrEmpty(s) == "" <==> s.None? || s.value == ""
  {
  }
}
