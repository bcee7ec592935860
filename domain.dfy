/** The domain records the screens show, and their derived properties. */
module Domain {
  import opened Wrappers
  import opened Text
  import Seqs

  /** An `Instant?`: timestamps are opaque, ordered numbers. */
  type Stamp = Option<int>

  // ---------------------------------------------------------------------
  // Quote

  datatype Quote = Quote(
    id: string,
    text: string,
    author: string,
    authorImageUrl: Option<string>,
    categoryId: Option<string>,
    categoryName: Option<string>,
    source: Option<string>,
    isFeatured: bool,
    isFavorite: bool,
    createdAt: Stamp)

  function QuoteId(q: Quote): string { q.id }

  /** `Quote(id, text, author)` with every other argument at its default. */
  function NewQuote(id: string, text: string, author: string): Quote {
    Quote(id, text, author, None, None, None, None, false, false, None)
  }

  /** `formattedQuote`: the text in double quotes. */
  function FormattedQuote(q: Quote): (r: string)
    ensures |r| == |q.text| + 2
    ensures r[0] == '"' && r[|r| - 1] == '"' && r[1..|r| - 1] == q.text
  {
    "\"" + q.text + "\""
  }

  /** The separator written in `shareText`: two newlines, then the three
      characters the source file holds where an em dash was meant (the UTF-8
      bytes of U+2014 read as Windows-1252), then a space. */
  const ShareSeparator: string := "\n\nâ€” "

  /** `shareText`: the formatted quote, the separator and the author. */
  function ShareText(q: Quote): string {
    "\"" + q.text + "\"\n\nâ€” " + q.author
  }

  /** `shareText` starts with `formattedQuote`, ends with the author, and has the separator between. */
  lemma ShareTextShape(q: Quote)
    ensures ShareText(q) == FormattedQuote(q) + ShareSeparator + q.author
    ensures FormattedQuote(q) <= ShareText(q)
    ensures ShareText(q)[|ShareText(q)| - |q.author|..] == q.author
    ensures |ShareText(q)| == |q.text| + |q.author| + 8
  {
    var f := FormattedQuote(q);
    var r := ShareText(q);
    assert r == f + (ShareSeparator + q.author);
    assert r[..|f|] == f;
    assert r == (f + ShareSeparator) + q.author;
  }

  // ---------------------------------------------------------------------
  // Category

  datatype Category = Category(
    id: string,
    name: string,
    displayName: string,
    iconName: Option<string>,
    colorHex: Option<string>,
    sortOrder: int,
    quoteCount: int)

  /** `Category(id, name, displayName)` with every other argument at its default. */
  function NewCategory(id: string, name: string, displayName: string): Category {
    Category(id, name, displayName, None, None, 0, 0)
  }

  /** The five category colours of the theme, as tags. */
  datatype CategoryColor = MotivationColor | LoveColor | SuccessColor | WisdomColor | HumorColor

  /** `Category.color`: by lower-cased name; every other name gets the wisdom colour. */
  function ColorOf(c: Category): CategoryColor {
    var n := Lower(c.name);
    if n == "motivation" then MotivationColor
    else if n == "love" then LoveColor
    else if n == "success" then SuccessColor
    else if n == "wisdom" then WisdomColor
    else if n == "humor" then HumorColor
    else WisdomColor
  }

  const FireIcon: string := "\U{1F525}"
  const HeartIcon: string := "\U{2764}\U{FE0F}"
  const TrophyIcon: string := "\U{1F3C6}"
  const BrainIcon: string := "\U{1F9E0}"
  const SmileIcon: string := "\U{1F604}"
  const BulbIcon: string := "\U{1F4A1}"

  /** The built-in icon for a lower-cased category name. */
  function BuiltInIcon(lowerName: string): string {
    if lowerName == "motivation" then FireIcon
    else if lowerName == "love" then HeartIcon
    else if lowerName == "success" then TrophyIcon
    else if lowerName == "wisdom" then BrainIcon
    else if lowerName == "humor" then SmileIcon
    else BulbIcon
  }

  /** `Category.icon`: the stored icon name, else the built-in icon for the name. */
  function Icon(c: Category): string {
    match c.iconName
    case Some(icon) => icon
    case None => BuiltInIcon(Lower(c.name))
  }

  predicate IsKnownCategoryName(n: string) {
    n == "motivation" || n == "love" || n == "success" || n == "wisdom" || n == "humor"
  }

  /** A stored icon name always wins; otherwise the icon depends on the name
      only up to case, and an unknown name gets the light bulb. */
  lemma IconLookup(c: Category, d: Category)
    ensures c.iconName.Some? ==> Icon(c) == c.iconName.value
    ensures c.iconName.None? && d.iconName.None? && Lower(c.name) == Lower(d.name) ==> Icon(c) == Icon(d)
    ensures c.iconName.None? ==> Icon(c) == Icon(c.(name := Upper(c.name)))
    ensures c.iconName.None? && !IsKnownCategoryName(Lower(c.name)) ==> Icon(c) == BulbIcon
    ensures c.iconName.None? && IsKnownCategoryName(Lower(c.name)) ==> Icon(c) != BulbIcon
  {
    LowerIgnoresCase(c.name);
  }

  /** A category built with the default icon name shows the built-in icon of
      its name, whatever the name's case and whatever its id or display name. */
  lemma NewCategoryIcon(id: string, name: string, displayName: string, id2: string, displayName2: string)
    ensures Icon(NewCategory(id, name, displayName)) == BuiltInIcon(Lower(name))
    ensures Icon(NewCategory(id, name, displayName)) == Icon(NewCategory(id2, Upper(name), displayName2))
  {
    LowerIgnoresCase(name);
  }

  /** The colour lookup ignores case, and an unknown name is coloured like "wisdom". */
  lemma ColorLookup(c: Category)
    ensures ColorOf(c) == ColorOf(c.(name := Upper(c.name)))
    ensures !IsKnownCategoryName(Lower(c.name)) ==> ColorOf(c) == ColorOf(c.(name := "wisdom"))
  {
    LowerIgnoresCase(c.name);
    LowerFixed("wisdom");
  }

  // ---------------------------------------------------------------------
  // Collection

  datatype Collection = Collection(
    id: string,
    userId: string,
    name: string,
    description: Option<string>,
    coverColor: string,
    isPublic: bool,
    quoteCount: int,
    quotes: seq<Quote>,
    createdAt: Stamp,
    updatedAt: Stamp)

  const DefaultCoverColor: string := "#6366F1"

  // ---------------------------------------------------------------------
  // User

  datatype User = User(
    id: string,
    email: string,
    displayName: Option<string>,
    avatarUrl: Option<string>,
    createdAt: Stamp)

  /** `mapNotNull { it.firstOrNull()?.uppercaseChar() }` then `joinToString("")`. */
  function FirstLetters(pieces: seq<string>): (r: string)
    ensures |r| <= |pieces|
  {
    if pieces == [] then []
    else (if pieces[0] == [] then [] else [UpperChar(pieces[0][0])]) + FirstLetters(pieces[1..])
  }

  function NonEmptyPiece(p: string): bool { p != [] }

  /** `mapNotNull` keeps one letter for each non-empty piece, in order: the
      upper-cased first character of that piece. */
  lemma {:induction false} FirstLettersOfNonEmpty(pieces: seq<string>)
    ensures var ne := Seqs.Filter(pieces, NonEmptyPiece);
      |FirstLetters(pieces)| == |ne| &&
      forall k :: 0 <= k < |ne| ==> FirstLetters(pieces)[k] == UpperChar(ne[k][0])
  {
    if pieces != [] {
      FirstLettersOfNonEmpty(pieces[1..]);
    }
  }

  /** `User.initials`. */
  function Initials(u: User): string {
    match u.displayName
    case Some(n) =>
      var pieces := Split(n, ' ');
      FirstLetters(pieces[..Seqs.Min(2, |pieces|)])
    case None =>
      if u.email == [] then "U" else [UpperChar(u.email[0])]
  }

  /** With a display name, the initials are at most two letters: in order, the
      upper-cased first characters of the non-empty pieces among the first two
      pieces; an empty display name gives "" and the e-mail is not consulted. */
  lemma InitialsOfDisplayName(u: User)
    requires u.displayName.Some?
    ensures |Initials(u)| <= 2
    ensures var pieces := Split(u.displayName.value, ' ');
      var ne := Seqs.Filter(pieces[..Seqs.Min(2, |pieces|)], NonEmptyPiece);
      |Initials(u)| == |ne| && forall k :: 0 <= k < |ne| ==> Initials(u)[k] == UpperChar(ne[k][0])
    ensures u.displayName.value == "" ==> Initials(u) == ""
    ensures forall e :: Initials(u) == Initials(u.(email := e))
  {
    var pieces := Split(u.displayName.value, ' ');
    FirstLettersOfNonEmpty(pieces[..Seqs.Min(2, |pieces|)]);
    if u.displayName.value == "" {
      assert Split("", ' ') == [[]];
      assert FirstLetters([[]]) == [] + FirstLetters([]);
    }
  }

  /** A two-word display name "a b" gives the two capitals; a one-word name gives one. */
  lemma InitialsOfWords(u: User, a: string, b: string)
    requires a != [] && b != [] && ' ' !in a && ' ' !in b
    ensures u.displayName == Some(a + " " + b) ==> Initials(u) == [UpperChar(a[0]), UpperChar(b[0])]
    ensures u.displayName == Some(a) ==> Initials(u) == [UpperChar(a[0])]
  {
    SplitPair(a, b, ' ');
    assert a + [' '] + b == a + " " + b;
    SplitWithoutDelimiter(a, ' ');
    var ab := [a, b];
    assert ab[..2] == ab;
    assert FirstLetters(ab) == [UpperChar(a[0])] + FirstLetters([b]);
    assert FirstLetters([b]) == [UpperChar(b[0])] + FirstLetters([]);
    assert [a][..1] == [a];
    assert FirstLetters([a]) == [UpperChar(a[0])] + FirstLetters([]);
  }

  /** An empty piece among the first two costs its letter: a doubled space
      after the first word, or a leading space, leaves one initial. */
  lemma InitialsSkipEmptyPieces(u: User, a: string, b: string)
    requires a != [] && ' ' !in a
    ensures u.displayName == Some(a + "  " + b) ==> Initials(u) == [UpperChar(a[0])]
    ensures u.displayName == Some(" " + a) ==> Initials(u) == [UpperChar(a[0])]
  {
    if u.displayName == Some(a + "  " + b) {
      var sb := Split(b, ' ');
      assert (" " + b)[1..] == b && ("  " + b)[1..] == " " + b;
      assert Split(" " + b, ' ') == [[]] + sb;
      var t := Split("  " + b, ' ');
      assert t == [[]] + ([[]] + sb);
      assert a + "  " + b == a + ("  " + b);
      SplitPrefix(a, "  " + b, ' ');
      var pieces := Split(a + "  " + b, ' ');
      assert a + t[0] == a;
      assert pieces == [a] + t[1..];
      assert pieces[..2] == [a, []];
      assert FirstLetters([a, []]) == [UpperChar(a[0])] + FirstLetters([[]]);
      assert FirstLetters([[]]) == [] + FirstLetters([]);
    }
    if u.displayName == Some(" " + a) {
      SplitWithoutDelimiter(a, ' ');
      assert (" " + a)[1..] == a;
      assert Split(" " + a, ' ') == [[]] + [a];
      assert Split(" " + a, ' ')[..2] == [[], a];
      assert FirstLetters([[], a]) == [] + FirstLetters([a]);
      assert FirstLetters([a]) == [UpperChar(a[0])] + FirstLetters([]);
    }
  }

  /** Without a display name, the initial is the e-mail's first character upper-cased, or "U". */
  lemma InitialsOfEmail(u: User)
    requires u.displayName.None?
    ensures |Initials(u)| == 1
    ensures u.email == [] ==> Initials(u) == "U"
    ensures u.email != [] ==> Initials(u)[0] == UpperChar(u.email[0])
  {
  }

  /** `User.displayNameOrEmail`. */
  function DisplayNameOrEmail(u: User): string {
    u.displayName.GetOr(SubstringBefore(u.email, '@'))
  }

  /** The display name when there is one; else the e-mail up to its first '@',
      or the whole e-mail when it has none. */
  lemma DisplayNameOrEmailMeans(u: User)
    ensures u.displayName.Some? ==> DisplayNameOrEmail(u) == u.displayName.value
    ensures u.displayName.None? ==>
      var r := DisplayNameOrEmail(u);
      r <= u.email && '@' !in r &&
      ('@' in u.email ==> |r| < |u.email| && u.email[|r|] == '@') &&
      ('@' !in u.email ==> r == u.email)
  {
    if u.displayName.None? {
      var r := SubstringBefore(u.email, '@');
      if '@' !in u.email {
        assert |r| == |u.email|;
      }
    }
  }
}
