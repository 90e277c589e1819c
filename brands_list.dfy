/** `getImageUrl` of frontend/src/shared/components/BrandsList.tsx: the logo
    path for a brand name.

    The source chains `toLowerCase()`, removal of every '-', removal of every
    run of `\s`, `normalize("NFD")` and removal of U+0300..U+036F. The model
    is exact for names written in Latin-1 (U+0000..U+00FF): lower-casing maps
    A-Z and the upper-case letters U+00C0..U+00DE (except U+00D7) to their
    lower-case forms, and NFD splits each accented lower-case letter into its
    base letter and its combining mark. */
module BrandsList {
  import opened Common

  /** The block U+0300..U+036F that the source strips after NFD. */
  predicate IsCombiningMark(c: char) { '\U{0300}' <= c <= '\U{036F}' }

  /** Upper-case letters of Latin-1 other than A-Z: À..Þ without ×. */
  predicate IsLatin1Upper(c: char) { '\U{00C0}' <= c <= '\U{00DE}' && c != '\U{00D7}' }

  /** `toLowerCase` on one character. */
  function LowerChar(c: char): (r: char)
    ensures !IsAsciiUpper(r) && !IsLatin1Upper(r)
  {
    if IsAsciiUpper(c) || IsLatin1Upper(c) then ((c as int) + 32) as char else c
  }

  /** Canonical decomposition of the accented lower-case Latin-1 letters:
      base letter and combining mark. */
  function Decompose(c: char): (r: Option<(char, char)>)
    ensures r.Some? ==> 'a' <= r.value.0 <= 'z' && IsCombiningMark(r.value.1)
    ensures r.Some? ==> '\U{00E0}' <= c <= '\U{00FF}'
  {
    if c < '\U{00E0}' || '\U{00FF}' < c then None
    else if c == '\U{00E0}' then Some(('a', '\U{0300}'))  // à
    else if c == '\U{00E1}' then Some(('a', '\U{0301}'))  // á
    else if c == '\U{00E2}' then Some(('a', '\U{0302}'))  // â
    else if c == '\U{00E3}' then Some(('a', '\U{0303}'))  // ã
    else if c == '\U{00E4}' then Some(('a', '\U{0308}'))  // ä
    else if c == '\U{00E5}' then Some(('a', '\U{030A}'))  // å
    else if c == '\U{00E7}' then Some(('c', '\U{0327}'))  // ç
    else if c == '\U{00E8}' then Some(('e', '\U{0300}'))  // è
    else if c == '\U{00E9}' then Some(('e', '\U{0301}'))  // é
    else if c == '\U{00EA}' then Some(('e', '\U{0302}'))  // ê
    else if c == '\U{00EB}' then Some(('e', '\U{0308}'))  // ë
    else if c == '\U{00EC}' then Some(('i', '\U{0300}'))  // ì
    else if c == '\U{00ED}' then Some(('i', '\U{0301}'))  // í
    else if c == '\U{00EE}' then Some(('i', '\U{0302}'))  // î
    else if c == '\U{00EF}' then Some(('i', '\U{0308}'))  // ï
    else if c == '\U{00F1}' then Some(('n', '\U{0303}'))  // ñ
    else if c == '\U{00F2}' then Some(('o', '\U{0300}'))  // ò
    else if c == '\U{00F3}' then Some(('o', '\U{0301}'))  // ó
    else if c == '\U{00F4}' then Some(('o', '\U{0302}'))  // ô
    else if c == '\U{00F5}' then Some(('o', '\U{0303}'))  // õ
    else if c == '\U{00F6}' then Some(('o', '\U{0308}'))  // ö
    else if c == '\U{00F9}' then Some(('u', '\U{0300}'))  // ù
    else if c == '\U{00FA}' then Some(('u', '\U{0301}'))  // ú
    else if c == '\U{00FB}' then Some(('u', '\U{0302}'))  // û
    else if c == '\U{00FC}' then Some(('u', '\U{0308}'))  // ü
    else if c == '\U{00FD}' then Some(('y', '\U{0301}'))  // ý
    else if c == '\U{00FF}' then Some(('y', '\U{0308}'))  // ÿ
    else None
  }

  /** `toLowerCase()` */
  function ToLower(s: string): (r: string)
    ensures |r| == |s| && forall i :: 0 <= i < |s| ==> r[i] == LowerChar(s[i])
  {
    if s == [] then [] else [LowerChar(s[0])] + ToLower(s[1..])
  }

  /** The three character classes the source deletes with `replace`. */
  datatype Deleted = Hyphens | Whitespace | Marks {
    predicate Selects(c: char) {
      match this
      case Hyphens => c == '-'
      case Whitespace => IsJsWhitespace(c)
      case Marks => IsCombiningMark(c)
    }
  }

  /** Keep the characters `drop` does not select, in order. */
  function Filter(s: string, drop: Deleted): string {
    if s == [] then [] else (if drop.Selects(s[0]) then [] else [s[0]]) + Filter(s[1..], drop)
  }

  /** `replace(/-/g, '')` */
  function RemoveHyphens(s: string): string {
    Filter(s, Hyphens)
  }

  /** `replace(/\s+/g, '')`: removing every run of white space removes every
      white-space character. */
  function RemoveWhitespace(s: string): string {
    Filter(s, Whitespace)
  }

  /** `normalize("NFD")` */
  function Nfd(s: string): string {
    if s == [] then []
    else (match Decompose(s[0]) case Some(p) => [p.0, p.1] case None => [s[0]]) + Nfd(s[1..])
  }

  /** `replace(/[̀-ͯ]/g, "")` */
  function StripMarks(s: string): string {
    Filter(s, Marks)
  }

  /** The `formattedName` of the source. */
  function FormatBrandName(name: string): string {
    StripMarks(Nfd(RemoveWhitespace(RemoveHyphens(ToLower(name)))))
  }

  /** `getImageUrl` */
  function ImageUrl(brandName: string): string {
    "/brands/" + FormatBrandName(brandName) + ".png"
  }

  /** A character that can appear in a formatted name. */
  predicate IsFormattedChar(c: char) {
    && !IsAsciiUpper(c) && !IsLatin1Upper(c)
    && c != '-' && !IsJsWhitespace(c)
    && Decompose(c).None? && !IsCombiningMark(c)
  }

  /** Filtering keeps exactly the members `drop` does not select. */
  lemma {:induction false} FilterMembers(s: string, drop: Deleted)
    ensures forall c :: c in Filter(s, drop) <==> c in s && !drop.Selects(c)
  {
    if s != [] {
      FilterMembers(s[1..], drop);
      assert s == [s[0]] + s[1..];
    }
  }

  /** After NFD every character is an undecomposable one of the input, a
      base letter or a combining mark. */
  lemma {:induction false} NfdMembers(s: string)
    ensures forall c :: c in Nfd(s) ==>
      (c in s && Decompose(c).None?) || ('a' <= c <= 'z') || IsCombiningMark(c)
  {
    if s != [] {
      NfdMembers(s[1..]);
      assert s == [s[0]] + s[1..];
    }
  }

  lemma AsciiLowerFormatted(c: char)
    requires 'a' <= c <= 'z'
    ensures IsFormattedChar(c)
  {
  }

  /** Before NFD the name has no upper-case letter, no '-' and no white space. */
  lemma PreNfdClean(name: string)
    ensures forall c :: c in RemoveWhitespace(RemoveHyphens(ToLower(name))) ==>
      !IsAsciiUpper(c) && !IsLatin1Upper(c) && c != '-' && !IsJsWhitespace(c)
  {
    FilterMembers(ToLower(name), Hyphens);
    FilterMembers(RemoveHyphens(ToLower(name)), Whitespace);
  }

  /** The formatted name is lower-case, has no '-', no white space, no
      accented letter and no combining mark. */
  lemma FormattedNameIsClean(name: string)
    ensures forall c :: c in FormatBrandName(name) ==> IsFormattedChar(c)
  {
    var spaced := RemoveWhitespace(RemoveHyphens(ToLower(name)));
    PreNfdClean(name);
    var split := Nfd(spaced);
    NfdMembers(spaced);
    FilterMembers(split, Marks);
    forall c | c in StripMarks(split)
      ensures IsFormattedChar(c)
    {
      assert c in split && !IsCombiningMark(c);
      if 'a' <= c <= 'z' {
        AsciiLowerFormatted(c);
      } else {
        assert c in spaced && Decompose(c).None?;
      }
    }
  }

  lemma {:induction false} FilterAppend(a: string, b: string, drop: Deleted)
    ensures Filter(a + b, drop) == Filter(a, drop) + Filter(b, drop)
  {
    if a != [] {
      var head := if drop.Selects(a[0]) then [] else [a[0]];
      assert (a + b)[0] == a[0] && (a + b)[1..] == a[1..] + b;
      assert Filter(a + b, drop) == head + Filter(a[1..] + b, drop);
      FilterAppend(a[1..], b, drop);
      AppendAssoc(head, Filter(a[1..], drop), Filter(b, drop));
    } else {
      assert a + b == b;
    }
  }

  lemma {:induction false} FilterKeepsAll(s: string, drop: Deleted)
    requires forall c :: c in s ==> !drop.Selects(c)
    ensures Filter(s, drop) == s
  {
    if s != [] {
      assert forall c :: c in s[1..] ==> c in s;
      FilterKeepsAll(s[1..], drop);
    }
  }

  lemma {:induction false} NfdAppend(a: string, b: string)
    ensures Nfd(a + b) == Nfd(a) + Nfd(b)
  {
    if a != [] {
      var head := match Decompose(a[0]) case Some(p) => [p.0, p.1] case None => [a[0]];
      assert (a + b)[0] == a[0] && (a + b)[1..] == a[1..] + b;
      assert Nfd(a + b) == head + Nfd(a[1..] + b);
      NfdAppend(a[1..], b);
      AppendAssoc(head, Nfd(a[1..]), Nfd(b));
    } else {
      assert a + b == b;
    }
  }

  lemma {:induction false} NfdKeepsUndecomposable(s: string)
    requires forall c :: c in s ==> Decompose(c).None?
    ensures Nfd(s) == s
  {
    if s != [] {
      assert forall c :: c in s[1..] ==> c in s;
      NfdKeepsUndecomposable(s[1..]);
    }
  }

  /** Formatting leaves a name made of formatted characters unchanged. */
  lemma FormatKeepsCleanName(s: string)
    requires forall c :: c in s ==> IsFormattedChar(c)
    ensures FormatBrandName(s) == s
  {
    forall i | 0 <= i < |s|
      ensures ToLower(s)[i] == s[i]
    {
      assert s[i] in s;
      assert !IsAsciiUpper(s[i]) && !IsLatin1Upper(s[i]);
    }
    assert ToLower(s) == s;
    FilterKeepsAll(s, Hyphens);
    FilterKeepsAll(s, Whitespace);
    NfdKeepsUndecomposable(s);
    FilterKeepsAll(s, Marks);
  }

  /** Formatting is idempotent. */
  lemma FormatIdempotent(name: string)
    ensures FormatBrandName(FormatBrandName(name)) == FormatBrandName(name)
  {
    FormattedNameIsClean(name);
    FormatKeepsCleanName(FormatBrandName(name));
  }

  /** The logo path always has the shape "/brands/<formatted>.png". */
  lemma ImageUrlShape(brandName: string)
    ensures StartsWith(ImageUrl(brandName), "/brands/")
    ensures var u := ImageUrl(brandName);
      |u| >= 12 && u[|u| - 4..] == ".png"
      && u[8..|u| - 4] == FormatBrandName(brandName)
  {
  }

  /** Formatting works character by character on the modelled alphabet. */
  lemma FormatAppend(a: string, b: string)
    ensures FormatBrandName(a + b) == FormatBrandName(a) + FormatBrandName(b)
  {
    assert ToLower(a + b) == ToLower(a) + ToLower(b);
    FilterAppend(ToLower(a), ToLower(b), Hyphens);
    var h1, h2 := RemoveHyphens(ToLower(a)), RemoveHyphens(ToLower(b));
    FilterAppend(h1, h2, Whitespace);
    var w1, w2 := RemoveWhitespace(h1), RemoveWhitespace(h2);
    NfdAppend(w1, w2);
    FilterAppend(Nfd(w1), Nfd(w2), Marks);
  }

  /** A name that lower-cases to plain letters a-z formats to that. */
  lemma FormatOfLowerAscii(s: string, lowered: string)
    requires ToLower(s) == lowered
    requires forall i :: 0 <= i < |lowered| ==> 'a' <= lowered[i] <= 'z'
    ensures FormatBrandName(s) == lowered
  {
    forall c | c in lowered
      ensures IsFormattedChar(c)
    {
      AsciiLowerFormatted(c);
    }
    FormatKeepsCleanName(lowered);
    assert ToLower(lowered) == lowered;
  }

  lemma FilterSingle(c: char, drop: Deleted)
    ensures Filter([c], drop) == if drop.Selects(c) then [] else [c]
  {
    assert [c][1..] == [];
  }

  /** One character of a name, formatted. */
  lemma FormatSingle(c: char)
    ensures FormatBrandName([c]) ==
      var l := LowerChar(c);
      if l == '-' || IsJsWhitespace(l) then []
      else match Decompose(l)
        case Some(p) => [p.0]
        case None => if IsCombiningMark(l) then [] else [l]
  {
    var l := LowerChar(c);
    assert [c][1..] == [] && ToLower([c]) == [l];
    FilterSingle(l, Hyphens);
    FilterSingle(l, Whitespace);
    if l != '-' && !IsJsWhitespace(l) {
      assert [l][1..] == [];
      match Decompose(l)
      case Some(p) =>
        assert Nfd([l]) == [p.0, p.1];
        FilterAppend([p.0], [p.1], Marks);
        FilterSingle(p.0, Marks);
        FilterSingle(p.1, Marks);
        assert [p.0, p.1] == [p.0] + [p.1];
      case None =>
        assert Nfd([l]) == [l];
        FilterSingle(l, Marks);
    }
  }

  /** A hyphen or a white-space character between two parts disappears and
      the parts format on their own ("Mercedes-Benz", "Land Rover"). */
  lemma SeparatorDropped(a: string, sep: char, b: string)
    requires sep == '-' || IsJsWhitespace(sep)
    ensures FormatBrandName(a + [sep] + b) == FormatBrandName(a) + FormatBrandName(b)
  {
    FormatAppend(a + [sep], b);
    FormatAppend(a, [sep]);
    SeparatorVanishes(sep);
    assert FormatBrandName(a) + [] == FormatBrandName(a);
  }

  lemma SeparatorVanishes(sep: char)
    requires sep == '-' || IsJsWhitespace(sep)
    ensures FormatBrandName([sep]) == []
  {
    assert LowerChar(sep) == sep;
    FormatSingle(sep);
  }

  /** An accented letter, upper- or lower-case, becomes its base letter. */
  lemma AccentStripped(c: char)
    requires Decompose(LowerChar(c)).Some?
    ensures FormatBrandName([c]) == [Decompose(LowerChar(c)).value.0]
  {
    FormatSingle(c);
  }

  /** é becomes e. */
  lemma AcuteE()
    ensures FormatBrandName(['\U{00E9}']) == ['e']
  {
    AccentStripped('\U{00E9}');
  }

  /** Ñ becomes n. */
  lemma TildeN()
    ensures FormatBrandName(['\U{00D1}']) == ['n']
  {
    AccentStripped('\U{00D1}');
  }

  /** Ç becomes c. */
  lemma CedillaC()
    ensures FormatBrandName(['\U{00C7}']) == ['c']
  {
    AccentStripped('\U{00C7}');
  }

  /** The logo paths that frontend/src/app/page.tsx writes by hand for BMW,
      Audi and Porsche are "/brands/" + these names + ".png". */
  lemma BmwName()
    ensures FormatBrandName("BMW") == "bmw"
  {
    FormatOfLowerAscii("BMW", "bmw");
  }

  lemma AudiName()
    ensures FormatBrandName("Audi") == "audi"
  {
    FormatOfLowerAscii("Audi", "audi");
  }

  lemma PorscheName()
    ensures FormatBrandName("Porsche") == "porsche"
  {
    FormatOfLowerAscii("Porsche", "porsche");
  }

  /** The hand-written "/brands/mercedesbenz.png" of the home page is what
      `getImageUrl` gives for two letter-only words joined by '-'. */
  lemma HyphenatedLogo(a: string, b: string, la: string, lb: string)
    requires ToLower(a) == la && ToLower(b) == lb
    requires forall i :: 0 <= i < |la| ==> 'a' <= la[i] <= 'z'
    requires forall i :: 0 <= i < |lb| ==> 'a' <= lb[i] <= 'z'
    ensures ImageUrl(a + "-" + b) == "/brands/" + la + lb + ".png"
  {
    SeparatorDropped(a, '-', b);
    FormatOfLowerAscii(a, la);
    FormatOfLowerAscii(b, lb);
  }

  /** The two words of "Mercedes-Benz" lower-case to plain letters. */
  lemma MercedesBenzWords()
    ensures ToLower("Mercedes") == "mercedes" && ToLower("Benz") == "benz"
    ensures forall i :: 0 <= i < |"mercedes"| ==> 'a' <= "mercedes"[i] <= 'z'
    ensures forall i :: 0 <= i < |"benz"| ==> 'a' <= "benz"[i] <= 'z'
  {
    var lm := ToLower("Mercedes");
    assert LowerChar('M') == 'm' && LowerChar('B') == 'b';
    assert lm[0] == 'm' && lm[1..] == "ercedes";
    var lb := ToLower("Benz");
    assert lb[0] == 'b' && lb[1..] == "enz";
  }

  /** "Mercedes-Benz" is "Mercedes", '-' and "Benz", and its logo path is
      made of the two lower-cased words. The strings are parameters so that
      the solver works with the pieces and does not unfold the functions on
      the whole literal. */
  lemma MercedesBenzPieces(name: string, url: string)
    requires name == "Mercedes-Benz" && url == "/brands/mercedesbenz.png"
    ensures ImageUrl(name) == url
  {
    var m, b := "Mercedes", "Benz";
    assert name == m + "-" + b;
    assert url == "/brands/" + "mercedes" + "benz" + ".png";
    MercedesBenzWords();
    HyphenatedLogo(m, b, "mercedes", "benz");
  }

  /** "Mercedes-Benz" gets the home page's "/brands/mercedesbenz.png". */
  lemma MercedesBenzLogo()
    ensures ImageUrl("Mercedes-Benz") == "/brands/mercedesbenz.png"
  {
    MercedesBenzPieces("Mercedes-Benz", "/brands/mercedesbenz.png");
  }
}
