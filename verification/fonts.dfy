/** The typeface resolver: a family name that may end in a weight/style
    tag ("Arial Bold Italic") is split into a family and a weight and
    style, the explicit Bold/Italic flags filling in what the tag leaves
    open; font metrics scale linearly with the em height. */
module Fonts {
  import opened Primitives

  datatype FontWeight = SemiLight | Light | Normal | SemiBold | Bold | Black
  datatype FontStyle = Normal | Italic

  /** The parts of `XFont` the bridge reads. */
  datatype XFont = XFont(familyName: string, emSize: real, bold: bool, italic: bool, underline: bool, strikeout: bool)

  /** `char.IsWhiteSpace`: the Unicode space separators, line and paragraph
      separators, and the controls U+0009..U+000D and U+0085. */
  predicate IsWhiteSpace(c: char) {
    || c == ' ' || ('\t' <= c <= '\r') || c == '\U{0085}' || c == '\U{00A0}' || c == '\U{1680}'
    || ('\U{2000}' <= c <= '\U{200A}') || c == '\U{2028}' || c == '\U{2029}' || c == '\U{202F}'
    || c == '\U{205F}' || c == '\U{3000}'
  }

  predicate AllWhiteSpace(s: string) {
    forall i :: 0 <= i < |s| ==> IsWhiteSpace(s[i])
  }

  /** Neither end of `s` is white space. */
  predicate IsTrimmed(s: string) {
    s == [] || (!IsWhiteSpace(s[0]) && !IsWhiteSpace(s[|s| - 1]))
  }

  function TrimStart(s: string): (r: string)
    ensures |r| <= |s| && r == s[|s| - |r|..]
    ensures AllWhiteSpace(s[..|s| - |r|])
    ensures r == [] || !IsWhiteSpace(r[0])
  {
    if s != [] && IsWhiteSpace(s[0]) then
      var r := TrimStart(s[1..]);
      TrimStartStep(s, r);
      r
    else s
  }

  function TrimEnd(s: string): (r: string)
    ensures |r| <= |s| && r == s[..|r|]
    ensures AllWhiteSpace(s[|r|..])
    ensures r == [] || !IsWhiteSpace(r[|r| - 1])
  {
    if s != [] && IsWhiteSpace(s[|s| - 1]) then
      var r := TrimEnd(s[..|s| - 1]);
      TrimEndStep(s, r);
      r
    else s
  }

  /** A white-space character in front of a string whose leading white
      space is cut to `r` is cut as well. */
  lemma TrimStartStep(s: string, r: string)
    requires s != [] && IsWhiteSpace(s[0])
    requires |r| <= |s| - 1 && r == s[1..][|s| - 1 - |r|..] && AllWhiteSpace(s[1..][..|s| - 1 - |r|])
    ensures |r| <= |s| && r == s[|s| - |r|..]
    ensures AllWhiteSpace(s[..|s| - |r|])
  {
    assert s[1..][|s| - 1 - |r|..] == s[|s| - |r|..];
    var lead, rest := s[..|s| - |r|], s[1..][..|s| - 1 - |r|];
    forall i | 0 <= i < |lead|
      ensures IsWhiteSpace(lead[i])
    {
      if i > 0 {
        assert lead[i] == rest[i - 1];
      }
    }
  }

  /** A white-space character after a string whose trailing white space is
      cut to `r` is cut as well. */
  lemma TrimEndStep(s: string, r: string)
    requires s != [] && IsWhiteSpace(s[|s| - 1])
    requires |r| <= |s| - 1 && r == s[..|s| - 1][..|r|] && AllWhiteSpace(s[..|s| - 1][|r|..])
    ensures |r| <= |s| && r == s[..|r|]
    ensures AllWhiteSpace(s[|r|..])
  {
    assert s[..|s| - 1][..|r|] == s[..|r|];
    forall i | 0 <= i < |s| - |r|
      ensures IsWhiteSpace(s[|r|..][i])
    {
      if i < |s| - 1 - |r| {
        assert s[|r|..][i] == s[..|s| - 1][|r|..][i];
      }
    }
  }

  /** `r` is `s` with `lead` white-space characters cut from its start and
      only white space cut from its end. */
  predicate StripsWhiteSpace(s: string, r: string, lead: nat) {
    && lead + |r| <= |s| && r == s[lead..lead + |r|]
    && AllWhiteSpace(s[..lead]) && AllWhiteSpace(s[lead + |r|..])
  }

  /** `string.Trim()`: `s` with its leading and trailing white space removed,
      and nothing else. */
  function Trim(s: string): (r: string)
    ensures IsTrimmed(r)
    ensures StripsWhiteSpace(s, r, |s| - |TrimStart(s)|)
  {
    var t := TrimStart(s);
    assert |t| <= |s| && t == s[|s| - |t|..] && AllWhiteSpace(s[..|s| - |t|]) && (t == [] || !IsWhiteSpace(t[0]));
    var r := TrimEnd(t);
    assert |r| <= |t| && r == t[..|r|] && AllWhiteSpace(t[|r|..]) && (r == [] || !IsWhiteSpace(r[|r| - 1]));
    TrimParts(s, t, r);
    r
  }

  /** Cutting a white-space run from each end of `s` leaves an infix. */
  lemma TrimParts(s: string, t: string, r: string)
    requires |t| <= |s| && t == s[|s| - |t|..] && AllWhiteSpace(s[..|s| - |t|]) && (t == [] || !IsWhiteSpace(t[0]))
    requires |r| <= |t| && r == t[..|r|] && AllWhiteSpace(t[|r|..]) && (r == [] || !IsWhiteSpace(r[|r| - 1]))
    ensures IsTrimmed(r)
    ensures StripsWhiteSpace(s, r, |s| - |t|)
  {
    var lead := |s| - |t|;
    assert r == [] || r[0] == t[0];
    assert t[|r|..] == s[lead + |r|..];
  }

  /** A string with no white space at either end is its own trim, so
      trimming is idempotent. */
  lemma {:induction false} TrimOfTrimmed(s: string)
    requires IsTrimmed(s)
    ensures Trim(s) == s
    ensures Trim(Trim(s)) == Trim(s)
  {
  }

  /** Ordinal `EndsWith`. */
  predicate EndsWith(s: string, suffix: string) {
    |suffix| <= |s| && s[|s| - |suffix|..] == suffix
  }

  /** One row of `fontTags`: a name suffix and the weight and style it
      stands for (either may be null). */
  datatype FontTag = FontTag(suffix: string, weight: Option<FontWeight>, style: Option<FontStyle>)

  /** `Typefaces.fontTags`, in table order. */
  const FontTags: seq<FontTag> := [
    FontTag("Black", Some(FontWeight.Black), None),
    FontTag("Black Italic", Some(FontWeight.Black), Some(Italic)),
    FontTag("Bold", Some(Bold), None),
    FontTag("Bold Italic", Some(Bold), Some(Italic)),
    FontTag("Light", Some(Light), None),
    FontTag("Light Italic", Some(Light), Some(Italic)),
    FontTag("Semibold", Some(SemiBold), None),
    FontTag("Semibold Italic", Some(SemiBold), Some(Italic)),
    FontTag("Semilight", Some(SemiLight), None),
    FontTag("Semilight Italic", Some(SemiLight), Some(Italic))
  ]

  /** Every row names a weight, so a matched row always decides it. */
  lemma TagWeightsNamed()
    ensures |FontTags| == 10
    ensures forall i :: 0 <= i < |FontTags| ==> FontTags[i].weight.Some?
  {
  }

  /** A row names a style exactly when its suffix ends in " Italic", and
      that style is italic. */
  lemma TagStylesItalic()
    ensures forall i :: 0 <= i < |FontTags| ==> FontTags[i].style.Some? ==> FontTags[i].style.value == Italic
    ensures forall i :: 0 <= i < |FontTags| ==> (FontTags[i].style.Some? <==> EndsWith(FontTags[i].suffix, " Italic"))
  {
  }

  /** The first row of `tags` at or after `i` whose suffix ends `name`.
      The lookup is stated over any table so that its proofs never unfold
      the literal one. */
  function FirstTagFrom(tags: seq<FontTag>, name: string, i: nat): (r: Option<nat>)
    requires i <= |tags|
    ensures r.Some? ==> i <= r.value < |tags| && EndsWith(name, tags[r.value].suffix)
    decreases |tags| - i
  {
    if i == |tags| then None
    else if EndsWith(name, tags[i].suffix) then Some(i)
    else FirstTagFrom(tags, name, i + 1)
  }

  /** `FirstTagFrom` skips no matching row, and finds none exactly when no
      row from `i` on matches. */
  lemma {:induction false} FirstTagFromIsFirst(tags: seq<FontTag>, name: string, i: nat)
    requires i <= |tags|
    ensures var r := FirstTagFrom(tags, name, i);
      && (r.Some? ==> forall j :: i <= j < r.value ==> !EndsWith(name, tags[j].suffix))
      && (r.None? <==> forall j :: i <= j < |tags| ==> !EndsWith(name, tags[j].suffix))
    decreases |tags| - i
  {
    if i < |tags| {
      FirstTagFromIsFirst(tags, name, i + 1);
    }
  }

  /** A row that matches after a run of rows that do not is the one found. */
  lemma {:induction false} FirstTagFromFinds(tags: seq<FontTag>, name: string, i: nat, k: nat)
    requires i <= k < |tags| && EndsWith(name, tags[k].suffix)
    requires forall j :: i <= j < k ==> !EndsWith(name, tags[j].suffix)
    ensures FirstTagFrom(tags, name, i) == Some(k)
    decreases k - i
  {
    if i < k {
      FirstTagFromFinds(tags, name, i + 1, k);
    }
  }

  /** The first row of the tag table whose suffix ends `name`. */
  function FirstTag(name: string): (r: Option<nat>)
    ensures r.Some? ==> r.value < |FontTags| && EndsWith(name, FontTags[r.value].suffix)
    ensures r.Some? ==> forall j :: 0 <= j < r.value ==> !EndsWith(name, FontTags[j].suffix)
    ensures r.None? <==> forall j :: 0 <= j < |FontTags| ==> !EndsWith(name, FontTags[j].suffix)
  {
    FirstTagFromIsFirst(FontTags, name, 0);
    FirstTagFrom(FontTags, name, 0)
  }

  /** The family, weight and style `LookupTags` returns. */
  datatype TaggedName = TaggedName(family: string, weight: FontWeight, style: FontStyle)

  function DefaultWeight(bold: bool): FontWeight { if bold then Bold else FontWeight.Normal }
  function DefaultStyle(italic: bool): FontStyle { if italic then Italic else FontStyle.Normal }

  /** The tag lookup on an already trimmed name: the first table row whose
      suffix ends the name decides the family (the trimmed text before the
      suffix) and the weight, and the style unless the row leaves it open;
      with no match the name is kept and the flags decide. */
  function ResolveTrimmed(name: string, bold: bool, italic: bool): (r: TaggedName)
    requires IsTrimmed(name)
    ensures IsTrimmed(r.family)
    ensures |r.family| <= |name|
  {
    match FirstTag(name)
    case Some(i) =>
      var tag := FontTags[i];
      var trimmed := Trim(name[..|name| - |tag.suffix|]);
      TaggedName(trimmed, tag.weight.GetOr(DefaultWeight(bold)), tag.style.GetOr(DefaultStyle(italic)))
    case None =>
      TaggedName(name, DefaultWeight(bold), DefaultStyle(italic))
  }

  /** `LookupTags`: the family name is trimmed, then resolved against the
      tag table. */
  function LookupTags(font: XFont): (r: TaggedName)
    ensures IsTrimmed(r.family)
    ensures |r.family| <= |font.familyName|
  {
    ResolveTrimmed(Trim(font.familyName), font.bold, font.italic)
  }

  /** The Italic flag is never lost, and without it the style is italic
      only when the name carried an "… Italic" tag. */
  lemma ItalicFlagNeverLost(font: XFont)
    ensures font.italic ==> LookupTags(font).style == Italic
    ensures LookupTags(font).style == Italic <==>
      font.italic || (FirstTag(Trim(font.familyName)).Some? && FontTags[FirstTag(Trim(font.familyName)).value].style.Some?)
  {
    TagStylesItalic();
  }

  /** The Bold flag matters only when no tag matches: a matched tag always
      supplies the weight. */
  lemma WeightSource(font: XFont)
    ensures FirstTag(Trim(font.familyName)).None? ==> (LookupTags(font).weight == Bold <==> font.bold)
    ensures FirstTag(Trim(font.familyName)).Some? ==>
      LookupTags(font).weight == LookupTags(font.(bold := !font.bold)).weight
  {
    TagWeightsNamed();
  }

  /** If `t` ends `p + s`, then of `s` and `t` the shorter ends the
      longer. */
  lemma EndsWithAppend(p: string, s: string, t: string)
    requires EndsWith(p + s, t)
    ensures |t| <= |s| ==> EndsWith(s, t)
    ensures |t| > |s| ==> EndsWith(t, s)
  {
    var n := p + s;
    if |t| <= |s| {
      assert s[|s| - |t|..] == n[|n| - |t|..];
    } else {
      assert t[|t| - |s|..] == n[|n| - |s|..] == s;
    }
  }

  /** No row's suffix ends another row's suffix. */
  lemma TagSuffixesIndependent(i: nat, j: nat)
    requires i < |FontTags| && j < |FontTags| && i != j
    ensures !EndsWith(FontTags[i].suffix, FontTags[j].suffix)
  {
    if i < 3 {
      SuffixesIndependentBelow3(i, j);
    } else if i < 5 {
      SuffixesIndependentBelow5(i, j);
    } else if i < 8 {
      SuffixesIndependentBelow8(i, j);
    } else {
      SuffixesIndependentFrom8(i, j);
    }
  }

  /** `TagSuffixesIndependent` for the "Black", "Black Italic" and "Bold" rows. */
  lemma SuffixesIndependentBelow3(i: nat, j: nat)
    requires i < 3 && j < |FontTags| && i != j
    ensures !EndsWith(FontTags[i].suffix, FontTags[j].suffix)
  {
  }

  /** `TagSuffixesIndependent` for the "Bold Italic" and "Light" rows. */
  lemma SuffixesIndependentBelow5(i: nat, j: nat)
    requires 3 <= i < 5 && j < |FontTags| && i != j
    ensures !EndsWith(FontTags[i].suffix, FontTags[j].suffix)
  {
  }

  /** `TagSuffixesIndependent` for the "Light Italic", "Semibold" and
      "Semibold Italic" rows. */
  lemma SuffixesIndependentBelow8(i: nat, j: nat)
    requires 5 <= i < 8 && j < |FontTags| && i != j
    ensures !EndsWith(FontTags[i].suffix, FontTags[j].suffix)
  {
  }

  /** `TagSuffixesIndependent` for the two "Semilight" rows. */
  lemma SuffixesIndependentFrom8(i: nat, j: nat)
    requires 8 <= i < |FontTags| && j < |FontTags| && i != j
    ensures !EndsWith(FontTags[i].suffix, FontTags[j].suffix)
  {
  }

  /** Table order never hides a row: any text ending in row i's suffix
      selects row i. */
  lemma {:induction false} EveryTagReachable(prefix: string, i: nat)
    requires i < |FontTags|
    ensures FirstTag(prefix + FontTags[i].suffix) == Some(i)
  {
    var name := prefix + FontTags[i].suffix;
    forall j | 0 <= j < i
      ensures !EndsWith(name, FontTags[j].suffix)
    {
      if EndsWith(name, FontTags[j].suffix) {
        EndsWithAppend(prefix, FontTags[i].suffix, FontTags[j].suffix);
        TagSuffixesIndependent(i, j);
        TagSuffixesIndependent(j, i);
      }
    }
    assert EndsWith(name, FontTags[i].suffix);
    FirstTagFromFinds(FontTags, name, 0, i);
  }

  /** A trimmed name whose first matching row is `i` resolves to that row. */
  lemma LookupOfMatch(font: XFont, i: nat, family: string)
    requires IsTrimmed(font.familyName) && i < |FontTags|
    requires FirstTag(font.familyName) == Some(i)
    requires Trim(font.familyName[..|font.familyName| - |FontTags[i].suffix|]) == family
    ensures LookupTags(font) == TaggedName(family, FontTags[i].weight.GetOr(DefaultWeight(font.bold)), FontTags[i].style.GetOr(DefaultStyle(font.italic)))
  {
    TrimOfTrimmed(font.familyName);
  }

  /** `"<family> <tag>"` resolves to the family and the tag's weight, with
      the tag's style or else the Italic flag. */
  lemma FamilyWithTag(family: string, i: nat, bold: bool, italic: bool, emSize: real)
    requires family != [] && IsTrimmed(family) && i < |FontTags|
    ensures var font := XFont(family + " " + FontTags[i].suffix, emSize, bold, italic, false, false);
      LookupTags(font) == TaggedName(family, FontTags[i].weight.GetOr(DefaultWeight(bold)), FontTags[i].style.GetOr(DefaultStyle(italic)))
  {
    TagWeightsNamed();
    TagSuffixTrimmed(i);
    var suffix := FontTags[i].suffix;
    var name := family + " " + suffix;
    assert name[0] == family[0] && name[|name| - 1] == suffix[|suffix| - 1];
    assert name == (family + " ") + suffix;
    EveryTagReachable(family + " ", i);
    assert name[..|name| - |suffix|] == family + " ";
    TrimOfSpaceEnded(family);
    LookupOfMatch(XFont(name, emSize, bold, italic, false, false), i, family);
  }

  /** Every suffix is a non-empty trimmed word sequence. */
  lemma TagSuffixTrimmed(i: nat)
    requires i < |FontTags|
    ensures FontTags[i].suffix != [] && !IsWhiteSpace(FontTags[i].suffix[|FontTags[i].suffix| - 1])
  {
  }

  lemma TrimOfSpaceEnded(family: string)
    requires family != [] && IsTrimmed(family)
    ensures Trim(family + " ") == family
  {
    var s := family + " ";
    assert TrimStart(s) == s;
    assert s[..|s| - 1] == family;
    assert TrimEnd(s) == TrimEnd(family);
    TrimOfTrimmed(family);
  }

  /** A name carrying both tags resolves to the family, bold and italic. */
  lemma BoldItalicExample(name: string)
    requires name == "Arial Bold Italic"
    ensures LookupTags(XFont(name, 10.0, false, false, false, false)) == TaggedName("Arial", Bold, Italic)
  {
    assert IsTrimmed("Arial");
    assert "Arial" + " " + FontTags[3].suffix == name;
    FamilyWithTag("Arial", 3, false, false, 10.0);
  }

  /** An untagged name keeps the flags' weight and style. */
  lemma UntaggedExample(name: string)
    requires name == "Arial"
    ensures LookupTags(XFont(name, 10.0, true, false, false, false)) == TaggedName(name, Bold, FontStyle.Normal)
  {
    assert IsTrimmed(name);
    assert FirstTag(name).None?;
    LookupUntagged(XFont(name, 10.0, true, false, false, false));
  }

  /** Only the trimmed family name matters: white space around it changes
      nothing. */
  lemma LookupTagsIgnoresPadding(font: XFont)
    ensures LookupTags(font) == LookupTags(font.(familyName := Trim(font.familyName)))
  {
    TrimOfTrimmed(Trim(font.familyName));
  }

  /** Leading white space is exactly what `TrimStart` removes. */
  lemma {:induction false} TrimStartOfPadded(lead: string, t: string)
    requires AllWhiteSpace(lead) && (t == [] || !IsWhiteSpace(t[0]))
    ensures TrimStart(lead + t) == t
    decreases |lead|
  {
    if lead != [] {
      assert (lead + t)[1..] == lead[1..] + t;
      TrimStartOfPadded(lead[1..], t);
    } else {
      assert lead + t == t;
    }
  }

  /** Trailing white space is exactly what `TrimEnd` removes. */
  lemma {:induction false} TrimEndOfPadded(t: string, trail: string)
    requires AllWhiteSpace(trail) && (t == [] || !IsWhiteSpace(t[|t| - 1]))
    ensures TrimEnd(t + trail) == t
    decreases |trail|
  {
    if trail != [] {
      var u := t + trail;
      assert u[|u| - 1] == trail[|trail| - 1];
      assert u[..|u| - 1] == t + trail[..|trail| - 1];
      TrimEndOfPadded(t, trail[..|trail| - 1]);
    } else {
      assert t + trail == t;
    }
  }

  /** White space around a trimmed name is all `Trim` removes. */
  lemma TrimOfPadded(lead: string, m: string, trail: string)
    requires AllWhiteSpace(lead) && AllWhiteSpace(trail) && IsTrimmed(m)
    ensures Trim(lead + m + trail) == m
  {
    if m == [] {
      var w := lead + m + trail;
      assert AllWhiteSpace(w) && w + [] == w;
      TrimStartOfPadded(w, []);
    } else {
      assert lead + m + trail == lead + (m + trail);
      TrimStartOfPadded(lead, m + trail);
      TrimEndOfPadded(m, trail);
    }
  }

  /** `"<family> <tag>"` padded with white space on either side resolves as
      it does unpadded. */
  lemma PaddedFamilyWithTag(lead: string, family: string, i: nat, trail: string, bold: bool, italic: bool, emSize: real)
    requires AllWhiteSpace(lead) && AllWhiteSpace(trail)
    requires family != [] && IsTrimmed(family) && i < |FontTags|
    ensures var font := XFont(lead + (family + " " + FontTags[i].suffix) + trail, emSize, bold, italic, false, false);
      LookupTags(font) == TaggedName(family, FontTags[i].weight.GetOr(DefaultWeight(bold)), FontTags[i].style.GetOr(DefaultStyle(italic)))
  {
    var name := family + " " + FontTags[i].suffix;
    TagSuffixTrimmed(i);
    assert name[0] == family[0] && name[|name| - 1] == FontTags[i].suffix[|FontTags[i].suffix| - 1];
    TrimOfPadded(lead, name, trail);
    var font := XFont(lead + name + trail, emSize, bold, italic, false, false);
    LookupTagsIgnoresPadding(font);
    FamilyWithTag(family, i, bold, italic, emSize);
  }

  /** Surrounding white space is dropped before the suffix is matched. */
  lemma PaddedExample(padded: string)
    requires padded == "  Arial Semibold Italic "
    ensures LookupTags(XFont(padded, 10.0, false, false, false, false)) == TaggedName("Arial", SemiBold, Italic)
  {
    PaddedExampleSplits(padded);
    PaddedExamplePieces();
    PaddedFamilyWithTag("  ", "Arial", 7, " ", false, false, 10.0);
  }

  /** The padded example is white space, a family, a space, the
      "Semibold Italic" row's suffix and white space. */
  lemma PaddedExampleSplits(padded: string)
    requires padded == "  Arial Semibold Italic "
    ensures padded == "  " + ("Arial" + " " + FontTags[7].suffix) + " "
  {
  }

  /** The pieces of the padded example are padding and a trimmed family. */
  lemma PaddedExamplePieces()
    ensures AllWhiteSpace("  ") && AllWhiteSpace(" ") && IsTrimmed("Arial")
  {
  }

  /** A trimmed name that no row matches is kept whole; the flags alone
      decide weight and style. */
  lemma LookupUntagged(font: XFont)
    requires IsTrimmed(font.familyName) && FirstTag(font.familyName).None?
    ensures LookupTags(font) == TaggedName(font.familyName, DefaultWeight(font.bold), DefaultStyle(font.italic))
  {
    TrimOfTrimmed(font.familyName);
  }

  /** A bare "Italic" is no tag: the name is kept whole and only the flag
      makes it italic. */
  lemma BareItalicIsNoTag(name: string, italic: bool)
    requires name == "Arial Italic"
    ensures LookupTags(XFont(name, 10.0, false, italic, false, false))
      == TaggedName(name, FontWeight.Normal, DefaultStyle(italic))
  {
    BareItalicMatchesNoRow(name);
    UntaggedWhenNoRowMatches(XFont(name, 10.0, false, italic, false, false));
  }

  /** A trimmed name that no row's suffix ends keeps its family and takes
      the default weight and style. */
  lemma UntaggedWhenNoRowMatches(font: XFont)
    requires IsTrimmed(font.familyName)
    requires forall j :: 0 <= j < |FontTags| ==> !EndsWith(font.familyName, FontTags[j].suffix)
    ensures LookupTags(font) == TaggedName(font.familyName, DefaultWeight(font.bold), DefaultStyle(font.italic))
  {
    assert FirstTag(font.familyName).None?;
    LookupUntagged(font);
  }

  /** No row's suffix ends "Arial Italic": the italic rows all name a
      weight before " Italic". */
  lemma BareItalicMatchesNoRow(name: string)
    requires name == "Arial Italic"
    ensures IsTrimmed(name)
    ensures forall j :: 0 <= j < |FontTags| ==> !EndsWith(name, FontTags[j].suffix)
  {
    forall j | 0 <= j < |FontTags|
      ensures !EndsWith(name, FontTags[j].suffix)
    {
      var suffix := FontTags[j].suffix;
      if j % 2 == 0 {
        assert suffix[|suffix| - 1] != 'c';
      } else {
        assert |suffix| > |name| || name[|name| - |suffix|] != suffix[0];
      }
    }
  }

  /** The font's design units per em (a positive 16-bit value in practice). */
  type DesignUnits = x: int | 0 < x witness 1

  /** The parts of the glyph typeface's `FontMetrics` the resolver reads. */
  datatype FontMetrics = FontMetrics(designEmHeight: DesignUnits, ascent: int, descent: int)

  datatype Typeface = Typeface(family: string, style: FontStyle, weight: FontWeight)

  datatype TypefaceInfo = TypefaceInfo(typeface: Typeface, metrics: FontMetrics)

  /** `GetAscent`: the design ascent scaled to an em height. */
  function GetAscent(info: TypefaceInfo, fontEmHeight: real): (r: real)
    ensures fontEmHeight == info.metrics.designEmHeight as real ==> r == info.metrics.ascent as real
    ensures fontEmHeight == 0.0 ==> r == 0.0
  {
    fontEmHeight * info.metrics.ascent as real / info.metrics.designEmHeight as real
  }

  /** `GetDescent`: the design descent scaled to an em height. */
  function GetDescent(info: TypefaceInfo, fontEmHeight: real): (r: real)
    ensures fontEmHeight == info.metrics.designEmHeight as real ==> r == info.metrics.descent as real
    ensures fontEmHeight == 0.0 ==> r == 0.0
  {
    fontEmHeight * info.metrics.descent as real / info.metrics.designEmHeight as real
  }

  /** Both metrics are linear in the em height. */
  lemma MetricsLinear(info: TypefaceInfo, e1: real, e2: real, k: real)
    ensures GetAscent(info, k * e1 + e2) == k * GetAscent(info, e1) + GetAscent(info, e2)
    ensures GetDescent(info, k * e1 + e2) == k * GetDescent(info, e1) + GetDescent(info, e2)
  {
    var e := k * e1 + e2;
    MetricsAsRatio(info, e);
    MetricsAsRatio(info, e1);
    MetricsAsRatio(info, e2);
  }

  /** Each metric is the em height times a fixed ratio of the font. */
  lemma MetricsAsRatio(info: TypefaceInfo, e: real)
    ensures var d := info.metrics.designEmHeight as real;
      && GetAscent(info, e) == e * (info.metrics.ascent as real / d)
      && GetDescent(info, e) == e * (info.metrics.descent as real / d)
  {
    var d := info.metrics.designEmHeight as real;
    MulDiv(e, info.metrics.ascent as real, d);
    MulDiv(e, info.metrics.descent as real, d);
  }

  lemma MulDiv(e: real, m: real, d: real)
    requires d > 0.0
    ensures e * m / d == e * (m / d)
  {
  }

  /** The font system the resolver queries: its default family, and
      whether it has a glyph typeface (with metrics) for a typeface. */
  datatype FontManager = FontManager(defaultFamily: string, tryGetGlyphTypeface: Typeface -> Option<FontMetrics>)

  datatype TypefaceResult = Found(info: TypefaceInfo) | NoGlyphTypeface

  /** The typeface `LookupTags` asks for first. */
  function RequestedTypeface(font: XFont): Typeface {
    var tags := LookupTags(font);
    Typeface(tags.family, tags.style, tags.weight)
  }

  /** The same style and weight in the default family. */
  function FallbackTypeface(font: XFont, manager: FontManager): Typeface {
    RequestedTypeface(font).(family := manager.defaultFamily)
  }

  /** `GetTypefaceInfo` as written: the fallback branch builds the default
      family's typeface but queries the requested one a second time. */
  function GetTypefaceInfoAsWritten(font: XFont, manager: FontManager): (r: TypefaceResult)
    ensures r.Found? <==> manager.tryGetGlyphTypeface(RequestedTypeface(font)).Some?
    ensures r.Found? ==> r.info.typeface == RequestedTypeface(font)
  {
    var typeface := RequestedTypeface(font);
    match manager.tryGetGlyphTypeface(typeface)
    case Some(m) => Found(TypefaceInfo(typeface, m))
    case None =>
      var fallback := FallbackTypeface(font, manager);
      match manager.tryGetGlyphTypeface(typeface)
      case Some(m) => Found(TypefaceInfo(fallback, m))
      case None => NoGlyphTypeface
  }

  /** As written, the fallback can never succeed: whenever the requested
      typeface is missing the resolution fails, whatever the default family
      offers. */
  lemma AsWrittenFallbackNeverUsed(font: XFont, manager: FontManager)
    requires manager.tryGetGlyphTypeface(RequestedTypeface(font)).None?
    ensures GetTypefaceInfoAsWritten(font, manager) == NoGlyphTypeface
  {
  }

  /** `GetTypefaceInfo` with the fallback querying the default family's
      typeface, as the fallback branch evidently intends. */
  function GetTypefaceInfo(font: XFont, manager: FontManager): (r: TypefaceResult)
    ensures manager.tryGetGlyphTypeface(RequestedTypeface(font)).Some? ==>
      r == Found(TypefaceInfo(RequestedTypeface(font), manager.tryGetGlyphTypeface(RequestedTypeface(font)).value))
    ensures manager.tryGetGlyphTypeface(RequestedTypeface(font)).None? ==>
      match manager.tryGetGlyphTypeface(FallbackTypeface(font, manager))
      case Some(m) => r == Found(TypefaceInfo(FallbackTypeface(font, manager), m))
      case None => r == NoGlyphTypeface
    ensures r.Found? ==> r.info.typeface.style == LookupTags(font).style && r.info.typeface.weight == LookupTags(font).weight
  {
    var typeface := RequestedTypeface(font);
    match manager.tryGetGlyphTypeface(typeface)
    case Some(m) => Found(TypefaceInfo(typeface, m))
    case None =>
      var fallback := FallbackTypeface(font, manager);
      match manager.tryGetGlyphTypeface(fallback)
      case Some(m) => Found(TypefaceInfo(fallback, m))
      case None => NoGlyphTypeface
  }

  /** A font system whose only family is "Default". */
  function DefaultOnly(m: FontMetrics): FontManager {
    FontManager("Default", (t: Typeface) => if t.family == "Default" then Some(m) else None)
  }

  /** "Arial" is trimmed and no row's suffix ends it. */
  lemma FamilyMatchesNoRow(name: string)
    requires name == "Arial"
    ensures IsTrimmed(name)
    ensures forall j :: 0 <= j < |FontTags| ==> !EndsWith(name, FontTags[j].suffix)
  {
  }

  /** Asking for "Arial" from a system that has only its default family:
      as written the resolution fails, corrected it falls back. */
  lemma FallbackCounterexample(m: FontMetrics)
    ensures var font := XFont("Arial", 10.0, false, false, false, false);
      && GetTypefaceInfoAsWritten(font, DefaultOnly(m)) == NoGlyphTypeface
      && GetTypefaceInfo(font, DefaultOnly(m)) == Found(TypefaceInfo(Typeface("Default", FontStyle.Normal, FontWeight.Normal), m))
  {
    var font := XFont("Arial", 10.0, false, false, false, false);
    FamilyMatchesNoRow(font.familyName);
    UntaggedWhenNoRowMatches(font);
    assert RequestedTypeface(font) == Typeface("Arial", FontStyle.Normal, FontWeight.Normal);
    assert "Arial" != "Default";
  }
}
