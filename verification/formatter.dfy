/** `format_analysis_result`: turns the model's free text (or a static tip)
    into the HTML fragment shown on the Results and Assistant pages. */
module Formatter {
  import opened Wrappers
  import opened Text

  const Placeholder := "<p>No content to display.</p>"
  const SectionBreak := "\n\n\n\n"
  const LineBreak := "<br>"
  const StrengthTag := "[STRENGTH]"
  const WeaknessTag := "[WEAKNESS]"

  /** The glyphs deleted before splitting: `*`, `+` and the bullet `•` (U+2022). */
  predicate IsGlyph(c: char) {
    c == '*' || c == '+' || c == '\U{2022}'
  }

  predicate GlyphFree(s: string) {
    forall c :: c in s ==> !IsGlyph(c)
  }

  /** The deletions applied to the content before it is split, in source order
      (the second deletion of `*` finds nothing left to delete). */
  function Clean(content: string): (r: string)
    ensures GlyphFree(r)
    ensures forall c :: c in r ==> c in content
  {
    var noStar := Remove(content, "*");
    var noPlus := Remove(noStar, "+");
    var noBullet := Remove(noPlus, "\U{2022}");
    var noStarAgain := Remove(noBullet, "*");
    var noStrength := Remove(noStarAgain, StrengthTag);
    RemoveSpec(content, "*");
    RemoveSpec(noStar, "+");
    RemoveSpec(noPlus, "\U{2022}");
    RemoveSpec(noBullet, "*");
    RemoveSpec(noStarAgain, StrengthTag);
    RemoveSpec(noStrength, WeaknessTag);
    Remove(noStrength, WeaknessTag)
  }

  /** What one section between `"\n\n\n\n"` separators contributes: nothing
      when it is blank; its stripped first line followed by its non-blank
      stripped later lines when that first line ends in `:`; otherwise the
      whole stripped section, inner line breaks included. */
  function SectionLines(section: string): (r: seq<string>)
    ensures r == [] <==> AllSpace(section)
    ensures forall i :: 0 <= i < |r| ==> r[i] != [] && IsStripped(r[i])
  {
    StripSpec(section);
    var s := Strip(section);
    if s == [] then [] else StrippedSectionLines(s)
  }

  function StrippedSectionLines(s: string): (r: seq<string>)
    requires s != [] && IsStripped(s)
    ensures r != []
    ensures forall i :: 0 <= i < |r| ==> r[i] != [] && IsStripped(r[i])
  {
    HeadedLines(s, Split(s, "\n"))
  }

  /** The contribution of the stripped section `s`, given its `"\n"`-separated lines. */
  function HeadedLines(s: string, lines: seq<string>): (r: seq<string>)
    requires s != [] && IsStripped(s) && |lines| > 0
    ensures r != []
    ensures forall i :: 0 <= i < |r| ==> r[i] != [] && IsStripped(r[i])
  {
    var heading := Strip(lines[0]);
    if EndsWith(heading, ":") then [heading] + NonBlankLines(lines[1..])
    else [s]
  }

  /** The pieces the sections contribute, in input order. */
  function FormattedLines(sections: seq<string>): (r: seq<string>)
    ensures forall i :: 0 <= i < |r| ==> r[i] != [] && IsStripped(r[i])
    decreases |sections|
  {
    if |sections| == 0 then []
    else SectionLines(sections[0]) + FormattedLines(sections[1..])
  }

  /** `format_analysis_result(content)` for a `str` argument. */
  function FormatAnalysisResult(content: string): (r: string)
    ensures content == [] ==> r == Placeholder
    ensures content != [] ==> GlyphFree(r)
  {
    if content == [] then Placeholder
    else
      var sections := Split(Clean(content), SectionBreak);
      var lines := FormattedLines(sections);
      SplitJoin(Clean(content), SectionBreak);
      GlyphFreeParts(SectionBreak, sections);
      GlyphFreeLines(sections);
      GlyphFreeJoin(LineBreak, lines);
      Join(LineBreak, lines)
  }

  /** `format_analysis_result(content)` where `content` may be `None`, which
      the `not content` test treats like the empty string. */
  function FormatOptional(content: Option<string>): (r: string)
    ensures content.None? || content == Some([]) ==> r == Placeholder
    ensures content.Some? && content.value != [] ==> r == FormatAnalysisResult(content.value)
  {
    match content
    case None => Placeholder
    case Some(s) => FormatAnalysisResult(s)
  }

  /** `None` and `""` format alike: both fail the `not content` test. */
  lemma NoneLikeEmpty()
    ensures FormatOptional(None) == FormatOptional(Some([])) == FormatAnalysisResult([]) == Placeholder
  {
  }

  /** Text with no glyph and no tag passes the deletions unchanged. */
  lemma CleanKeeps(content: string)
    requires GlyphFree(content)
    requires !Contains(content, StrengthTag) && !Contains(content, WeaknessTag)
    ensures Clean(content) == content
  {
    MissingCharNoOccurrence(content, "*", '*');
    MissingCharNoOccurrence(content, "+", '+');
    MissingCharNoOccurrence(content, "\U{2022}", '\U{2022}');
    RemoveSpec(content, "*");
    RemoveSpec(content, "+");
    RemoveSpec(content, "\U{2022}");
    RemoveSpec(content, StrengthTag);
    RemoveSpec(content, WeaknessTag);
  }

  /** When the cleaned text is one plain line (stripped, no line break, not
      ending in `:`), that line is the whole result. */
  lemma PlainAfterClean(content: string)
    requires content != [] && Clean(content) != [] && IsStripped(Clean(content))
    requires '\n' !in Clean(content) && !EndsWith(Clean(content), ":")
    ensures FormatAnalysisResult(content) == Clean(content)
  {
    var t := Clean(content);
    MissingCharNoOccurrence(t, SectionBreak, '\n');
    SplitAbsent(t, SectionBreak);
    StripSpec(t);
    MissingCharNoOccurrence(t, "\n", '\n');
    SplitAbsent(t, "\n");
    assert FormattedLines([t]) == SectionLines(t) + FormattedLines([]);
  }

  /** One plain line (stripped, no line break, no glyph or tag, not ending
      in `:`) is shown exactly as written. */
  lemma PlainLine(content: string)
    requires content != [] && IsStripped(content) && '\n' !in content
    requires GlyphFree(content)
    requires !Contains(content, StrengthTag) && !Contains(content, WeaknessTag)
    requires !EndsWith(content, ":")
    ensures FormatAnalysisResult(content) == content
  {
    CleanKeeps(content);
    PlainAfterClean(content);
  }

  /** Text made only of glyphs formats to the empty string, which itself
      formats to the placeholder: formatting twice is not formatting once. */
  lemma NotIdempotent()
    ensures FormatAnalysisResult("***") == []
    ensures FormatAnalysisResult(FormatAnalysisResult("***")) == Placeholder
  {
    var s := "***";
    assert Remove(s[2..], "*") == [];
    assert Remove(s[1..], "*") == Remove(s[2..], "*");
    assert Clean(s) == [];
    assert Split([], SectionBreak) == [[]];
    assert FormattedLines([[]]) == SectionLines([]) + FormattedLines([]);
  }

  /** `[STR[WEAKNESS]ENGTH]`: a `[WEAKNESS]` tag inside the letters of `[STRENGTH]`. */
  function Spliced(): string {
    StrengthTag[..4] + WeaknessTag + StrengthTag[4..]
  }

  /** The tags are deleted in one pass each, so deleting `[WEAKNESS]` can
      assemble a `[STRENGTH]` that stays in the result. */
  lemma TagCanReappear()
    ensures FormatAnalysisResult(Spliced()) == StrengthTag
  {
    CleanSpliced();
    PlainAfterClean(Spliced());
  }

  lemma CleanSpliced()
    ensures Clean(Spliced()) == StrengthTag
  {
    var s := Spliced();
    SplicedFacts();
    RemoveSpec(s, "*");
    RemoveSpec(s, "+");
    RemoveSpec(s, "\U{2022}");
    RemoveSpec(s, StrengthTag);
    WeaknessDeletion();
  }

  lemma SplicedFacts()
    ensures !Contains(Spliced(), "*") && !Contains(Spliced(), "+") && !Contains(Spliced(), "\U{2022}")
    ensures !Contains(Spliced(), StrengthTag)
  {
    var s := Spliced();
    assert GlyphFree(s);
    MissingCharNoOccurrence(s, "*", '*');
    MissingCharNoOccurrence(s, "+", '+');
    MissingCharNoOccurrence(s, "\U{2022}", '\U{2022}');
    forall i | 0 <= i <= |s| - |StrengthTag| ensures !OccursAt(s, StrengthTag, i) {
      if i == 0 {
        assert s[4] != StrengthTag[4];
      } else if i == 4 {
        assert s[5] != StrengthTag[1];
      } else {
        assert s[i] != StrengthTag[0] by {
          if i == 1 {} else if i == 2 {} else if i == 3 {} else if i == 5 {} else if i == 6 {}
          else if i == 7 {} else if i == 8 {} else if i == 9 {} else {}
        }
      }
    }
  }

  lemma WeaknessDeletion()
    ensures Remove(Spliced(), WeaknessTag) == StrengthTag
  {
    var a, b := StrengthTag[..4], StrengthTag[4..];
    var s := Spliced();
    forall k | 0 <= k < |a| ensures !OccursAt(s, WeaknessTag, k) {
      if k == 0 {
        assert s[1] != WeaknessTag[1];
      } else {
        assert s[k] != WeaknessTag[0] by {
          if k == 1 {} else if k == 2 {} else {}
        }
      }
    }
    RemoveInserted(a, WeaknessTag, b);
    assert a + b == StrengthTag;
  }

  /** A heading line ending in `:` followed by one body line: the line
      break between them becomes `<br>`. */
  lemma HeadingAndLine(heading: string, line: string)
    requires heading != [] && IsStripped(heading) && EndsWith(heading, ":") && '\n' !in heading
    requires line != [] && IsStripped(line) && '\n' !in line
    requires GlyphFree(heading + "\n" + line)
    requires !Contains(heading + "\n" + line, StrengthTag) && !Contains(heading + "\n" + line, WeaknessTag)
    ensures FormatAnalysisResult(heading + "\n" + line) == heading + LineBreak + line
  {
    var content := heading + "\n" + line;
    CleanKeeps(content);
    OneLineBreak(heading, line);
    SplitAbsent(content, SectionBreak);
    HeadingSection(heading, line);
    assert Split(Clean(content), SectionBreak) == [content];
    assert FormattedLines([content]) == SectionLines(content) + FormattedLines([]);
    assert FormattedLines([content]) == [heading, line];
    assert FormatAnalysisResult(content) == Join(LineBreak, [heading, line]);
    assert [heading, line][1..] == [line];
    assert Join(LineBreak, [heading, line]) == heading + LineBreak + line;
  }

  lemma HeadingSection(heading: string, line: string)
    requires heading != [] && IsStripped(heading) && EndsWith(heading, ":") && '\n' !in heading
    requires line != [] && IsStripped(line) && '\n' !in line
    ensures SectionLines(heading + "\n" + line) == [heading, line]
  {
    var content := heading + "\n" + line;
    assert IsStripped(content);
    StripSpec(content);
    SplitAtChar(heading, '\n', line);
    MissingCharNoOccurrence(line, "\n", '\n');
    SplitAbsent(line, "\n");
    assert Split(content, "\n") == [heading, line];
    StripSpec(heading);
    StripSpec(line);
    assert NonBlankLines([line]) == [line] + NonBlankLines([]);
  }

  /** Two lines joined by one line break hold no section break. */
  lemma OneLineBreak(a: string, b: string)
    requires '\n' !in a && '\n' !in b
    ensures !Contains(a + "\n" + b, SectionBreak)
  {
    var s := a + "\n" + b;
    forall i | 0 <= i <= |s| - |SectionBreak| ensures !OccursAt(s, SectionBreak, i) {
      if i < |a| {
        assert s[i] == a[i];
      } else if i == |a| {
        assert s[i + 1] == b[0];
      } else {
        assert s[i] == b[i - |a| - 1];
      }
    }
  }

  /** Every part of a glyph-free joined text is glyph-free. */
  lemma {:induction false} GlyphFreeParts(sep: string, parts: seq<string>)
    requires GlyphFree(Join(sep, parts))
    ensures forall i :: 0 <= i < |parts| ==> GlyphFree(parts[i])
    decreases |parts|
  {
    if |parts| > 1 {
      var rest := Join(sep, parts[1..]);
      assert Join(sep, parts) == parts[0] + sep + rest;
      assert forall c :: c in parts[0] ==> c in Join(sep, parts);
      assert forall c :: c in rest ==> c in Join(sep, parts);
      GlyphFreeParts(sep, parts[1..]);
      assert forall i :: 1 <= i < |parts| ==> parts[i] == parts[1..][i - 1];
    }
  }

  /** Joining glyph-free parts with a glyph-free separator is glyph-free. */
  lemma {:induction false} GlyphFreeJoin(sep: string, parts: seq<string>)
    requires GlyphFree(sep)
    requires forall i :: 0 <= i < |parts| ==> GlyphFree(parts[i])
    ensures GlyphFree(Join(sep, parts))
    decreases |parts|
  {
    if |parts| > 1 {
      GlyphFreeJoin(sep, parts[1..]);
      assert GlyphFree(parts[0]);
    }
  }

  /** A section made of glyph-free text contributes only glyph-free pieces. */
  lemma GlyphFreeSection(section: string)
    requires GlyphFree(section)
    ensures forall i :: 0 <= i < |SectionLines(section)| ==> GlyphFree(SectionLines(section)[i])
  {
    StripSpec(section);
    var s := Strip(section);
    if s != [] {
      SplitJoin(s, "\n");
      GlyphFreeParts("\n", Split(s, "\n"));
      GlyphFreeHeaded(s, Split(s, "\n"));
    }
  }

  lemma GlyphFreeHeaded(s: string, lines: seq<string>)
    requires s != [] && IsStripped(s) && |lines| > 0
    requires GlyphFree(s)
    requires forall i :: 0 <= i < |lines| ==> GlyphFree(lines[i])
    ensures forall i :: 0 <= i < |HeadedLines(s, lines)| ==> GlyphFree(HeadedLines(s, lines)[i])
  {
    StripSpec(lines[0]);
    GlyphFreeNonBlank(lines[1..]);
  }

  lemma {:induction false} GlyphFreeNonBlank(lines: seq<string>)
    requires forall i :: 0 <= i < |lines| ==> GlyphFree(lines[i])
    ensures forall i :: 0 <= i < |NonBlankLines(lines)| ==> GlyphFree(NonBlankLines(lines)[i])
    decreases |lines|
  {
    if |lines| > 0 {
      StripSpec(lines[0]);
      GlyphFreeNonBlank(lines[1..]);
    }
  }

  lemma {:induction false} GlyphFreeLines(sections: seq<string>)
    requires forall i :: 0 <= i < |sections| ==> GlyphFree(sections[i])
    ensures forall i :: 0 <= i < |FormattedLines(sections)| ==> GlyphFree(FormattedLines(sections)[i])
    decreases |sections|
  {
    if |sections| > 0 {
      GlyphFreeSection(sections[0]);
      GlyphFreeLines(sections[1..]);
    }
  }

  /** Text the deletions leave alone: no glyph and neither tag. */
  predicate CleanText(s: string) {
    GlyphFree(s) && !Contains(s, StrengthTag) && !Contains(s, WeaknessTag)
  }

  /** Clean text that is also a single section. */
  predicate CleanSection(s: string) {
    CleanText(s) && !Contains(s, SectionBreak)
  }

  /** The first line of `p`, stripped, does not end in `:`, so a section made
      of `p` is kept whole rather than read as a heading. */
  predicate OpenFirstLine(p: string) {
    '\n' in p ==> !EndsWith(Strip(Split(p, "\n")[0]), ":")
  }

  /** A piece the formatter leaves as it is: non-empty, stripped, clean, one
      section, and not opening with a heading. */
  predicate Settled(p: string) {
    p != [] && IsStripped(p) && CleanSection(p) && OpenFirstLine(p)
  }

  /** Whatever occurs in clean text is clean. */
  lemma CleanInfix(s: string, t: string)
    requires Contains(s, t)
    ensures CleanText(s) ==> CleanText(t)
    ensures CleanSection(s) ==> CleanSection(t)
  {
    ContainsChars(s, t);
    if Contains(t, StrengthTag) {
      ContainsTrans(s, t, StrengthTag);
    }
    if Contains(t, WeaknessTag) {
      ContainsTrans(s, t, WeaknessTag);
    }
    if Contains(t, SectionBreak) {
      ContainsTrans(s, t, SectionBreak);
    }
  }

  /** A non-blank line of a clean section, stripped, is settled. */
  lemma LineSettled(line: string)
    requires CleanSection(line) && !Contains(line, "\n") && Strip(line) != []
    ensures Settled(Strip(line))
  {
    ContainsStrip(line);
    CleanInfix(line, Strip(line));
    StripChars(line);
    if '\n' in line {
      CharContains(line, '\n');
    }
  }

  lemma {:induction false} NonBlankSettled(lines: seq<string>)
    requires forall i :: 0 <= i < |lines| ==> CleanSection(lines[i]) && !Contains(lines[i], "\n")
    ensures forall j :: 0 <= j < |NonBlankLines(lines)| ==> Settled(NonBlankLines(lines)[j])
    decreases |lines|
  {
    if |lines| > 0 {
      NonBlankSettled(lines[1..]);
      if Strip(lines[0]) != [] {
        LineSettled(lines[0]);
      }
    }
  }

  /** Every piece a clean section contributes is settled. */
  lemma SectionSettled(section: string)
    requires CleanSection(section)
    ensures forall j :: 0 <= j < |SectionLines(section)| ==> Settled(SectionLines(section)[j])
  {
    var s := Strip(section);
    if s != [] {
      ContainsStrip(section);
      CleanInfix(section, s);
      CleanLines(s);
      HeadedSettled(s, Split(s, "\n"));
      assert SectionLines(section) == HeadedLines(s, Split(s, "\n"));
    }
  }

  /** A heading section contributes settled lines; any other section is
      kept whole, and its first line is not a heading. */
  lemma HeadedSettled(s: string, lines: seq<string>)
    requires s != [] && IsStripped(s) && CleanSection(s) && lines == Split(s, "\n")
    requires forall i :: 0 <= i < |lines| ==> CleanSection(lines[i]) && !Contains(lines[i], "\n")
    ensures forall j :: 0 <= j < |HeadedLines(s, lines)| ==> Settled(HeadedLines(s, lines)[j])
  {
    var heading := Strip(lines[0]);
    if EndsWith(heading, ":") {
      LineSettled(lines[0]);
      NonBlankSettled(lines[1..]);
      assert HeadedLines(s, lines) == [heading] + NonBlankLines(lines[1..]);
    } else {
      assert OpenFirstLine(s);
      assert HeadedLines(s, lines) == [s];
    }
  }

  /** The lines of a clean section are clean and hold no line break. */
  lemma CleanLines(s: string)
    requires CleanSection(s)
    ensures forall i :: 0 <= i < |Split(s, "\n")| ==>
              CleanSection(Split(s, "\n")[i]) && !Contains(Split(s, "\n")[i], "\n")
  {
    var lines := Split(s, "\n");
    SplitJoin(s, "\n");
    JoinContainsParts("\n", lines);
    forall i | 0 <= i < |lines| ensures CleanSection(lines[i]) {
      CleanInfix(s, lines[i]);
    }
  }

  lemma {:induction false} PiecesSettled(sections: seq<string>)
    requires forall i :: 0 <= i < |sections| ==> CleanSection(sections[i])
    ensures forall j :: 0 <= j < |FormattedLines(sections)| ==> Settled(FormattedLines(sections)[j])
    decreases |sections|
  {
    if |sections| > 0 {
      SectionSettled(sections[0]);
      PiecesSettled(sections[1..]);
    }
  }

  /** The sections contribute nothing exactly when all of them are blank. */
  lemma {:induction false} BlankSections(sections: seq<string>)
    ensures FormattedLines(sections) == [] <==> forall i :: 0 <= i < |sections| ==> AllSpace(sections[i])
    decreases |sections|
  {
    if |sections| > 0 {
      BlankSections(sections[1..]);
      assert forall i :: 1 <= i < |sections| ==> sections[i] == sections[1..][i - 1];
    }
  }

  /** A non-empty text's last character decides whether it ends in `:`. */
  lemma EndsWithColon(s: string)
    requires s != []
    ensures EndsWith(s, ":") <==> s[|s| - 1] == ':'
  {
    if s[|s| - 1] == ':' {
      assert s[|s| - 1..] == ":";
    }
  }

  /** No character of `<br>` is in a tag or in the section break. */
  lemma BreakMissesPatterns()
    ensures forall k :: 0 <= k < |StrengthTag| ==> StrengthTag[k] !in LineBreak
    ensures forall k :: 0 <= k < |WeaknessTag| ==> WeaknessTag[k] !in LineBreak
    ensures forall k :: 0 <= k < |SectionBreak| ==> SectionBreak[k] !in LineBreak
    ensures GlyphFree(LineBreak) && '\n' !in LineBreak
  {
  }

  /** Two settled pieces joined by `<br>` make a settled piece. */
  lemma JoinTwoSettled(p: string, r: string)
    requires Settled(p) && Settled(r)
    ensures Settled(p + LineBreak + r)
  {
    JoinTwoClean(p, r);
    JoinTwoOpen(p, r);
  }

  /** Joining by `<br>` keeps two pieces' ends, cleanliness and single section. */
  lemma JoinTwoClean(p: string, r: string)
    requires p != [] && IsStripped(p) && CleanSection(p)
    requires r != [] && IsStripped(r) && CleanSection(r)
    ensures var y := p + LineBreak + r;
            y != [] && IsStripped(y) && CleanSection(y)
  {
    var y := p + LineBreak + r;
    BreakMissesPatterns();
    assert y[0] == p[0] && y[|y| - 1] == r[|r| - 1];
    assert forall c :: c in y ==> c in p || c in LineBreak || c in r;
    NoOccurrenceAcross(p, LineBreak, r, StrengthTag);
    NoOccurrenceAcross(p, LineBreak, r, WeaknessTag);
    NoOccurrenceAcross(p, LineBreak, r, SectionBreak);
  }

  /** Joining by `<br>` keeps the first line from reading as a heading. */
  lemma JoinTwoOpen(p: string, r: string)
    requires OpenFirstLine(p) && OpenFirstLine(r)
    requires r != [] && IsStripped(r)
    ensures OpenFirstLine(p + LineBreak + r)
  {
    var y := p + LineBreak + r;
    if '\n' in y {
      if '\n' in p {
        assert y == p + (LineBreak + r);
        SplitHeadInside(p, LineBreak + r, '\n');
      } else {
        BreakMissesPatterns();
        assert '\n' in r && '\n' !in p + LineBreak;
        OpenAfter(p + LineBreak, r);
        assert y == (p + LineBreak) + r;
      }
    }
  }

  /** Text without a line break in front of a stripped piece leaves its
      first line's ending alone. */
  lemma OpenAfter(front: string, r: string)
    requires OpenFirstLine(r) && r != [] && IsStripped(r)
    requires '\n' in r && '\n' !in front
    ensures OpenFirstLine(front + r)
  {
    SplitHeadBefore(front, r, '\n');
    SplitHeadStart(r, '\n');
    var line := Split(r, "\n")[0];
    StripEndAfter(front, line);
    EndsWithColon(Strip(front + line));
    EndsWithColon(Strip(line));
  }

  lemma {:induction false} JoinSettled(pieces: seq<string>)
    requires |pieces| > 0 && forall j :: 0 <= j < |pieces| ==> Settled(pieces[j])
    ensures Settled(Join(LineBreak, pieces))
    decreases |pieces|
  {
    if |pieces| > 1 {
      JoinSettled(pieces[1..]);
      JoinTwoSettled(pieces[0], Join(LineBreak, pieces[1..]));
    }
  }

  /** A settled piece formats to itself. */
  lemma SettledFixed(y: string)
    requires Settled(y)
    ensures FormatAnalysisResult(y) == y
  {
    CleanKeeps(y);
    SplitAbsent(y, SectionBreak);
    assert FormattedLines([y]) == SectionLines(y) + FormattedLines([]);
    StripSpec(y);
    if '\n' !in y {
      MissingCharNoOccurrence(y, "\n", '\n');
      SplitAbsent(y, "\n");
      assert NonBlankLines([y][1..]) == [];
    }
    assert SectionLines(y) == [y];
  }

  /** On clean text that is not blank, formatting twice is formatting once:
      every piece of the first result is stripped, glyph and tag free, holds
      no section break, and a first line ending in `:` can only be the whole
      result, so the second pass keeps it as one piece. */
  lemma FormatIdempotentOnClean(x: string)
    requires CleanText(x) && !AllSpace(x)
    ensures FormatAnalysisResult(FormatAnalysisResult(x)) == FormatAnalysisResult(x)
  {
    CleanKeeps(x);
    var pieces := FormattedLines(Split(x, SectionBreak));
    CleanPieces(x);
    JoinSettled(pieces);
    SettledFixed(Join(LineBreak, pieces));
  }

  /** Clean text that is not blank formats to at least one piece, and every
      piece is settled. */
  lemma CleanPieces(x: string)
    requires CleanText(x) && !AllSpace(x)
    ensures var pieces := FormattedLines(Split(x, SectionBreak));
            |pieces| > 0 && forall j :: 0 <= j < |pieces| ==> Settled(pieces[j])
  {
    CleanSections(x);
    PiecesSettled(Split(x, SectionBreak));
    SomeSectionNotBlank(x);
    BlankSections(Split(x, SectionBreak));
  }

  /** The sections of clean text are clean. */
  lemma CleanSections(x: string)
    requires CleanText(x)
    ensures forall i :: 0 <= i < |Split(x, SectionBreak)| ==> CleanSection(Split(x, SectionBreak)[i])
  {
    var sections := Split(x, SectionBreak);
    SplitJoin(x, SectionBreak);
    JoinContainsParts(SectionBreak, sections);
    forall i | 0 <= i < |sections| ensures CleanSection(sections[i]) {
      CleanInfix(x, sections[i]);
    }
  }

  /** Text that is not blank has a section that is not blank. */
  lemma SomeSectionNotBlank(x: string)
    requires !AllSpace(x)
    ensures exists i :: 0 <= i < |Split(x, SectionBreak)| && !AllSpace(Split(x, SectionBreak)[i])
  {
    var sections := Split(x, SectionBreak);
    SplitJoin(x, SectionBreak);
    if forall i :: 0 <= i < |sections| ==> AllSpace(sections[i]) {
      JoinAllSpace(SectionBreak, sections);
    }
  }

  /** Blank text formats to the empty string, which formats to the placeholder. */
  lemma BlankFormatsEmpty(x: string)
    requires x != [] && AllSpace(x)
    ensures FormatAnalysisResult(x) == []
    ensures FormatAnalysisResult(FormatAnalysisResult(x)) == Placeholder
  {
    assert '[' !in x && GlyphFree(x);
    MissingCharNoOccurrence(x, StrengthTag, '[');
    MissingCharNoOccurrence(x, WeaknessTag, '[');
    CleanKeeps(x);
    var sections := Split(x, SectionBreak);
    SplitJoin(x, SectionBreak);
    JoinContainsParts(SectionBreak, sections);
    forall i | 0 <= i < |sections| ensures AllSpace(sections[i]) {
      AllSpaceInfix(x, sections[i]);
    }
    BlankSections(sections);
  }

  /** For non-empty clean text, formatting is idempotent exactly when the
      text is not blank. */
  lemma FormatTwiceOnClean(x: string)
    requires CleanText(x) && x != []
    ensures FormatAnalysisResult(FormatAnalysisResult(x)) == FormatAnalysisResult(x) <==> !AllSpace(x)
  {
    if AllSpace(x) {
      BlankFormatsEmpty(x);
    } else {
      FormatIdempotentOnClean(x);
    }
  }
}
