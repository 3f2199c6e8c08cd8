/** The element sequence `generate_enhanced_pdf_report` hands to the PDF
    library: a title, then per non-blank section a heading, one paragraph per
    non-blank line (bullet or body style) and a spacer. Styles, fonts and
    the PDF bytes themselves belong to the library and are not modelled. */
module Report {
  import opened Wrappers
  import opened Text

  const ReportTitle := "\U{1F4C4} Resume Analysis Report"
  /** Prefix of every section heading (U+1F4CB and a space). */
  const HeadingMark := "\U{1F4CB} "
  const TitleGap: nat := 20
  const SectionGap: nat := 15

  datatype Element =
    | Title(text: string)
    | Spacer(height: nat)
    | Heading(text: string)
    | Bullet(text: string)
    | Body(text: string)

  /** `clean_line[1]` on a one-character line raises `IndexError` outside the
      `try`; the report is never built and the exception escapes. */
  datatype ReportError = IndexError(line: string)

  /** A section of the report: its title and the raw analysis text, in the
      insertion order of the `report_data` dict. */
  type Section = (string, string)

  /** `str.isdigit()` on one character, approximated by the ASCII digits. */
  predicate IsAsciiDigit(c: char) {
    '0' <= c <= '9'
  }

  /** Tag removal and stripping applied to an already stripped line. */
  function CleanLine(line: string): (r: string)
    ensures IsStripped(r)
    ensures |r| <= |line|
  {
    Strip(Remove(Remove(line, "[STRENGTH]"), "[WEAKNESS]"))
  }

  /** A cleaned line made of one digit, on which the source indexes past the end. */
  predicate IsLoneDigit(clean: string) {
    |clean| == 1 && IsAsciiDigit(clean[0])
  }

  /** A cleaned line is set as a bullet when it starts with `•` or with a
      digit followed by `.`; any other line, the empty one included, is body
      text; a lone digit raises. */
  function ClassifyLine(clean: string): (r: Result<Element, ReportError>)
    ensures r.Err? <==> IsLoneDigit(clean)
    ensures r.Err? ==> r.error == IndexError(clean)
    ensures r == Ok(Bullet(clean)) <==>
              StartsWith(clean, "\U{2022}") || (|clean| >= 2 && IsAsciiDigit(clean[0]) && clean[1] == '.')
    ensures r.Ok? ==> r.value in {Bullet(clean), Body(clean)}
  {
    if StartsWith(clean, "\U{2022}") then Ok(Bullet(clean))
    else if |clean| > 0 && IsAsciiDigit(clean[0]) then
      if |clean| < 2 then Err(IndexError(clean))
      else if clean[1] == '.' then Ok(Bullet(clean))
      else Ok(Body(clean))
    else Ok(Body(clean))
  }

  /** The line of `lines` that makes the section raise, if any. */
  predicate Crashes(lines: seq<string>) {
    exists j :: 0 <= j < |lines| && IsLoneDigit(CleanLine(Strip(lines[j])))
  }

  /** The paragraph for one raw line: none when the line is blank. */
  function LineElement(line: string): (r: Result<seq<Element>, ReportError>)
    ensures r.Err? <==> IsLoneDigit(CleanLine(Strip(line)))
    ensures r.Ok? && Strip(line) == [] ==> r.value == []
    ensures r.Ok? && Strip(line) != [] ==>
              |r.value| == 1 && ClassifyLine(CleanLine(Strip(line))) == Ok(r.value[0])
  {
    var stripped := Strip(line);
    if stripped == [] then Ok([])
    else
      match ClassifyLine(CleanLine(stripped))
      case Ok(e) => Ok([e])
      case Err(x) => Err(x)
  }

  /** One paragraph per non-blank line of `lines`, in order; the first line
      that raises ends the layout. */
  function LineElements(lines: seq<string>): (r: Result<seq<Element>, ReportError>)
    ensures r.Err? <==> Crashes(lines)
    decreases |lines|
  {
    if |lines| == 0 then Ok([])
    else
      var head := LineElement(lines[0]);
      var tail := LineElements(lines[1..]);
      CrashesCons(lines);
      if head.Err? then Err(head.error)
      else if tail.Err? then Err(tail.error)
      else Ok(head.value + tail.value)
  }

  lemma CrashesCons(lines: seq<string>)
    requires |lines| > 0
    ensures Crashes(lines) <==> IsLoneDigit(CleanLine(Strip(lines[0]))) || Crashes(lines[1..])
  {
    if Crashes(lines[1..]) {
      var j :| 0 <= j < |lines[1..]| && IsLoneDigit(CleanLine(Strip(lines[1..][j])));
      assert lines[1..][j] == lines[j + 1];
    }
  }

  predicate IsParagraph(e: Element) {
    e.Bullet? || e.Body?
  }

  /** When no line raises, the paragraphs are, in order, the classified
      cleaned forms of exactly the non-blank stripped lines. */
  lemma {:induction false} LineElementsFollowLines(lines: seq<string>)
    requires LineElements(lines).Ok?
    ensures |LineElements(lines).value| == |NonBlankLines(lines)|
    ensures forall k :: 0 <= k < |NonBlankLines(lines)| ==>
              Classifies(NonBlankLines(lines)[k], LineElements(lines).value[k])
    decreases |lines|
  {
    if |lines| > 0 {
      LineElementsFollowLines(lines[1..]);
      var head := LineElement(lines[0]).value;
      var tail := LineElements(lines[1..]).value;
      var nb := NonBlankLines(lines[1..]);
      var line := Strip(lines[0]);
      assert LineElements(lines).value == head + tail;
      if line != [] {
        assert NonBlankLines(lines) == [line] + nb;
        ClassifiesCons(line, head[0], nb, tail);
      } else {
        assert NonBlankLines(lines) == nb;
      }
    }
  }

  /** `line` is laid out as the paragraph `e`. */
  predicate Classifies(line: string, e: Element) {
    ClassifyLine(CleanLine(line)) == Ok(e)
  }

  lemma ClassifiesCons(line: string, e: Element, lines: seq<string>, es: seq<Element>)
    requires Classifies(line, e) && |lines| == |es|
    requires forall k :: 0 <= k < |lines| ==> Classifies(lines[k], es[k])
    ensures forall k :: 0 <= k < 1 + |lines| ==> Classifies(([line] + lines)[k], ([e] + es)[k])
  {
  }

  /** The layout of one section's lines raises exactly when some line does. */
  predicate SectionCrashes(section: Section) {
    !AllSpace(section.1) && Crashes(Split(section.1, "\n"))
  }

  /** The elements one section adds: nothing when its content is blank
      (`content and content.strip()` is false); otherwise its heading, its
      line paragraphs and a spacer. */
  function SectionElements(section: Section): (r: Result<seq<Element>, ReportError>)
    ensures AllSpace(section.1) ==> r == Ok([])
    ensures r.Err? <==> SectionCrashes(section)
    ensures r.Ok? && !AllSpace(section.1) ==>
              && |r.value| >= 2
              && r.value[0] == Heading(HeadingMark + section.0)
              && r.value[|r.value| - 1] == Spacer(SectionGap)
              && forall k :: 1 <= k < |r.value| - 1 ==> IsParagraph(r.value[k])
  {
    StripSpec(section.1);
    if Strip(section.1) == [] then Ok([])
    else BlockElements(section.0, Split(section.1, "\n"))
  }

  /** Heading, paragraphs and spacer of a non-blank section with lines `lines`. */
  function BlockElements(name: string, lines: seq<string>): (r: Result<seq<Element>, ReportError>)
    ensures r.Err? <==> Crashes(lines)
    ensures r.Ok? ==>
              && |r.value| == 2 + |NonBlankLines(lines)|
              && r.value[0] == Heading(HeadingMark + name)
              && r.value[|r.value| - 1] == Spacer(SectionGap)
              && forall k :: 1 <= k < |r.value| - 1 ==> IsParagraph(r.value[k])
  {
    match LineElements(lines)
    case Err(x) => Err(x)
    case Ok(body) =>
      LineElementsFollowLines(lines);
      assert forall k :: 0 <= k < |body| ==> IsParagraph(body[k]);
      var block := [Heading(HeadingMark + name)] + body + [Spacer(SectionGap)];
      assert forall k :: 1 <= k < |block| - 1 ==> block[k] == body[k - 1];
      Ok(block)
  }

  /** The elements of all sections, in insertion order. */
  function SectionsElements(sections: seq<Section>): (r: Result<seq<Element>, ReportError>)
    ensures r.Err? <==> exists i :: 0 <= i < |sections| && SectionCrashes(sections[i])
    decreases |sections|
  {
    if |sections| == 0 then Ok([])
    else
      var head := SectionElements(sections[0]);
      var tail := SectionsElements(sections[1..]);
      assert (exists i :: 0 <= i < |sections| && SectionCrashes(sections[i])) <==>
             SectionCrashes(sections[0]) || exists i :: 0 <= i < |sections[1..]| && SectionCrashes(sections[1..][i]) by {
        if exists i :: 0 <= i < |sections| && SectionCrashes(sections[i]) {
          var i :| 0 <= i < |sections| && SectionCrashes(sections[i]);
          if i > 0 {
            assert sections[1..][i - 1] == sections[i];
          }
        }
      }
      if head.Err? then Err(head.error)
      else if tail.Err? then Err(tail.error)
      else Ok(head.value + tail.value)
  }

  /** The element list of the report for `report_data`. */
  function Layout(data: seq<Section>): (r: Result<seq<Element>, ReportError>)
    ensures r.Ok? ==> |r.value| >= 2 && r.value[0] == Title(ReportTitle) && r.value[1] == Spacer(TitleGap)
    ensures r.Err? <==> exists i :: 0 <= i < |data| && SectionCrashes(data[i])
  {
    match SectionsElements(data)
    case Err(x) => Err(x)
    case Ok(body) => Ok([Title(ReportTitle), Spacer(TitleGap)] + body)
  }

  /** `generate_enhanced_pdf_report(report_data)`. The PDF library is the
      oracle `build`: `None` when `doc.build` raises, which the source turns
      into empty bytes; an `IndexError` from the layout escapes instead. */
  function GenerateReport(data: seq<Section>, build: seq<Element> -> Option<seq<bv8>>): (r: Result<seq<bv8>, ReportError>)
    ensures r.Err? <==> exists i :: 0 <= i < |data| && SectionCrashes(data[i])
    ensures r.Ok? ==> Layout(data).Ok? && (build(Layout(data).value).None? ==> r.value == [])
    ensures r.Ok? && build(Layout(data).value).Some? ==> r.value == build(Layout(data).value).value
  {
    match Layout(data)
    case Err(x) => Err(x)
    case Ok(elements) =>
      match build(elements)
      case None => Ok([])
      case Some(bytes) => Ok(bytes)
  }

  /** The heading texts of `elements`, in order. */
  function HeadingTexts(elements: seq<Element>): seq<string>
    decreases |elements|
  {
    if |elements| == 0 then []
    else (if elements[0].Heading? then [elements[0].text] else []) + HeadingTexts(elements[1..])
  }

  /** The headings a report should carry: one per section with non-blank
      content, in insertion order. */
  function ExpectedHeadings(data: seq<Section>): seq<string>
    decreases |data|
  {
    if |data| == 0 then []
    else (if AllSpace(data[0].1) then [] else [HeadingMark + data[0].0]) + ExpectedHeadings(data[1..])
  }

  lemma {:induction false} HeadingTextsAppend(a: seq<Element>, b: seq<Element>)
    ensures HeadingTexts(a + b) == HeadingTexts(a) + HeadingTexts(b)
    decreases |a|
  {
    if |a| > 0 {
      HeadingTextsAppend(a[1..], b);
      assert (a + b)[1..] == a[1..] + b;
    } else {
      assert a + b == b;
    }
  }

  lemma {:induction false} NoHeadings(elements: seq<Element>)
    requires forall k :: 0 <= k < |elements| ==> IsParagraph(elements[k])
    ensures HeadingTexts(elements) == []
    decreases |elements|
  {
    if |elements| > 0 {
      NoHeadings(elements[1..]);
    }
  }

  /** A laid-out section carries exactly its own heading. */
  lemma SectionHeadings(section: Section)
    requires SectionElements(section).Ok?
    ensures HeadingTexts(SectionElements(section).value) ==
              if AllSpace(section.1) then [] else [HeadingMark + section.0]
  {
    var r := SectionElements(section).value;
    if !AllSpace(section.1) {
      var n := |r|;
      assert r == [r[0]] + r[1..n - 1] + [r[n - 1]];
      NoHeadings(r[1..n - 1]);
      HeadingTextsAppend([r[0]] + r[1..n - 1], [r[n - 1]]);
      HeadingTextsAppend([r[0]], r[1..n - 1]);
    }
  }

  /** The report's headings are exactly the non-blank sections, in order. */
  lemma {:induction false} LayoutHeadings(data: seq<Section>)
    requires Layout(data).Ok?
    ensures HeadingTexts(Layout(data).value) == ExpectedHeadings(data)
  {
    SectionsHeadings(data);
    var body := SectionsElements(data).value;
    HeadingTextsAppend([Title(ReportTitle), Spacer(TitleGap)], body);
  }

  lemma {:induction false} SectionsHeadings(data: seq<Section>)
    requires SectionsElements(data).Ok?
    ensures HeadingTexts(SectionsElements(data).value) == ExpectedHeadings(data)
    decreases |data|
  {
    if |data| > 0 {
      SectionsHeadings(data[1..]);
      SectionHeadings(data[0]);
      HeadingTextsAppend(SectionElements(data[0]).value, SectionsElements(data[1..]).value);
    }
  }
}
