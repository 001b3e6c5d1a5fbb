/** The body of `generatePDF`: the cover image, the loop over the lines of the
    report with its heading, list, blank-line and paragraph branches and the
    list state, and the footer pass over pages 2 to N. First as functions of
    the layout state, then as methods on the document proved to agree. */
module Layout {
  import opened JsText
  import opened JsPdf
  import opened Markdown
  import opened Wrap

  /** `listType`: no list, `'unordered'` or `'ordered'`. */
  datatype ListKind = NoList | Unordered | Ordered

  /** What one line of the report changes: the pages, `yPosition`,
      `listType`, `listIndentLevel`, and the document's font and size. */
  datatype State = State(pages: Pages, y: real, list: ListKind, level: nat, font: Font, size: real)

  /** `bulletpt1`/`bulletpt2` and `text1`/`text2`: the shallow tier at level 1,
      the deep tier at any other level. */
  function BulletIndent(level: nat): real {
    if level == 1 then 15.0 else 40.0
  }

  function TextIndent(level: nat): real {
    if level == 1 then 35.0 else 60.0
  }

  /** The bullet of unordered items. */
  const BulletMark: string := "\U{2022}"

  /** Headings are wrapped in 'CaslonGrad-Regular', left-justified. */
  function HeadingStyle(size: real): Style {
    Style(CaslonGrad, size, 0.0, 0.0)
  }

  /** List items and paragraphs are wrapped in 'helvetica' at 12 pt. */
  function BodyStyle(indent: real): Style {
    Style(Helvetica, 12.0, indent, 0.0)
  }

  /** `# `: a new page, the title wrapped from `margin + 28`, then 10 more. */
  function Heading1Step(pages: Pages, text: string, m: Measure): (r: State)
    requires |pages| > 0
    ensures |r.pages| > |pages|
  {
    var w := Wrapped(pages + [[]], text, Margin + 28.0, HeadingStyle(28.0), m);
    State(w.pages, w.y + 10.0, NoList, 0, CaslonGrad, 28.0)
  }

  /** `## ` and `### `: space before, the title wrapped, space after. */
  function SubheadingStep(pages: Pages, y: real, text: string, before: real, size: real, after: real,
                          m: Measure): (r: State)
    requires |pages| > 0
    ensures |r.pages| >= |pages|
  {
    var w := Wrapped(pages, text, y + before, HeadingStyle(size), m);
    State(w.pages, w.y + after, NoList, 0, CaslonGrad, size)
  }

  /** A list item of kind `kind`: a change of kind opens a deeper level; the
      mark is drawn at the tier's bullet indent on the cursor's line, the text
      is wrapped at the tier's text indent, then 5 more. */
  function ItemStep(pages: Pages, y: real, list: ListKind, level: nat, kind: ListKind, mark: string,
                    text: string, m: Measure): (r: State)
    requires |pages| > 0
    ensures |r.pages| >= |pages|
  {
    var level' := if list != kind then level + 1 else level;
    var marked := DrawOnLast(pages, Op.Text(mark, Margin + BulletIndent(level'), y, Helvetica, 12.0));
    var w := Wrapped(marked, text, y, BodyStyle(TextIndent(level')), m);
    State(w.pages, w.y + 5.0, kind, level', Helvetica, 12.0)
  }

  /** One pass of the line loop on a raw report line: trimmed, the page-break
      guard, 'helvetica', then the branch its class selects. */
  function LineStep(s: State, raw: string, m: Measure): (r: State)
    requires |s.pages| > 0
    ensures |r.pages| >= |s.pages|
  {
    var (pages, y) := PageBreak(s.pages, s.y);
    match Classify(Trim(raw))
    case Heading1(text) => Heading1Step(pages, text, m)
    case Heading2(text) => SubheadingStep(pages, y, text, 20.0, 18.0, 8.0, m)
    case Heading3(text) => SubheadingStep(pages, y, text, 4.0, 12.0, 0.0, m)
    case Bullet(text) => ItemStep(pages, y, s.list, s.level, Unordered, BulletMark, text, m)
    case Numbered(marker, text) => ItemStep(pages, y, s.list, s.level, Ordered, marker, text, m)
    case Blank =>
      if s.list != NoList then State(pages, y + 10.0, NoList, 0, Helvetica, s.size)
      else State(pages, y + 10.0, s.list, s.level, Helvetica, s.size)
    case Paragraph(text) =>
      var w := Wrapped(pages, text, y, BodyStyle(0.0), m);
      State(w.pages, w.y + 5.0, s.list, s.level, Helvetica, 12.0)
  }

  function RunLines(s: State, lines: seq<string>, m: Measure): (r: State)
    requires |s.pages| > 0
    ensures |r.pages| >= |s.pages|
  {
    if lines == [] then s else LineStep(RunLines(s, lines[..|lines| - 1], m), lines[|lines| - 1], m)
  }

  /** The first page holds the full-page logo and nothing else. */
  function Cover(): Pages {
    [[Image(StylizedLogo, 0.0, 0.0, PageWidth, PageHeight)]]
  }

  /** A fresh document ('helvetica' at 16 pt) with the cover drawn, the cursor
      at the top margin, and no list. */
  function Initial(): State {
    State(Cover(), Margin, NoList, 0, Helvetica, 16.0)
  }

  /** The state after every line of the report. */
  function Body(report: string, m: Measure): (r: State)
    ensures |r.pages| >= 1
  {
    RunLines(Initial(), SplitOn(report, '\n'), m)
  }

  /** The page label `"i of n"`. */
  function FooterLabel(i: nat, n: nat): string {
    Show(i) + " of " + Show(n)
  }

  /** The footer of page `i` of `n`: its label in 'CaslonGrad-Regular'
      at 10 pt on the bottom margin's middle, and the small logo in the
      bottom-right corner. */
  function FooterOps(i: nat, n: nat): seq<Op> {
    [Op.Text(FooterLabel(i, n), Margin, PageHeight - Margin / 2.0, CaslonGrad, 10.0),
     Image(BlackLogo, PageWidth - 3.0 * Margin, PageHeight - Margin, 2.0 * Margin, Margin)]
  }

  /** `pages` with the footer stamped on pages 2 to `upTo` (numbered from 1),
      each label counting `|pages|` pages. */
  function Footed(pages: Pages, upTo: nat): (r: Pages)
    ensures |r| == |pages|
  {
    seq(|pages|, k requires 0 <= k < |pages| =>
      if 1 <= k < upTo then pages[k] + FooterOps(k + 1, |pages|) else pages[k])
  }

  /** The finished document's pages. */
  function Generated(report: string, m: Measure): Pages {
    var pages := Body(report, m).pages;
    Footed(pages, |pages|)
  }

  // ----- The methods, proved against the functions -----

  /** The `'## '` and `'### '` branches. */
  method RenderSubheading(doc: Document, text: string, y: real, before: real, size: real, after: real)
    returns (y': real)
    requires doc.Valid() && doc.current == |doc.pages| - 1
    modifies doc`pages, doc`current, doc`font, doc`fontSize
    ensures doc.Valid() && doc.current == |doc.pages| - 1
    ensures State(doc.pages, y', NoList, 0, doc.font, doc.fontSize) ==
      SubheadingStep(old(doc.pages), y, text, before, size, after, doc.measure)
  {
    ghost var pages := doc.pages;
    y' := y + before;
    y' := AddWrappedText(doc, text, y', size, CaslonGrad, 0.0, 0.0);
    SubheadingStepUnfold(pages, y, text, before, size, after, doc.measure);
    y' := y' + after;
  }

  /** `SubheadingStep` as the one call the branch makes. */
  lemma SubheadingStepUnfold(pages: Pages, y: real, text: string, before: real, size: real, after: real,
                             m: Measure)
    requires |pages| > 0
    ensures var w := Wrapped(pages, text, y + before, Style(CaslonGrad, size, 0.0, 0.0), m);
      SubheadingStep(pages, y, text, before, size, after, m) == State(w.pages, w.y + after, NoList, 0, CaslonGrad, size)
  {
  }

  /** An item's bullet or number: 'helvetica' 12, drawn at `(x, y)`. */
  method DrawMark(doc: Document, mark: string, x: real, y: real)
    requires doc.Valid() && doc.current == |doc.pages| - 1
    modifies doc`pages, doc`font, doc`fontSize
    ensures doc.Valid() && doc.current == |doc.pages| - 1
    ensures doc.pages == DrawOnLast(old(doc.pages), Op.Text(mark, x, y, Helvetica, 12.0))
    ensures doc.font == Helvetica && doc.fontSize == 12.0
  {
    doc.SetFont(Helvetica);
    doc.SetFontSize(12.0);
    doc.Text(mark, x, y);
  }

  /** The `'# '` branch: a new page, the title from 28 below the top margin. */
  method RenderHeading1(doc: Document, text: string) returns (y': real)
    requires doc.Valid() && doc.current == |doc.pages| - 1 && |doc.pages| > 0
    modifies doc`pages, doc`current, doc`font, doc`fontSize
    ensures doc.Valid() && doc.current == |doc.pages| - 1
    ensures State(doc.pages, y', NoList, 0, doc.font, doc.fontSize) == Heading1Step(old(doc.pages), text, doc.measure)
  {
    doc.AddPage();
    y' := Margin + 28.0;
    y' := AddWrappedText(doc, text, y', 28.0, CaslonGrad, 0.0, 0.0);
    y' := y' + 10.0;
  }

  /** The unordered and ordered item branches, from the level change on. */
  method RenderItem(doc: Document, kind: ListKind, mark: string, text: string, y: real,
                    list: ListKind, level: nat)
    returns (y': real, list': ListKind, level': nat)
    requires doc.Valid() && doc.current == |doc.pages| - 1
    modifies doc`pages, doc`current, doc`font, doc`fontSize
    ensures doc.Valid() && doc.current == |doc.pages| - 1
    ensures State(doc.pages, y', list', level', doc.font, doc.fontSize) ==
      ItemStep(old(doc.pages), y, list, level, kind, mark, text, doc.measure)
  {
    list', level' := list, level;
    if list != kind {
      list' := kind;
      level' := level + 1;
    }
    y' := DrawItem(doc, mark, text, y, level');
    ItemStepUnfold(old(doc.pages), y, list, level, kind, mark, text, doc.measure);
  }

  /** The mark at the tier's bullet indent, then the text at its text indent,
      then 5 more below. */
  method DrawItem(doc: Document, mark: string, text: string, y: real, level: nat) returns (y': real)
    requires doc.Valid() && doc.current == |doc.pages| - 1
    modifies doc`pages, doc`current, doc`font, doc`fontSize
    ensures doc.Valid() && doc.current == |doc.pages| - 1
    ensures var w := Wrapped(DrawOnLast(old(doc.pages), Op.Text(mark, Margin + BulletIndent(level), y, Helvetica, 12.0)),
                             text, y, BodyStyle(TextIndent(level)), doc.measure);
      doc.pages == w.pages && y' == w.y + 5.0 && doc.font == Helvetica && doc.fontSize == 12.0
  {
    var bulletIndent := BulletIndent(level);
    var textIndent := TextIndent(level);
    DrawMark(doc, mark, Margin + bulletIndent, y);
    y' := AddWrappedText(doc, text, y, 12.0, Helvetica, textIndent, 0.0);
    y' := y' + 5.0;
  }

  /** `ItemStep` as the two calls the branch makes: the mark, then the text. */
  lemma ItemStepUnfold(pages: Pages, y: real, list: ListKind, level: nat, kind: ListKind,
                       mark: string, text: string, m: Measure)
    requires |pages| > 0
    ensures var level' := if list != kind then level + 1 else level;
      var w := Wrapped(DrawOnLast(pages, Op.Text(mark, Margin + BulletIndent(level'), y, Helvetica, 12.0)),
                       text, y, BodyStyle(TextIndent(level')), m);
      ItemStep(pages, y, list, level, kind, mark, text, m) == State(w.pages, w.y + 5.0, kind, level', Helvetica, 12.0)
  {
  }

  /** The ordered item branch: the matched `\d+\.\s` as the label (the `'0'`
      fallback cannot be taken, the test having just matched), and the text
      after the first `.`, trimmed. */
  method RenderNumbered(doc: Document, line: string, y: real, list: ListKind, level: nat)
    returns (y': real, list': ListKind, level': nat)
    requires doc.Valid() && doc.current == |doc.pages| - 1
    requires OrderedMarker(line).Some?
    modifies doc`pages, doc`current, doc`font, doc`fontSize
    ensures doc.Valid() && doc.current == |doc.pages| - 1
    ensures State(doc.pages, y', list', level', doc.font, doc.fontSize) ==
      ItemStep(old(doc.pages), y, list, level, Ordered, Classify(line).marker, Classify(line).text, doc.measure)
  {
    var numberPrefix := "0";
    var numberMatch := OrderedMarker(line);
    if numberMatch.Some? {
      numberPrefix := numberMatch.value;
    }
    MarkerDot(line);
    var content := Trim(line[IndexOf(line, '.') + 1..]);
    y', list', level' := RenderItem(doc, Ordered, numberPrefix, content, y, list, level);
  }

  /** One pass of the line loop (lines 127-218), the tests in the source's order. */
  method RenderLine(doc: Document, raw: string, y: real, list: ListKind, level: nat)
    returns (y': real, list': ListKind, level': nat)
    requires doc.Valid() && doc.current == |doc.pages| - 1
    modifies doc`pages, doc`current, doc`font, doc`fontSize
    ensures doc.Valid() && doc.current == |doc.pages| - 1
    ensures State(doc.pages, y', list', level', doc.font, doc.fontSize) ==
      LineStep(State(old(doc.pages), y, list, level, old(doc.font), old(doc.fontSize)), raw, doc.measure)
  {
    var line := Trim(raw);
    ghost var c := Classify(line);
    y' := BreakIfPastBottom(doc, y);
    doc.SetFont(Helvetica);
    list', level' := list, level;
    if StartsWith(line, "# ") {
      assert c == Heading1(line[2..]);
      y' := RenderHeading1(doc, line[2..]);
      list', level' := NoList, 0;
    } else if StartsWith(line, "## ") {
      assert c == Heading2(line[3..]);
      y' := RenderSubheading(doc, line[3..], y', 20.0, 18.0, 8.0);
      list', level' := NoList, 0;
    } else if StartsWith(line, "### ") {
      assert c == Heading3(line[3..]);
      y' := RenderSubheading(doc, line[3..], y', 4.0, 12.0, 0.0);
      list', level' := NoList, 0;
    } else if StartsWith(line, "- ") || StartsWith(line, "* ") {
      assert c == Bullet(line[2..]);
      y', list', level' := RenderItem(doc, Unordered, BulletMark, line[2..], y', list, level);
    } else if OrderedMarker(line).Some? {
      assert c == NumberedLine(line);
      y', list', level' := RenderNumbered(doc, line, y', list, level);
    } else if line == "" {
      assert c == Blank;
      y' := y' + 10.0;
      if list != NoList {
        list', level' := NoList, 0;
      }
    } else {
      assert c == Paragraph(line);
      y' := AddWrappedText(doc, line, y', 12.0, Helvetica, 0.0, 0.0);
      y' := y' + 5.0;
    }
  }

  lemma RunLinesSnoc(s: State, lines: seq<string>, i: nat, m: Measure)
    requires |s.pages| > 0 && i < |lines|
    ensures RunLines(s, lines[..i + 1], m) == LineStep(RunLines(s, lines[..i], m), lines[i], m)
  {
    assert lines[..i + 1][..i] == lines[..i];
  }

  /** The line loop (lines 121-219) from a fresh document with the cover drawn. */
  method RenderBody(doc: Document, report: string)
    requires doc.Valid() && doc.current == |doc.pages| - 1
    requires doc.pages == Cover() && doc.font == Helvetica && doc.fontSize == 16.0
    modifies doc`pages, doc`current, doc`font, doc`fontSize
    ensures doc.Valid() && doc.current == |doc.pages| - 1
    ensures doc.pages == Body(report, doc.measure).pages
    ensures doc.font == Body(report, doc.measure).font && doc.fontSize == Body(report, doc.measure).size
  {
    var yPosition := Margin;
    var lines := SplitOn(report, '\n');
    var listType := NoList;
    var listIndentLevel := 0;
    for i := 0 to |lines|
      invariant doc.Valid() && doc.current == |doc.pages| - 1
      invariant State(doc.pages, yPosition, listType, listIndentLevel, doc.font, doc.fontSize) ==
        RunLines(Initial(), lines[..i], doc.measure)
    {
      RunLinesSnoc(Initial(), lines, i, doc.measure);
      yPosition, listType, listIndentLevel := RenderLine(doc, lines[i], yPosition, listType, listIndentLevel);
    }
    assert lines[..|lines|] == lines;
  }

  /** Stamping one more page: page `i + 1` (numbered from 1) gets its footer. */
  lemma FootedStep(pages: Pages, i: nat)
    requires 1 <= i < |pages|
    ensures Footed(pages, i + 1) == Footed(pages, i)[i := Footed(pages, i)[i] + FooterOps(i + 1, |pages|)]
  {
    var a, b := Footed(pages, i + 1), Footed(pages, i)[i := Footed(pages, i)[i] + FooterOps(i + 1, |pages|)];
    forall k | 0 <= k < |pages| ensures a[k] == b[k] {
    }
  }

  /** The footer pass (lines 221-228): pages 2 to N, and only those, get the
      footer; page 1 and the page count are left alone. */
  method StampFooters(doc: Document)
    requires doc.Valid() && doc.current == |doc.pages| - 1
    modifies doc`pages, doc`current, doc`font, doc`fontSize
    ensures doc.pages == Footed(old(doc.pages), |old(doc.pages)|)
    ensures doc.Valid() && doc.current == |doc.pages| - 1
    ensures |doc.pages| >= 2 ==> doc.font == CaslonGrad && doc.fontSize == 10.0
    ensures |doc.pages| == 1 ==> doc.font == old(doc.font) && doc.fontSize == old(doc.fontSize)
  {
    ghost var body := doc.pages;
    var pageCount := doc.NumberOfPages();
    for i := 2 to pageCount + 1
      invariant |doc.pages| == pageCount && doc.pages == Footed(body, i - 1)
      invariant i > 2 ==> doc.Valid() && doc.current == i - 2 && doc.font == CaslonGrad && doc.fontSize == 10.0
      invariant i == 2 ==> doc.current == pageCount - 1 && doc.font == old(doc.font) && doc.fontSize == old(doc.fontSize)
    {
      ghost var before := doc.pages;
      doc.SetPage(i);
      doc.SetFontSize(10.0);
      doc.SetFont(CaslonGrad);
      doc.Text(FooterLabel(i, pageCount), Margin, PageHeight - Margin / 2.0);
      doc.AddImage(BlackLogo, PageWidth - 3.0 * Margin, PageHeight - Margin, 2.0 * Margin, Margin);
      FootedStep(body, i - 1);
      assert doc.pages[i - 1] == before[i - 1] + FooterOps(i, pageCount);
      assert doc.pages == before[i - 1 := before[i - 1] + FooterOps(i, pageCount)];
    }
  }

  /** `generatePDF`: the document it saves has the pages `Generated` gives. */
  method GeneratePdf(report: string, measure: Measure) returns (doc: Document)
    ensures doc.pages == Generated(report, measure) && doc.measure == measure
    ensures doc.Valid() && doc.current == |doc.pages| - 1
  {
    doc := new Document(measure);
    doc.AddImage(StylizedLogo, 0.0, 0.0, PageWidth, PageHeight);
    assert [] + [Image(StylizedLogo, 0.0, 0.0, PageWidth, PageHeight)] == Cover()[0];
    RenderBody(doc, report);
    StampFooters(doc);
  }
}
