/** What the line loop and the footer pass of `generatePDF` guarantee: the list
    state stays consistent, each kind of line draws what and where its branch
    says, the body never draws outside the printable band, the cover logo is
    the first page's only image, and every later page carries its own label. */
module LayoutProofs {
  import opened JsText
  import opened JsPdf
  import opened Markdown
  import opened Wrap
  import opened WrapProofs
  import opened Layout

  // ----- The list state -----

  /** A list level is set exactly when a list is open. */
  predicate ListInv(s: State) {
    s.list == NoList <==> s.level == 0
  }

  lemma LineStepListInv(s: State, raw: string, m: Measure)
    requires |s.pages| > 0 && ListInv(s)
    ensures ListInv(LineStep(s, raw, m))
  {
  }

  lemma {:induction false} RunLinesListInv(s: State, lines: seq<string>, m: Measure)
    requires |s.pages| > 0 && ListInv(s)
    ensures ListInv(RunLines(s, lines, m))
    decreases |lines|
  {
    if lines != [] {
      RunLinesListInv(s, lines[..|lines| - 1], m);
      LineStepListInv(RunLines(s, lines[..|lines| - 1], m), lines[|lines| - 1], m);
    }
  }

  /** Whatever the report, after every line the list state is consistent. */
  lemma BodyListInv(report: string, m: Measure)
    ensures ListInv(Body(report, m))
  {
    RunLinesListInv(Initial(), SplitOn(report, '\n'), m);
  }

  // ----- What each kind of line does -----

  /** An empty line moves the cursor down 10 and, the list state being
      consistent, always leaves no list open; it draws nothing and adds no page
      beyond the guard's. */
  lemma BlankEffects(s: State, raw: string, m: Measure)
    requires |s.pages| > 0 && ListInv(s) && Classify(Trim(raw)).Blank?
    ensures var (pages, y) := PageBreak(s.pages, s.y);
      var r := LineStep(s, raw, m);
      r.pages == pages && r.y == y + 10.0 && r.list == NoList && r.level == 0 &&
      r.font == Helvetica && r.size == s.size
  {
  }

  /** `b` holds, right after what the last page of `pages` held, the mark
      `markOp`, then (if anything) text at `(textX, y)` in `font` at `size`. */
  ghost predicate ItemDrawn(pages: Pages, b: Pages, markOp: Op, textX: real, y: real, font: Font, size: real)
    requires |pages| > 0
  {
    var last := |pages| - 1;
    |pages| <= |b| && |pages[last]| < |b[last]| && b[last][|pages[last]|] == markOp &&
    (|pages[last]| + 1 < |b[last]| ==>
      var op := b[last][|pages[last]| + 1];
      op.Text? && op.x == textX && op.y == y && op.font == font && op.size == size)
  }

  /** The mark drawn on the last page, then text wrapped from the same
      cursor: the mark comes right after what the page held, and the first
      line of the text right after the mark, at the cursor's height. */
  lemma MarkThenText(pages: Pages, markOp: Op, text: string, y: real, st: Style, m: Measure)
    requires |pages| > 0 && y <= Bottom
    ensures var w := Wrapped(DrawOnLast(pages, markOp), text, y, st, m);
      Extends(pages, w.pages) && ItemDrawn(pages, w.pages, markOp, Margin + st.indent, y, st.font, st.size)
  {
    var marked, last := DrawOnLast(pages, markOp), |pages| - 1;
    var w := Wrapped(marked, text, y, st, m);
    DrawOnLastExtends(pages, markOp, (op: Op) => true);
    WrappedStartsAt(marked, text, y, st, m);
    ExtendsTrans(pages, marked, w.pages);
    assert marked[last] <= w.pages[last];
  }

  /** An item of a different kind than the open list opens a deeper level,
      one of the same kind stays at its level; it draws its mark first, right
      after what its page held, on the cursor's line at the tier's bullet
      indent; the first line of its text follows on that same line at the
      tier's text indent, in 'helvetica' 12. */
  lemma ItemStepDraws(pages: Pages, y: real, list: ListKind, level: nat, kind: ListKind, mark: string,
                      text: string, m: Measure)
    requires |pages| > 0 && y <= Bottom
    ensures var r := ItemStep(pages, y, list, level, kind, mark, text, m);
      r.list == kind && r.level == (if list == kind then level else level + 1) &&
      r.font == Helvetica && r.size == 12.0 && Extends(pages, r.pages) &&
      ItemDrawn(pages, r.pages, Op.Text(mark, Margin + BulletIndent(r.level), y, Helvetica, 12.0),
                Margin + TextIndent(r.level), y, Helvetica, 12.0) &&
      r.y == Wrapped(DrawOnLast(pages, Op.Text(mark, Margin + BulletIndent(r.level), y, Helvetica, 12.0)),
                     text, y, BodyStyle(TextIndent(r.level)), m).y + 5.0
  {
    var level' := if list != kind then level + 1 else level;
    var markOp := Op.Text(mark, Margin + BulletIndent(level'), y, Helvetica, 12.0);
    MarkThenText(pages, markOp, text, y, BodyStyle(TextIndent(level')), m);
  }

  /** A `- ` or `* ` line is an unordered item with the bullet as its mark,
      an `N. ` line an ordered item with its `N. ` as the mark. */
  lemma ItemEffects(s: State, raw: string, m: Measure)
    requires |s.pages| > 0
    requires Classify(Trim(raw)).Bullet? || Classify(Trim(raw)).Numbered?
    ensures var (pages, y) := PageBreak(s.pages, s.y);
      var c, r := Classify(Trim(raw)), LineStep(s, raw, m);
      var kind := if c.Bullet? then Unordered else Ordered;
      var mark := if c.Bullet? then BulletMark else c.marker;
      r == ItemStep(pages, y, s.list, s.level, kind, mark, c.text, m) && y <= Bottom && (Margin <= s.y ==> Margin <= y)
  {
    PageBreakSpec(s.pages, s.y);
  }

  /** Below the top margin, an item adds only its mark and text in
      'helvetica' 12 at the tier's text indent, inside the printable band. */
  lemma ItemStepStyled(pages: Pages, y: real, list: ListKind, level: nat, kind: ListKind, mark: string,
                       text: string, m: Measure)
    requires |pages| > 0 && Margin <= y <= Bottom
    ensures var r := ItemStep(pages, y, list, level, kind, mark, text, m);
      var marked := DrawOnLast(pages, Op.Text(mark, Margin + BulletIndent(r.level), y, Helvetica, 12.0));
      Extends(marked, r.pages) && NewOpsSatisfy(marked, r.pages, InStyle(BodyStyle(TextIndent(r.level)))) &&
      Margin + 5.0 <= r.y
  {
    var level' := if list != kind then level + 1 else level;
    var markOp := Op.Text(mark, Margin + BulletIndent(level'), y, Helvetica, 12.0);
    WrappedStyled(DrawOnLast(pages, markOp), text, y, BodyStyle(TextIndent(level')), m);
  }

  /** An empty line ends a list, so the next item, of either kind, is back
      on the shallow tier: its mark 15 and its text 35 from the margin. */
  lemma ItemAfterBlank(s: State, blank: string, item: string, m: Measure)
    requires |s.pages| > 0 && ListInv(s) && Classify(Trim(blank)).Blank?
    requires Classify(Trim(item)).Bullet? || Classify(Trim(item)).Numbered?
    ensures var r := LineStep(LineStep(s, blank, m), item, m);
      r.level == 1 && BulletIndent(r.level) == 15.0 && TextIndent(r.level) == 35.0
  {
    BlankEffects(s, blank, m);
    ItemEffects(LineStep(s, blank, m), item, m);
  }

  /** A `# ` title starts a new page and leaves the earlier ones as they
      were; it is set in 'CaslonGrad' 28 at the margin, starting 28 below the
      top margin of the new page; no list stays open. */
  lemma Heading1StepDraws(pages: Pages, text: string, m: Measure)
    requires |pages| > 0
    ensures var r := Heading1Step(pages, text, m);
      Extends(pages + [[]], r.pages) && |pages| < |r.pages| &&
      NewOpsSatisfy(pages + [[]], r.pages, InStyle(HeadingStyle(28.0))) &&
      (r.pages[|pages|] != [] ==> r.pages[|pages|][0].x == Margin && r.pages[|pages|][0].y == Margin + 28.0) &&
      r.y == Wrapped(pages + [[]], text, Margin + 28.0, HeadingStyle(28.0), m).y + 10.0 &&
      Margin + 10.0 <= r.y && r.list == NoList && r.level == 0 && r.font == CaslonGrad && r.size == 28.0
  {
    var w := Wrapped(pages + [[]], text, Margin + 28.0, HeadingStyle(28.0), m);
    assert Heading1Step(pages, text, m) == State(w.pages, w.y + 10.0, NoList, 0, CaslonGrad, 28.0);
    WrappedStyled(pages + [[]], text, Margin + 28.0, HeadingStyle(28.0), m);
    WrappedStartsAt(pages + [[]], text, Margin + 28.0, HeadingStyle(28.0), m);
  }

  /** `## ` and `### ` are the 20/18/8 and the 4/12/0 subheadings; `# ` is
      the title on a new page. */
  lemma HeadingEffects(s: State, raw: string, m: Measure)
    requires |s.pages| > 0
    requires Classify(Trim(raw)).Heading1? || Classify(Trim(raw)).Heading2? || Classify(Trim(raw)).Heading3?
    ensures var (pages, y) := PageBreak(s.pages, s.y);
      var c, r := Classify(Trim(raw)), LineStep(s, raw, m);
      (c.Heading1? ==> r == Heading1Step(pages, c.text, m)) &&
      (c.Heading2? ==> r == SubheadingStep(pages, y, c.text, 20.0, 18.0, 8.0, m)) &&
      (c.Heading3? ==> r == SubheadingStep(pages, y, c.text, 4.0, 12.0, 0.0, m)) &&
      y <= Bottom && (Margin <= s.y ==> Margin <= y)
  {
    PageBreakSpec(s.pages, s.y);
  }

  /** A subheading's first line is set in 'CaslonGrad' at the margin, `before`
      below the cursor, on the next page if that passes the bottom; nothing
      drawn before is lost; no list stays open. */
  lemma SubheadingStepDraws(pages: Pages, y: real, text: string, before: real, size: real, after: real,
                            m: Measure)
    requires |pages| > 0
    ensures var r, g := SubheadingStep(pages, y, text, before, size, after, m), Guard(y + before, |pages| - 1);
      Extends(pages, r.pages) &&
      (g.1 < |r.pages| && StartOf(pages, g.1) < |r.pages[g.1]| ==>
        r.pages[g.1][StartOf(pages, g.1)].x == Margin && r.pages[g.1][StartOf(pages, g.1)].y == g.0) &&
      r.y == Wrapped(pages, text, y + before, HeadingStyle(size), m).y + after &&
      r.list == NoList && r.level == 0 && r.font == CaslonGrad && r.size == size
  {
    var w := Wrapped(pages, text, y + before, HeadingStyle(size), m);
    assert SubheadingStep(pages, y, text, before, size, after, m) == State(w.pages, w.y + after, NoList, 0, CaslonGrad, size);
    WrappedStartsAt(pages, text, y + before, HeadingStyle(size), m);
  }

  /** Below the top margin, all of a subheading is in its style inside the
      printable band. */
  lemma SubheadingStepStyled(pages: Pages, y: real, text: string, before: real, size: real, after: real,
                             m: Measure)
    requires |pages| > 0 && Margin <= y + before && 0.0 <= size
    ensures var r := SubheadingStep(pages, y, text, before, size, after, m);
      NewOpsSatisfy(pages, r.pages, InStyle(HeadingStyle(size))) && Margin + after <= r.y
  {
    WrappedStyled(pages, text, y + before, HeadingStyle(size), m);
  }

  /** Any other line is a paragraph: the list state is kept; its first line
      is set in 'helvetica' 12 at the margin on the cursor's line, right after
      what the page held; below the top margin all of it is in that style
      inside the printable band. */
  lemma ParagraphEffects(s: State, raw: string, m: Measure)
    requires |s.pages| > 0 && Classify(Trim(raw)).Paragraph?
    ensures var (pages, y) := PageBreak(s.pages, s.y);
      var r, last := LineStep(s, raw, m), |pages| - 1;
      Extends(pages, r.pages) &&
      r.list == s.list && r.level == s.level && r.font == Helvetica && r.size == 12.0 &&
      r.y == Wrapped(pages, Classify(Trim(raw)).text, y, BodyStyle(0.0), m).y + 5.0 &&
      (|pages[last]| < |r.pages[last]| ==>
        var op := r.pages[last][|pages[last]|];
        op.Text? && op.x == Margin && op.y == y && op.font == Helvetica && op.size == 12.0) &&
      (Margin <= s.y ==> NewOpsSatisfy(pages, r.pages, InStyle(BodyStyle(0.0))) && Margin + 5.0 <= r.y)
  {
    var (pages, y) := PageBreak(s.pages, s.y);
    PageBreakSpec(s.pages, s.y);
    var text := Classify(Trim(raw)).text;
    ParagraphDraws(pages, text, y, m);
    assert LineStep(s, raw, m).pages == Wrapped(pages, text, y, BodyStyle(0.0), m).pages;
    assert LineStep(s, raw, m).y == Wrapped(pages, text, y, BodyStyle(0.0), m).y + 5.0;
  }

  lemma ParagraphDraws(pages: Pages, text: string, y: real, m: Measure)
    requires |pages| > 0 && y <= Bottom
    ensures var w, last := Wrapped(pages, text, y, BodyStyle(0.0), m), |pages| - 1;
      Extends(pages, w.pages) &&
      (|pages[last]| < |w.pages[last]| ==>
        var op := w.pages[last][|pages[last]|];
        op.Text? && op.x == Margin && op.y == y && op.font == Helvetica && op.size == 12.0) &&
      (Margin <= y ==> NewOpsSatisfy(pages, w.pages, InStyle(BodyStyle(0.0))) && Margin <= w.y)
  {
    WrappedStartsAt(pages, text, y, BodyStyle(0.0), m);
    if Margin <= y {
      WrappedStyled(pages, text, y, BodyStyle(0.0), m);
    }
  }

  // ----- The body stays inside the printable band -----

  /** Text between the top margin and the bottom guard. */
  function InBand(op: Op): bool {
    op.Text? && Margin <= op.y <= Bottom
  }

  /** The page-break guard adds at most an empty page. */
  lemma PageBreakBand(pages: Pages, y: real)
    ensures PageBreak(pages, y).0 == pages || PageBreak(pages, y).0 == pages + [[]]
    ensures Extends(pages, PageBreak(pages, y).0) && NewOpsSatisfy(pages, PageBreak(pages, y).0, InBand)
  {
    if y > Bottom {
      EmptyPageExtends(pages, InBand);
    }
  }

  lemma WrappedBand(pages: Pages, text: string, y: real, st: Style, m: Measure)
    requires |pages| > 0 && 0.0 <= st.size && Margin <= y
    ensures var w := Wrapped(pages, text, y, st, m);
      Extends(pages, w.pages) && NewOpsSatisfy(pages, w.pages, InBand) && Margin <= w.y
  {
    var w := Wrapped(pages, text, y, st, m);
    WrappedStyled(pages, text, y, st, m);
    NewOpsWeaken(pages, w.pages, InStyle(st), InBand);
  }

  lemma BandTrans(a: Pages, b: Pages, c: Pages)
    requires Extends(a, b) && NewOpsSatisfy(a, b, InBand)
    requires Extends(b, c) && NewOpsSatisfy(b, c, InBand)
    ensures Extends(a, c) && NewOpsSatisfy(a, c, InBand)
  {
    ExtendsTrans(a, b, c);
    NewOpsTrans(a, b, c, InBand);
  }

  lemma Heading1Band(pages: Pages, text: string, m: Measure)
    requires |pages| > 0
    ensures var r := Heading1Step(pages, text, m);
      Extends(pages, r.pages) && NewOpsSatisfy(pages, r.pages, InBand) && Margin <= r.y
  {
    EmptyPageExtends(pages, InBand);
    WrappedBand(pages + [[]], text, Margin + 28.0, HeadingStyle(28.0), m);
    BandTrans(pages, pages + [[]], Heading1Step(pages, text, m).pages);
  }

  lemma SubheadingBand(pages: Pages, y: real, text: string, before: real, size: real, after: real,
                       m: Measure)
    requires |pages| > 0 && Margin <= y && 0.0 <= before && 0.0 <= size && 0.0 <= after
    ensures var r := SubheadingStep(pages, y, text, before, size, after, m);
      Extends(pages, r.pages) && NewOpsSatisfy(pages, r.pages, InBand) && Margin <= r.y
  {
    WrappedBand(pages, text, y + before, HeadingStyle(size), m);
  }

  lemma ItemBand(pages: Pages, y: real, list: ListKind, level: nat, kind: ListKind, mark: string,
                 text: string, m: Measure)
    requires |pages| > 0 && Margin <= y <= Bottom
    ensures var r := ItemStep(pages, y, list, level, kind, mark, text, m);
      Extends(pages, r.pages) && NewOpsSatisfy(pages, r.pages, InBand) && Margin <= r.y
  {
    var level' := if list != kind then level + 1 else level;
    var markOp := Op.Text(mark, Margin + BulletIndent(level'), y, Helvetica, 12.0);
    var marked := DrawOnLast(pages, markOp);
    DrawOnLastExtends(pages, markOp, InBand);
    WrappedBand(marked, text, y, BodyStyle(TextIndent(level')), m);
    BandTrans(pages, marked, ItemStep(pages, y, list, level, kind, mark, text, m).pages);
  }

  /** Below the top margin, one line of the report keeps what was drawn,
      adds only text inside the printable band, and leaves the cursor below
      the top margin. */
  lemma LineStepBand(s: State, raw: string, m: Measure)
    requires |s.pages| > 0 && Margin <= s.y
    ensures var r := LineStep(s, raw, m);
      Extends(s.pages, r.pages) && NewOpsSatisfy(s.pages, r.pages, InBand) && Margin <= r.y
  {
    var (pages, y) := PageBreak(s.pages, s.y);
    PageBreakSpec(s.pages, s.y);
    PageBreakBand(s.pages, s.y);
    var r := LineStep(s, raw, m);
    var c := Classify(Trim(raw));
    if c.Heading1? || c.Heading2? || c.Heading3? {
      HeadingEffects(s, raw, m);
      if c.Heading1? {
        Heading1Band(pages, c.text, m);
      } else if c.Heading2? {
        SubheadingBand(pages, y, c.text, 20.0, 18.0, 8.0, m);
      } else {
        SubheadingBand(pages, y, c.text, 4.0, 12.0, 0.0, m);
      }
    } else if c.Bullet? || c.Numbered? {
      ItemEffects(s, raw, m);
      ItemBand(pages, y, s.list, s.level, if c.Bullet? then Unordered else Ordered,
               if c.Bullet? then BulletMark else c.marker, c.text, m);
    } else if c.Paragraph? {
      WrappedBand(pages, c.text, y, BodyStyle(0.0), m);
      assert r.pages == Wrapped(pages, c.text, y, BodyStyle(0.0), m).pages;
    } else {
      assert r.pages == pages;
    }
    BandTrans(s.pages, pages, r.pages);
  }

  lemma {:induction false} RunLinesBand(s: State, lines: seq<string>, m: Measure)
    requires |s.pages| > 0 && Margin <= s.y
    ensures var r := RunLines(s, lines, m);
      Extends(s.pages, r.pages) && NewOpsSatisfy(s.pages, r.pages, InBand) && Margin <= r.y
    decreases |lines|
  {
    if lines == [] {
      ExtendsRefl(s.pages);
    } else {
      var before := RunLines(s, lines[..|lines| - 1], m);
      RunLinesBand(s, lines[..|lines| - 1], m);
      LineStepBand(before, lines[|lines| - 1], m);
      BandTrans(s.pages, before.pages, RunLines(s, lines, m).pages);
    }
  }

  /** The body keeps the cover and adds only text inside the printable band. */
  lemma BodyBand(report: string, m: Measure)
    ensures var b := Body(report, m);
      Extends(Cover(), b.pages) && NewOpsSatisfy(Cover(), b.pages, InBand) && Margin <= b.y
  {
    RunLinesBand(Initial(), SplitOn(report, '\n'), m);
  }

  // ----- The finished document -----

  /** What the line loop leaves: the cover kept, then only text inside the
      printable band. */
  ghost predicate BodyShaped(pages: Pages) {
    Extends(Cover(), pages) && NewOpsSatisfy(Cover(), pages, InBand)
  }

  /** The finished document is the body with the footers stamped, and the
      body is shaped as the line loop leaves it. */
  lemma GeneratedShape(report: string, m: Measure)
    ensures var b := Body(report, m).pages;
      Generated(report, m) == Footed(b, |b|) && BodyShaped(b)
  {
    BodyBand(report, m);
  }

  /** Page `k` after the footer pass: the page as it was, with the footer
      from the second page on. */
  lemma FootedAt(pages: Pages, k: nat)
    requires k < |pages|
    ensures var g := Footed(pages, |pages|);
      g[k] == if k == 0 then pages[0] else pages[k] + FooterOps(k + 1, |pages|)
  {
  }

  /** Every operation of a body is the cover logo or text in the band. */
  lemma BodyOpAt(pages: Pages, i: nat, j: nat)
    requires BodyShaped(pages) && i < |pages| && j < |pages[i]|
    ensures (i == 0 && j == 0 && pages[i][j] == Image(StylizedLogo, 0.0, 0.0, PageWidth, PageHeight)) ||
      InBand(pages[i][j])
  {
    assert Cover()[0] <= pages[0];
    if i == 0 && j == 0 {
      assert pages[0][0] == Cover()[0][0];
    } else {
      assert StartOf(Cover(), i) <= j;
    }
  }

  /** The full-page logo is the first thing on the first page and appears
      nowhere else. */
  lemma CoverOnlyFirst(pages: Pages)
    requires BodyShaped(pages)
    ensures var g := Footed(pages, |pages|);
      |g| >= 1 && |g[0]| >= 1 && g[0][0] == Image(StylizedLogo, 0.0, 0.0, PageWidth, PageHeight) &&
      forall i, j :: 0 <= i < |g| && 0 <= j < |g[i]| && (i, j) != (0, 0) ==>
        !(g[i][j].Image? && g[i][j].picture == StylizedLogo)
  {
    var g: Pages := Footed(pages, |pages|);
    assert Cover()[0] <= pages[0];
    FootedAt(pages, 0);
    forall i, j | 0 <= i < |g| && 0 <= j < |g[i]| && (i, j) != (0, 0)
      ensures !(g[i][j].Image? && g[i][j].picture == StylizedLogo)
    {
      FootedAt(pages, i);
      if j < |pages[i]| {
        BodyOpAt(pages, i, j);
      }
    }
  }

  /** The first page has no footer: no small logo and nothing below the
      printable band. */
  lemma FirstPageUnfooted(pages: Pages)
    requires BodyShaped(pages)
    ensures var g := Footed(pages, |pages|);
      |g| >= 1 && forall j :: 0 <= j < |g[0]| ==> g[0][j].y <= Bottom && !(g[0][j].Image? && g[0][j].picture == BlackLogo)
  {
    var g: Pages := Footed(pages, |pages|);
    FootedAt(pages, 0);
    forall j | 0 <= j < |g[0]| ensures g[0][j].y <= Bottom && !(g[0][j].Image? && g[0][j].picture == BlackLogo) {
      BodyOpAt(pages, 0, j);
    }
  }

  /** A page from the second on: the page as it was, then its footer. */
  lemma FooterPageAt(pages: Pages, k: nat)
    requires 1 <= k < |pages|
    ensures var g := Footed(pages, |pages|);
      |g[k]| == |pages[k]| + 2 && g[k][..|pages[k]|] == pages[k] &&
      g[k][|g[k]| - 2] == Op.Text(FooterLabel(k + 1, |pages|), Margin, PageHeight - Margin / 2.0, CaslonGrad, 10.0) &&
      g[k][|g[k]| - 1] == Image(BlackLogo, PageWidth - 3.0 * Margin, PageHeight - Margin, 2.0 * Margin, Margin)
  {
    var g, footer := Footed(pages, |pages|), FooterOps(k + 1, |pages|);
    assert g[k] == pages[k] + footer;
    assert g[k][|g[k]| - 2] == footer[0] && g[k][|g[k]| - 1] == footer[1];
  }

  /** The footer pass keeps the page count and the first page, and every
      later page keeps what it held and ends with its label `"i of n"` (its
      number from 1 and the page count) and the small logo. */
  lemma FootersStamped(pages: Pages)
    ensures var g := Footed(pages, |pages|);
      |g| == |pages| && (|pages| > 0 ==> g[0] == pages[0]) &&
      forall k :: 1 <= k < |g| ==>
        |g[k]| == |pages[k]| + 2 && g[k][..|pages[k]|] == pages[k] &&
        g[k][|g[k]| - 2] == Op.Text(FooterLabel(k + 1, |g|), Margin, PageHeight - Margin / 2.0, CaslonGrad, 10.0) &&
        g[k][|g[k]| - 1] == Image(BlackLogo, PageWidth - 3.0 * Margin, PageHeight - Margin, 2.0 * Margin, Margin)
  {
    forall k | 1 <= k < |pages| ensures
        var g := Footed(pages, |pages|);
        |g[k]| == |pages[k]| + 2 && g[k][..|pages[k]|] == pages[k] &&
        g[k][|g[k]| - 2] == Op.Text(FooterLabel(k + 1, |g|), Margin, PageHeight - Margin / 2.0, CaslonGrad, 10.0) &&
        g[k][|g[k]| - 1] == Image(BlackLogo, PageWidth - 3.0 * Margin, PageHeight - Margin, 2.0 * Margin, Margin)
    {
      FooterPageAt(pages, k);
    }
  }

  /** The small logo is drawn once per page from the second on, as its last
      operation, and nowhere else. */
  lemma SmallLogoOnlyInFooters(pages: Pages)
    requires BodyShaped(pages)
    ensures var g := Footed(pages, |pages|);
      forall k, j :: 0 <= k < |g| && 0 <= j < |g[k]| && !(1 <= k && j == |g[k]| - 1) ==>
        !(g[k][j].Image? && g[k][j].picture == BlackLogo)
  {
    var g: Pages := Footed(pages, |pages|);
    forall k, j | 0 <= k < |g| && 0 <= j < |g[k]| && !(1 <= k && j == |g[k]| - 1)
      ensures !(g[k][j].Image? && g[k][j].picture == BlackLogo)
    {
      FootedAt(pages, k);
      if j < |pages[k]| {
        BodyOpAt(pages, k, j);
      }
    }
  }

  /** The page labels of one document are pairwise different. */
  lemma FooterLabelsDistinct(i: nat, j: nat, n: nat)
    requires i != j
    ensures FooterLabel(i, n) != FooterLabel(j, n)
  {
    var a, b := Show(i), Show(j);
    var li, lj := FooterLabel(i, n), FooterLabel(j, n);
    if |a| < |b| {
      assert li[|a|] == ' ' && lj[|a|] == b[|a|];
    } else if |b| < |a| {
      assert lj[|b|] == ' ' && li[|b|] == a[|b|];
    } else {
      assert li[..|a|] == a && lj[..|b|] == b;
      ParseShow(i);
      ParseShow(j);
      assert a != b;
    }
  }
}
