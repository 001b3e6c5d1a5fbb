/** The page geometry of the report and the greedy word-wrapper
    `addWrappedText` with its inner `writeCurrentLine`, first as functions (a
    left fold over the words of the text) and then as the method that mutates
    a document, proved to do what the functions say. */
module Wrap {
  import opened JsText
  import opened JsPdf

  /** jsPDF's 'a4' page in points, portrait. */
  const PageWidth: real := 595.28
  const PageHeight: real := 841.89
  const Margin: real := 50.0
  const UsableWidth: real := PageWidth - 2.0 * Margin

  /** The lowest cursor position that does not force a page break. */
  const Bottom: real := PageHeight - Margin

  /** The guard used before every report line and after every placed word:
      past the bottom margin, a new empty page and the cursor back at the top
      margin. */
  function PageBreak(pages: Pages, y: real): (Pages, real) {
    if y > Bottom then (pages + [[]], Margin) else (pages, y)
  }

  /** Afterwards the cursor is never below the printable area, it is lowered
      to the top margin only, and at most one empty page has been added. */
  lemma PageBreakSpec(pages: Pages, y: real)
    ensures var r := PageBreak(pages, y);
      r.1 <= Bottom && (Margin <= y ==> Margin <= r.1) &&
      Extends(pages, r.0) && |pages| <= |r.0| <= |pages| + 1 &&
      (forall i :: 0 <= i < |pages| ==> r.0[i] == pages[i]) &&
      (|r.0| == |pages| + 1 ==> r.0[|pages|] == [] && y > Bottom && r.1 == Margin) &&
      (|r.0| == |pages| ==> y <= Bottom && r.1 == y)
  {
  }

  /** The arguments of one `addWrappedText` call besides the text and the
      cursor (the font style is always 'normal'). */
  datatype Style = Style(font: Font, size: real, indent: real, itemIndent: real)

  function LineHeight(st: Style): real {
    st.size * 1.2
  }

  function MaxWidth(st: Style): real {
    UsableWidth - st.indent - st.itemIndent
  }

  /** A word of a segment, and whether a space follows it (every word but the
      last of its segment). */
  datatype Token = Token(word: string, space: bool)

  function TokenText(t: Token): string {
    t.word + (if t.space then " " else "")
  }

  function Flatten(ts: seq<Token>): string {
    if ts == [] then "" else Flatten(ts[..|ts| - 1]) + TokenText(ts[|ts| - 1])
  }

  /** The width a run of tokens adds to `currentLineWidth`. */
  function Widths(ts: seq<Token>, st: Style, m: Measure): real {
    if ts == [] then 0.0 else
      var t := ts[|ts| - 1];
      Widths(ts[..|ts| - 1], st, m) + m(st.font, st.size, t.word) + (if t.space then m(st.font, st.size, " ") else 0.0)
  }

  /** The tokens of one segment's words: a space after all but the last. */
  function WordTokens(words: seq<string>): (ts: seq<Token>)
    ensures |ts| == |words|
  {
    if words == [] then []
    else if |words| == 1 then [Token(words[0], false)]
    else [Token(words[0], true)] + WordTokens(words[1..])
  }

  /** Word `k` becomes token `k`, with a space unless it is the last. */
  lemma {:induction false} WordTokensSpec(words: seq<string>)
    ensures |WordTokens(words)| == |words|
    ensures forall k :: 0 <= k < |words| ==> WordTokens(words)[k] == Token(words[k], k < |words| - 1)
  {
    if |words| > 1 {
      WordTokensSpec(words[1..]);
    }
  }

  /** The tokens of a sequence of segments, in the order the loops visit them. */
  function SegmentTokens(segments: seq<string>): seq<Token> {
    if segments == [] then []
    else SegmentTokens(segments[..|segments| - 1]) + WordTokens(SplitWs(StripBold(segments[|segments| - 1])))
  }

  function Tokens(text: string): seq<Token> {
    SegmentTokens(SplitBold(text))
  }

  /** A line as it was committed: the tokens it holds, the buffer text (drawn
      trimmed), its accumulated width, and where it was drawn. */
  datatype Committed = Committed(tokens: seq<Token>, text: string, width: real, y: real, page: nat)

  /** The wrapper's state: the document's pages, `currentLine`,
      `currentLineWidth`, `currentY`, `isFirstSegment`, and a record of the
      tokens in the buffer and of the lines committed so far. */
  datatype Pen = Pen(pages: Pages, line: string, width: real, y: real, first: bool,
                     pending: seq<Token>, lines: seq<Committed>)

  function Start(pages: Pages, y: real): Pen {
    Pen(pages, "", 0.0, y, true, [], [])
  }

  /** `writeCurrentLine`: a non-empty buffer is drawn trimmed at the cursor and
      the cursor moves down one line; an empty buffer is left alone. */
  function Flush(pen: Pen, st: Style): (r: Pen)
    requires |pen.pages| > 0
    ensures |r.pages| == |pen.pages|
  {
    if pen.line == "" then pen
    else
      var x := Margin + st.indent + (if pen.first then 0.0 else st.itemIndent);
      Pen(DrawOnLast(pen.pages, Op.Text(Trim(pen.line), x, pen.y, st.font, st.size)),
          "", 0.0, pen.y + LineHeight(st), false, [],
          pen.lines + [Committed(pen.pending, pen.line, pen.width, pen.y, |pen.pages| - 1)])
  }

  /** `t`'s word appended to the buffer, with its space if it has one. */
  function Append(pen: Pen, t: Token, st: Style, m: Measure): Pen {
    pen.(line := pen.line + TokenText(t),
         width := pen.width + m(st.font, st.size, t.word) + (if t.space then m(st.font, st.size, " ") else 0.0),
         pending := pen.pending + [t])
  }

  /** Whether placing `t` first commits the buffer: the word and a space would overflow. */
  function Overflows(pen: Pen, t: Token, st: Style, m: Measure): bool {
    pen.width + m(st.font, st.size, t.word) + m(st.font, st.size, " ") > MaxWidth(st)
  }

  /** One pass of the inner loop: commit on overflow, append, then the page-break guard. */
  function Place(pen: Pen, t: Token, st: Style, m: Measure): (r: Pen)
    requires |pen.pages| > 0
    ensures |r.pages| >= |pen.pages|
  {
    var p1 := if Overflows(pen, t, st, m) then Flush(pen, st) else pen;
    var p2 := Append(p1, t, st, m);
    var b := PageBreak(p2.pages, p2.y);
    p2.(pages := b.0, y := b.1)
  }

  function Run(pen: Pen, ts: seq<Token>, st: Style, m: Measure): (r: Pen)
    requires |pen.pages| > 0
    ensures |r.pages| >= |pen.pages|
  {
    if ts == [] then pen else Place(Run(pen, ts[..|ts| - 1], st, m), ts[|ts| - 1], st, m)
  }

  /** `addWrappedText(text, y, ...)`: every token placed, then the rest of the
      buffer committed. The result's `y` is the returned cursor. */
  function Wrapped(pages: Pages, text: string, y: real, st: Style, m: Measure): (r: Pen)
    requires |pages| > 0
    ensures |r.pages| >= |pages|
  {
    Flush(Run(Start(pages, y), Tokens(text), st, m), st)
  }

  /** The method's variables agree with the functional state. */
  ghost predicate Tracks(pen: Pen, pages: Pages, line: string, width: real, y: real, first: bool) {
    pen.pages == pages && pen.line == line && pen.width == width && pen.y == y && pen.first == first
  }

  /** The guard as a statement on the document and the cursor. */
  method BreakIfPastBottom(doc: Document, y: real) returns (y': real)
    requires doc.current == |doc.pages| - 1
    modifies doc`pages, doc`current
    ensures doc.Valid() && doc.current == |doc.pages| - 1
    ensures (doc.pages, y') == PageBreak(old(doc.pages), y)
  {
    y' := y;
    if y > Bottom {
      doc.AddPage();
      y' := Margin;
    }
  }

  method WriteCurrentLine(doc: Document, st: Style, ghost pen: Pen,
                          line: string, width: real, y: real, first: bool)
    returns (line': string, width': real, y': real, first': bool)
    requires doc.Valid() && doc.current == |doc.pages| - 1
    requires doc.font == st.font && doc.fontSize == st.size
    requires Tracks(pen, doc.pages, line, width, y, first)
    modifies doc`pages
    ensures doc.Valid() && doc.current == |doc.pages| - 1
    ensures Tracks(Flush(pen, st), doc.pages, line', width', y', first')
  {
    line', width', y', first' := line, width, y, first;
    if line != "" {
      doc.Text(Trim(line), Margin + st.indent + (if first then 0.0 else st.itemIndent), y);
      y' := y + LineHeight(st);
      line' := "";
      width' := 0.0;
      first' := false;
    }
  }

  /** Lines 93-98: commit the buffer when the word and a space would overflow. */
  method FlushIfOverflowing(doc: Document, st: Style, ghost pen: Pen, word: string, maxWidth: real,
                            line: string, width: real, y: real, first: bool)
    returns (line': string, width': real, y': real, first': bool)
    requires doc.Valid() && doc.current == |doc.pages| - 1
    requires doc.font == st.font && doc.fontSize == st.size && maxWidth == MaxWidth(st)
    requires Tracks(pen, doc.pages, line, width, y, first)
    modifies doc`pages
    ensures doc.Valid() && doc.current == |doc.pages| - 1
    ensures Tracks(if Overflows(pen, Token(word, false), st, doc.measure) then Flush(pen, st) else pen,
                   doc.pages, line', width', y', first')
  {
    var wordWidth := doc.TextWidth(word);
    var nextWordWidth := doc.TextWidth(" ");
    line', width', y', first' := line, width, y, first;
    if width + wordWidth + nextWordWidth > maxWidth {
      line', width', y', first' := WriteCurrentLine(doc, st, pen, line, width, y, first);
    }
  }

  /** Lines 100-107: the word, and its space unless it is the last of its segment. */
  method AppendWord(doc: Document, st: Style, ghost pen: Pen, word: string, notLast: bool,
                    line: string, width: real)
    returns (line': string, width': real)
    requires doc.font == st.font && doc.fontSize == st.size
    requires pen.line == line && pen.width == width
    ensures var p := Append(pen, Token(word, notLast), st, doc.measure);
      p.line == line' && p.width == width'
  {
    var wordWidth := doc.TextWidth(word);
    var nextWordWidth := doc.TextWidth(" ");
    line' := line + word;
    width' := width + wordWidth;
    if notLast {
      line' := line' + " ";
      width' := width' + nextWordWidth;
    }
  }

  /** Running the step over two runs of tokens is running it over their concatenation. */
  lemma {:induction false} RunAppend(pen: Pen, a: seq<Token>, b: seq<Token>, st: Style, m: Measure)
    requires |pen.pages| > 0
    ensures Run(pen, a + b, st, m) == Run(Run(pen, a, st, m), b, st, m)
    decreases |b|
  {
    if b == [] {
      assert a + b == a;
    } else {
      assert (a + b)[..|a + b| - 1] == a + b[..|b| - 1];
      RunAppend(pen, a, b[..|b| - 1], st, m);
    }
  }

  /** Running over one more word is one more `Place`. */
  lemma RunWordsSnoc(pen: Pen, words: seq<string>, w: nat, st: Style, m: Measure)
    requires |pen.pages| > 0 && w < |words|
    ensures Run(pen, WordTokens(words)[..w + 1], st, m) ==
            Place(Run(pen, WordTokens(words)[..w], st, m), Token(words[w], w < |words| - 1), st, m)
  {
    WordTokensSpec(words);
    assert WordTokens(words)[..w + 1][..w] == WordTokens(words)[..w];
  }

  /** The inner loop of `addWrappedText` over the words of one segment. */
  method PlaceWords(doc: Document, st: Style, ghost pen: Pen, words: seq<string>, maxWidth: real,
                    line: string, width: real, y: real, first: bool)
    returns (ghost pen': Pen, line': string, width': real, y': real, first': bool)
    requires doc.Valid() && doc.current == |doc.pages| - 1
    requires doc.font == st.font && doc.fontSize == st.size && maxWidth == MaxWidth(st)
    requires Tracks(pen, doc.pages, line, width, y, first)
    modifies doc`pages, doc`current
    ensures doc.Valid() && doc.current == |doc.pages| - 1
    ensures |pen.pages| > 0 && pen' == Run(pen, WordTokens(words), st, doc.measure)
    ensures Tracks(pen', doc.pages, line', width', y', first')
  {
    pen', line', width', y', first' := pen, line, width, y, first;
    WordTokensSpec(words);
    for w := 0 to |words|
      invariant doc.Valid() && doc.current == |doc.pages| - 1
      invariant pen' == Run(pen, WordTokens(words)[..w], st, doc.measure)
      invariant Tracks(pen', doc.pages, line', width', y', first')
    {
      ghost var t := Token(words[w], w < |words| - 1);
      line', width', y', first' := FlushIfOverflowing(doc, st, pen', words[w], maxWidth, line', width', y', first');
      ghost var p1 := if Overflows(pen', t, st, doc.measure) then Flush(pen', st) else pen';
      line', width' := AppendWord(doc, st, p1, words[w], w < |words| - 1, line', width');
      y' := BreakIfPastBottom(doc, y');
      RunWordsSnoc(pen, words, w, st, doc.measure);
      pen' := Place(pen', t, st, doc.measure);
    }
    assert WordTokens(words)[..|words|] == WordTokens(words);
  }

  /** One pass of the outer loop of `addWrappedText` (lines 75-113). */
  method PlaceSegment(doc: Document, st: Style, ghost pen: Pen, segment: string, maxWidth: real,
                      line: string, width: real, y: real, first: bool)
    returns (ghost pen': Pen, line': string, width': real, y': real, first': bool)
    requires doc.Valid() && doc.current == |doc.pages| - 1
    requires doc.fontSize == st.size && maxWidth == MaxWidth(st)
    requires Tracks(pen, doc.pages, line, width, y, first)
    modifies doc`pages, doc`current, doc`font
    ensures doc.Valid() && doc.current == |doc.pages| - 1
    ensures doc.font == st.font && doc.fontSize == st.size
    ensures |pen.pages| > 0 && pen' == Run(pen, WordTokens(SplitWs(StripBold(segment))), st, doc.measure)
    ensures Tracks(pen', doc.pages, line', width', y', first')
  {
    var content := StripBold(segment);
    doc.SetFont(st.font);
    var words := SplitWs(content);
    pen', line', width', y', first' := PlaceWords(doc, st, pen, words, maxWidth, line, width, y, first);
  }

  /** Running over one more segment is running over its words afterwards. */
  lemma RunSegmentsSnoc(pen: Pen, segments: seq<string>, s: nat, st: Style, m: Measure)
    requires |pen.pages| > 0 && s < |segments|
    ensures Run(pen, SegmentTokens(segments[..s + 1]), st, m) ==
            Run(Run(pen, SegmentTokens(segments[..s]), st, m), WordTokens(SplitWs(StripBold(segments[s]))), st, m)
  {
    assert segments[..s + 1][..s] == segments[..s];
    RunAppend(pen, SegmentTokens(segments[..s]), WordTokens(SplitWs(StripBold(segments[s]))), st, m);
  }

  /** The outer loop of `addWrappedText` (lines 75-113) over the segments. */
  method PlaceSegments(doc: Document, st: Style, ghost pen: Pen, segments: seq<string>, maxWidth: real,
                       line: string, width: real, y: real, first: bool)
    returns (ghost pen': Pen, line': string, width': real, y': real, first': bool)
    requires doc.Valid() && doc.current == |doc.pages| - 1
    requires doc.fontSize == st.size && maxWidth == MaxWidth(st)
    requires |segments| > 0
    requires Tracks(pen, doc.pages, line, width, y, first)
    modifies doc`pages, doc`current, doc`font
    ensures doc.Valid() && doc.current == |doc.pages| - 1
    ensures doc.font == st.font && doc.fontSize == st.size
    ensures |pen.pages| > 0 && pen' == Run(pen, SegmentTokens(segments), st, doc.measure)
    ensures Tracks(pen', doc.pages, line', width', y', first')
  {
    pen', line', width', y', first' := pen, line, width, y, first;
    for s := 0 to |segments|
      invariant doc.Valid() && doc.current == |doc.pages| - 1 && doc.fontSize == st.size
      invariant s > 0 ==> doc.font == st.font
      invariant |pen.pages| > 0 && pen' == Run(pen, SegmentTokens(segments[..s]), st, doc.measure)
      invariant Tracks(pen', doc.pages, line', width', y', first')
    {
      RunSegmentsSnoc(pen, segments, s, st, doc.measure);
      pen', line', width', y', first' := PlaceSegment(doc, st, pen', segments[s], maxWidth, line', width', y', first');
    }
    assert segments[..|segments|] == segments;
  }

  /** `addWrappedText`: the document ends as `Wrapped` says, and the returned
      cursor is its cursor. */
  method AddWrappedText(doc: Document, text: string, y: real, fontSize: real, fontName: Font,
                        indent: real, listItemIndent: real)
    returns (newY: real)
    requires doc.Valid() && doc.current == |doc.pages| - 1
    modifies doc`pages, doc`current, doc`font, doc`fontSize
    ensures doc.Valid() && doc.current == |doc.pages| - 1
    ensures doc.font == fontName && doc.fontSize == fontSize
    ensures doc.pages == Wrapped(old(doc.pages), text, y, Style(fontName, fontSize, indent, listItemIndent), doc.measure).pages
    ensures newY == Wrapped(old(doc.pages), text, y, Style(fontName, fontSize, indent, listItemIndent), doc.measure).y
  {
    var st := Style(fontName, fontSize, indent, listItemIndent);
    doc.SetFontSize(fontSize);
    var segments := SplitBold(text);
    SplitBoldSpec(text);
    ghost var pen := Start(doc.pages, y);
    var currentLine, currentLineWidth, currentY, isFirstSegment;
    pen, currentLine, currentLineWidth, currentY, isFirstSegment :=
      PlaceSegments(doc, st, pen, segments, UsableWidth - indent - listItemIndent, "", 0.0, y, true);
    currentLine, currentLineWidth, currentY, isFirstSegment :=
      WriteCurrentLine(doc, st, pen, currentLine, currentLineWidth, currentY, isFirstSegment);
    newY := currentY;
  }
}
