/** What `addWrappedText` guarantees, proved about the fold `Wrap.Wrapped`
    that the method is shown to compute: the committed lines carry the words
    of the text in order, a line of two or more words fits the width and a
    line is committed only when the next word would not fit, lines are spaced
    one line height apart with page breaks in between, and the document's new
    operations are exactly those lines. */
module WrapProofs {
  import opened JsText
  import opened JsPdf
  import opened Wrap

  /** The buffer texts of committed lines, one after the other. */
  function TextsOf(lines: seq<Committed>): string {
    if lines == [] then "" else TextsOf(lines[..|lines| - 1]) + lines[|lines| - 1].text
  }

  /** The tokens of committed lines, one after the other. */
  function TokensOf(lines: seq<Committed>): seq<Token> {
    if lines == [] then [] else TokensOf(lines[..|lines| - 1]) + lines[|lines| - 1].tokens
  }

  /** At most one word with text: every token before the last is an empty
      word without a space. */
  predicate OneWord(ts: seq<Token>) {
    |ts| > 0 && forall i :: 0 <= i < |ts| - 1 ==> TokenText(ts[i]) == ""
  }

  lemma {:induction false} FlattenAppend(a: seq<Token>, b: seq<Token>)
    ensures Flatten(a + b) == Flatten(a) + Flatten(b)
    decreases |b|
  {
    if b == [] {
      assert a + b == a;
    } else {
      assert (a + b)[..|a + b| - 1] == a + b[..|b| - 1];
      FlattenAppend(a, b[..|b| - 1]);
    }
  }

  /** A run of tokens has no text exactly when each of its tokens has none. */
  lemma {:induction false} FlattenEmpty(ts: seq<Token>)
    ensures Flatten(ts) == "" <==> forall i :: 0 <= i < |ts| ==> TokenText(ts[i]) == ""
    decreases |ts|
  {
    if ts != [] {
      var init := ts[..|ts| - 1];
      FlattenEmpty(init);
      assert forall i :: 0 <= i < |init| ==> init[i] == ts[i];
      assert Flatten(ts) == Flatten(init) + TokenText(ts[|ts| - 1]);
    }
  }

  /** `done + ts` is `done` and all of `ts` but its last, then its last. */
  lemma SnocSplit<T>(done: seq<T>, ts: seq<T>)
    requires ts != []
    ensures done + ts[..|ts| - 1] + [ts[|ts| - 1]] == done + ts
  {
    assert ts[..|ts| - 1] + [ts[|ts| - 1]] == ts;
  }

  lemma SplitAt<T>(a: seq<T>, b: seq<T>, c: seq<T>)
    requires a + b == c
    ensures a <= c && c[|a|..] == b
  {
    assert c[|a|..] == (a + b)[|a|..];
  }

  // ----- Text: the buffer and the committed lines partition the tokens -----

  ghost predicate TextInv(pen: Pen, done: seq<Token>) {
    pen.line == Flatten(pen.pending) &&
    TokensOf(pen.lines) + pen.pending == done &&
    forall k :: 0 <= k < |pen.lines| ==> pen.lines[k].text == Flatten(pen.lines[k].tokens) && pen.lines[k].text != ""
  }

  lemma FlushText(pen: Pen, done: seq<Token>, st: Style)
    requires |pen.pages| > 0 && TextInv(pen, done)
    ensures TextInv(Flush(pen, st), done)
  {
    if pen.line != "" {
      var r := Flush(pen, st);
      assert r.lines[..|r.lines| - 1] == pen.lines;
      assert TokensOf(r.lines) + r.pending == TokensOf(pen.lines) + pen.pending;
      forall k | 0 <= k < |r.lines| ensures r.lines[k].text == Flatten(r.lines[k].tokens) && r.lines[k].text != "" {
        if k < |pen.lines| {
          assert r.lines[k] == pen.lines[k];
        }
      }
    }
  }

  lemma AppendText(pen: Pen, t: Token, done: seq<Token>, st: Style, m: Measure)
    requires TextInv(pen, done)
    ensures TextInv(Append(pen, t, st, m), done + [t])
  {
    var r := Append(pen, t, st, m);
    assert r.pending[..|r.pending| - 1] == pen.pending;
    assert TokensOf(pen.lines) + r.pending == done + [t];
  }

  lemma PlaceText(pen: Pen, t: Token, done: seq<Token>, st: Style, m: Measure)
    requires |pen.pages| > 0 && TextInv(pen, done)
    ensures TextInv(Place(pen, t, st, m), done + [t])
  {
    var p1 := if Overflows(pen, t, st, m) then Flush(pen, st) else pen;
    FlushText(pen, done, st);
    AppendText(p1, t, done, st, m);
  }

  lemma {:induction false} RunText(pen: Pen, ts: seq<Token>, done: seq<Token>, st: Style, m: Measure)
    requires |pen.pages| > 0 && TextInv(pen, done)
    ensures TextInv(Run(pen, ts, st, m), done + ts)
    decreases |ts|
  {
    if ts == [] {
      assert done + ts == done;
    } else {
      var init := ts[..|ts| - 1];
      RunText(pen, init, done, st, m);
      PlaceText(Run(pen, init, st, m), ts[|ts| - 1], done + init, st, m);
      SnocSplit(done, ts);
    }
  }

  /** Lines whose texts are their tokens' texts concatenate to their tokens' text. */
  lemma {:induction false} TextsOfTokens(lines: seq<Committed>)
    requires forall k :: 0 <= k < |lines| ==> lines[k].text == Flatten(lines[k].tokens)
    ensures TextsOf(lines) == Flatten(TokensOf(lines))
    decreases |lines|
  {
    if lines != [] {
      var init := lines[..|lines| - 1];
      assert forall k :: 0 <= k < |init| ==> init[k] == lines[k];
      TextsOfTokens(init);
      FlattenAppend(TokensOf(init), lines[|lines| - 1].tokens);
    }
  }

  // ----- Width: what a line may hold, and why it was committed -----

  /** The overflow test of the wrapper against a given accumulated width. */
  ghost predicate Over(width: real, t: Token, st: Style, m: Measure) {
    width + m(st.font, st.size, t.word) + m(st.font, st.size, " ") > MaxWidth(st)
  }

  /** A committed line's width is its tokens' width, and it fits unless it
      holds at most one word. */
  ghost predicate Fits(l: Committed, st: Style, m: Measure) {
    l.width == Widths(l.tokens, st, m) && (l.width <= MaxWidth(st) || OneWord(l.tokens))
  }

  ghost predicate WidthInv(pen: Pen, st: Style, m: Measure) {
    pen.width == Widths(pen.pending, st, m) &&
    (pen.pending == [] || pen.width <= MaxWidth(st) || OneWord(pen.pending)) &&
    forall k :: 0 <= k < |pen.lines| ==> Fits(pen.lines[k], st, m)
  }

  lemma WidthsSnoc(ts: seq<Token>, t: Token, st: Style, m: Measure)
    ensures Widths(ts + [t], st, m) ==
      Widths(ts, st, m) + m(st.font, st.size, t.word) + (if t.space then m(st.font, st.size, " ") else 0.0)
  {
    assert (ts + [t])[..|ts|] == ts;
  }

  lemma PlaceWidth(pen: Pen, t: Token, done: seq<Token>, st: Style, m: Measure)
    requires |pen.pages| > 0 && TextInv(pen, done) && WidthInv(pen, st, m)
    ensures WidthInv(Place(pen, t, st, m), st, m)
  {
    var r := Place(pen, t, st, m);
    WidthsSnoc(pen.pending, t, st, m);
    WidthsSnoc([], t, st, m);
    assert [] + [t] == [t];
    if Overflows(pen, t, st, m) {
      if pen.line != "" {
        var p1 := Flush(pen, st);
        assert pen.pending != [];
        forall k | 0 <= k < |p1.lines| ensures Fits(p1.lines[k], st, m) {
          if k < |pen.lines| {
            assert p1.lines[k] == pen.lines[k];
          }
        }
        assert r.pending == [t];
      } else {
        FlattenEmpty(pen.pending);
        assert OneWord(r.pending) by {
          forall i | 0 <= i < |r.pending| - 1 ensures TokenText(r.pending[i]) == "" {
            assert r.pending[i] == pen.pending[i];
          }
        }
      }
    }
  }

  lemma FlushWidth(pen: Pen, done: seq<Token>, st: Style, m: Measure)
    requires |pen.pages| > 0 && TextInv(pen, done) && WidthInv(pen, st, m)
    ensures forall k :: 0 <= k < |Flush(pen, st).lines| ==> Fits(Flush(pen, st).lines[k], st, m)
  {
    if pen.line != "" {
      var r := Flush(pen, st);
      assert pen.pending != [];
      forall k | 0 <= k < |r.lines| ensures Fits(r.lines[k], st, m) {
        if k < |pen.lines| {
          assert r.lines[k] == pen.lines[k];
        }
      }
    }
  }

  lemma {:induction false} RunWidth(pen: Pen, ts: seq<Token>, done: seq<Token>, st: Style, m: Measure)
    requires |pen.pages| > 0 && TextInv(pen, done) && WidthInv(pen, st, m)
    ensures WidthInv(Run(pen, ts, st, m), st, m)
    decreases |ts|
  {
    if ts != [] {
      var init := ts[..|ts| - 1];
      RunWidth(pen, init, done, st, m);
      RunText(pen, init, done, st, m);
      PlaceWidth(Run(pen, init, st, m), ts[|ts| - 1], done + init, st, m);
    }
  }

  /** Every committed line but the last was committed because the first word
      of the next line, with a space, would have overflowed it. */
  ghost predicate Greedy(lines: seq<Committed>, st: Style, m: Measure) {
    forall k :: 0 <= k < |lines| - 1 ==> Pushed(lines[k], lines[k + 1], st, m)
  }

  /** Line `b` follows `a` because its first word would have overflowed `a`. */
  ghost predicate Pushed(a: Committed, b: Committed, st: Style, m: Measure) {
    b.tokens != [] && Over(a.width, b.tokens[0], st, m)
  }

  /** While words are placed, the same holds of the last line and the buffer. */
  ghost predicate GreedyInv(pen: Pen, st: Style, m: Measure) {
    Greedy(pen.lines, st, m) &&
    (pen.lines != [] ==> pen.pending != [] && Over(pen.lines[|pen.lines| - 1].width, pen.pending[0], st, m))
  }

  lemma PlaceGreedy(pen: Pen, t: Token, done: seq<Token>, st: Style, m: Measure)
    requires |pen.pages| > 0 && TextInv(pen, done) && GreedyInv(pen, st, m)
    ensures GreedyInv(Place(pen, t, st, m), st, m)
  {
    var r := Place(pen, t, st, m);
    if Overflows(pen, t, st, m) && pen.line != "" {
      var p1 := Flush(pen, st);
      assert pen.pending != [];
      assert r.lines == p1.lines && r.pending == [t];
      forall k | 0 <= k < |p1.lines| - 1 ensures Pushed(p1.lines[k], p1.lines[k + 1], st, m) {
        if k + 1 < |pen.lines| {
          assert p1.lines[k] == pen.lines[k] && p1.lines[k + 1] == pen.lines[k + 1];
        }
      }
    } else {
      assert r.lines == pen.lines && r.pending == pen.pending + [t];
    }
  }

  lemma FlushGreedy(pen: Pen, done: seq<Token>, st: Style, m: Measure)
    requires |pen.pages| > 0 && TextInv(pen, done) && GreedyInv(pen, st, m)
    ensures Greedy(Flush(pen, st).lines, st, m)
  {
    if pen.line != "" {
      var r := Flush(pen, st);
      assert pen.pending != [];
      forall k | 0 <= k < |r.lines| - 1 ensures Pushed(r.lines[k], r.lines[k + 1], st, m) {
        if k + 1 < |pen.lines| {
          assert r.lines[k] == pen.lines[k] && r.lines[k + 1] == pen.lines[k + 1];
        }
      }
    }
  }

  lemma {:induction false} RunGreedy(pen: Pen, ts: seq<Token>, done: seq<Token>, st: Style, m: Measure)
    requires |pen.pages| > 0 && TextInv(pen, done) && GreedyInv(pen, st, m)
    ensures GreedyInv(Run(pen, ts, st, m), st, m)
    decreases |ts|
  {
    if ts != [] {
      var init := ts[..|ts| - 1];
      RunGreedy(pen, init, done, st, m);
      RunText(pen, init, done, st, m);
      PlaceGreedy(Run(pen, init, st, m), ts[|ts| - 1], done + init, st, m);
    }
  }

  // ----- Geometry: where the lines go -----

  /** The page-break guard on a cursor and a page index. */
  function Guard(y: real, page: nat): (real, nat) {
    if y > Bottom then (Margin, page + 1) else (y, page)
  }

  /** Where the cursor stands once `l` is committed and the guard has run. */
  function After(l: Committed, st: Style): (real, nat) {
    Guard(l.y + LineHeight(st), l.page)
  }

  /** Each line after the first is one line height below the one before, or
      at the top margin of the next page when that would pass the bottom. */
  ghost predicate Spaced(lines: seq<Committed>, st: Style) {
    forall k :: 0 <= k < |lines| - 1 ==> (lines[k + 1].y, lines[k + 1].page) == After(lines[k], st)
  }

  ghost predicate GeoInv(pages0: Pages, y0: real, pen: Pen, st: Style, started: bool) {
    |pages0| > 0 &&
    (!started ==> pen == Start(pages0, y0)) &&
    (started && pen.lines == [] ==> (pen.y, |pen.pages| - 1) == Guard(y0, |pages0| - 1)) &&
    (pen.lines != [] ==>
      started && (pen.lines[0].y, pen.lines[0].page) == Guard(y0, |pages0| - 1) &&
      (pen.y, |pen.pages| - 1) == After(pen.lines[|pen.lines| - 1], st)) &&
    Spaced(pen.lines, st)
  }

  lemma PlaceGeo(pages0: Pages, y0: real, pen: Pen, t: Token, st: Style, m: Measure, started: bool)
    requires |pen.pages| > 0 && GeoInv(pages0, y0, pen, st, started)
    ensures GeoInv(pages0, y0, Place(pen, t, st, m), st, true)
  {
    var r := Place(pen, t, st, m);
    if Overflows(pen, t, st, m) && pen.line != "" {
      var p1 := Flush(pen, st);
      assert r.lines == p1.lines && r.y == Guard(p1.y, |p1.pages| - 1).0;
      forall k | 0 <= k < |p1.lines| - 1 ensures (p1.lines[k + 1].y, p1.lines[k + 1].page) == After(p1.lines[k], st) {
        if k + 1 < |pen.lines| {
          assert p1.lines[k] == pen.lines[k] && p1.lines[k + 1] == pen.lines[k + 1];
        }
      }
      if pen.lines != [] {
        assert p1.lines[0] == pen.lines[0];
      }
    } else {
      assert r.lines == pen.lines;
    }
  }

  lemma {:induction false} RunGeo(pages0: Pages, y0: real, ts: seq<Token>, st: Style, m: Measure)
    requires |pages0| > 0
    ensures GeoInv(pages0, y0, Run(Start(pages0, y0), ts, st, m), st, ts != [])
    decreases |ts|
  {
    if ts != [] {
      var init := ts[..|ts| - 1];
      RunGeo(pages0, y0, init, st, m);
      PlaceGeo(pages0, y0, Run(Start(pages0, y0), init, st, m), ts[|ts| - 1], st, m, init != []);
    }
  }

  // ----- Drawing: the new operations are exactly the committed lines -----

  /** The `text` call that commits `l`. */
  function LineOp(l: Committed, st: Style, firstLine: bool): Op {
    Op.Text(Trim(l.text), Margin + st.indent + (if firstLine then 0.0 else st.itemIndent), l.y, st.font, st.size)
  }

  /** `pages` with empty pages added until there are `n`. */
  function Grow(pages: Pages, n: nat): (r: Pages)
    ensures |r| == if n <= |pages| then |pages| else n
    decreases n
  {
    if n <= |pages| then pages else Grow(pages, n - 1) + [[]]
  }

  /** An independent account of the drawing: each committed line, in order,
      drawn last on its own page, the first one without the item indent. */
  function Replay(pages0: Pages, lines: seq<Committed>, st: Style): (r: Pages)
    requires |pages0| > 0
    ensures |r| > 0
  {
    if lines == [] then pages0
    else
      var l := lines[|lines| - 1];
      DrawOnLast(Grow(Replay(pages0, lines[..|lines| - 1], st), l.page + 1), LineOp(l, st, |lines| == 1))
  }

  ghost predicate DrawInv(pages0: Pages, pen: Pen, st: Style) {
    |pages0| > 0 &&
    |Replay(pages0, pen.lines, st)| <= |pen.pages| &&
    pen.pages == Grow(Replay(pages0, pen.lines, st), |pen.pages|) &&
    (pen.first <==> pen.lines == [])
  }

  lemma ReplaySnoc(pages0: Pages, lines: seq<Committed>, l: Committed, st: Style)
    requires |pages0| > 0
    ensures Replay(pages0, lines + [l], st) ==
      DrawOnLast(Grow(Replay(pages0, lines, st), l.page + 1), LineOp(l, st, lines == []))
  {
    assert (lines + [l])[..|lines|] == lines;
  }

  lemma GrowSnoc(pages: Pages, n: nat)
    requires |pages| <= n
    ensures Grow(pages, n + 1) == Grow(pages, n) + [[]]
  {
  }

  lemma FlushDraw(pages0: Pages, pen: Pen, st: Style)
    requires |pen.pages| > 0 && DrawInv(pages0, pen, st)
    ensures DrawInv(pages0, Flush(pen, st), st)
  {
    if pen.line != "" {
      var l := Committed(pen.pending, pen.line, pen.width, pen.y, |pen.pages| - 1);
      var op := LineOp(l, st, pen.lines == []);
      ReplaySnoc(pages0, pen.lines, l, st);
      assert Grow(Replay(pages0, pen.lines, st), l.page + 1) == pen.pages;
      var r := Flush(pen, st);
      assert r.lines == pen.lines + [l];
      assert r.pages == DrawOnLast(pen.pages, op);
      assert Replay(pages0, r.lines, st) == r.pages;
    }
  }

  lemma PlaceDraw(pages0: Pages, pen: Pen, t: Token, st: Style, m: Measure)
    requires |pen.pages| > 0 && DrawInv(pages0, pen, st)
    ensures DrawInv(pages0, Place(pen, t, st, m), st)
  {
    var p1 := if Overflows(pen, t, st, m) then Flush(pen, st) else pen;
    FlushDraw(pages0, pen, st);
    var p2 := Append(p1, t, st, m);
    assert DrawInv(pages0, p2, st);
    if p2.y > Bottom {
      GrowSnoc(Replay(pages0, p2.lines, st), |p2.pages|);
    }
  }

  lemma {:induction false} RunDraw(pages0: Pages, pen: Pen, ts: seq<Token>, st: Style, m: Measure)
    requires |pen.pages| > 0 && DrawInv(pages0, pen, st)
    ensures DrawInv(pages0, Run(pen, ts, st, m), st)
    decreases |ts|
  {
    if ts != [] {
      var init := ts[..|ts| - 1];
      RunDraw(pages0, pen, init, st, m);
      PlaceDraw(pages0, Run(pen, init, st, m), ts[|ts| - 1], st, m);
    }
  }

  // ----- Style and band: what the new operations look like -----

  /** A `text` call of the wrapper in style `st`, inside the printable band. */
  function InStyle(st: Style): Op -> bool {
    (op: Op) => op.Text? && op.font == st.font && op.size == st.size &&
      (op.x == Margin + st.indent || op.x == Margin + st.indent + st.itemIndent) &&
      Margin <= op.y <= Bottom
  }

  ghost predicate BandInv(pages0: Pages, pen: Pen, st: Style) {
    Extends(pages0, pen.pages) && NewOpsSatisfy(pages0, pen.pages, InStyle(st)) &&
    Margin <= pen.y && (pen.line != "" ==> pen.y <= Bottom) &&
    forall k :: 0 <= k < |pen.lines| ==> Margin <= pen.lines[k].y <= Bottom
  }

  lemma FlushBand(pages0: Pages, pen: Pen, st: Style)
    requires |pen.pages| > 0 && 0.0 <= st.size && BandInv(pages0, pen, st)
    ensures BandInv(pages0, Flush(pen, st), st)
  {
    if pen.line != "" {
      var r := Flush(pen, st);
      var op := Op.Text(Trim(pen.line), Margin + st.indent + (if pen.first then 0.0 else st.itemIndent), pen.y, st.font, st.size);
      assert InStyle(st)(op);
      DrawOnLastExtends(pen.pages, op, InStyle(st));
      ExtendsTrans(pages0, pen.pages, r.pages);
      NewOpsTrans(pages0, pen.pages, r.pages, InStyle(st));
      SnocInBand(pen.lines, r.lines[|r.lines| - 1]);
    }
  }

  lemma SnocInBand(lines: seq<Committed>, c: Committed)
    requires Margin <= c.y <= Bottom && forall k :: 0 <= k < |lines| ==> Margin <= lines[k].y <= Bottom
    ensures forall k :: 0 <= k < |lines + [c]| ==> Margin <= (lines + [c])[k].y <= Bottom
  {
    forall k | 0 <= k < |lines + [c]| ensures Margin <= (lines + [c])[k].y <= Bottom {
      if k < |lines| {
        assert (lines + [c])[k] == lines[k];
      }
    }
  }

  lemma PlaceBand(pages0: Pages, pen: Pen, t: Token, st: Style, m: Measure)
    requires |pen.pages| > 0 && 0.0 <= st.size && BandInv(pages0, pen, st)
    ensures BandInv(pages0, Place(pen, t, st, m), st)
  {
    var p1 := if Overflows(pen, t, st, m) then Flush(pen, st) else pen;
    FlushBand(pages0, pen, st);
    var p2 := Append(p1, t, st, m);
    assert Extends(pages0, p2.pages) && NewOpsSatisfy(pages0, p2.pages, InStyle(st)) && Margin <= p2.y;
    assert p2.lines == p1.lines;
    if p2.y > Bottom {
      EmptyPageExtends(p2.pages, InStyle(st));
      ExtendsTrans(pages0, p2.pages, p2.pages + [[]]);
      NewOpsTrans(pages0, p2.pages, p2.pages + [[]], InStyle(st));
    }
  }

  lemma {:induction false} RunBand(pages0: Pages, pen: Pen, ts: seq<Token>, st: Style, m: Measure)
    requires |pen.pages| > 0 && 0.0 <= st.size && BandInv(pages0, pen, st)
    ensures BandInv(pages0, Run(pen, ts, st, m), st)
    decreases |ts|
  {
    if ts != [] {
      var init := ts[..|ts| - 1];
      RunBand(pages0, pen, init, st, m);
      PlaceBand(pages0, Run(pen, init, st, m), ts[|ts| - 1], st, m);
    }
  }

  // ----- From tokens back to the text -----

  /** The words of one segment joined by single spaces, the segments run together. */
  function SpacedWords(segments: seq<string>): string {
    if segments == [] then ""
    else SpacedWords(segments[..|segments| - 1]) + JoinWith(SplitWs(StripBold(segments[|segments| - 1])), ' ')
  }

  /** The segments with their outer `**` stripped, run together. */
  function Stripped(segments: seq<string>): string {
    if segments == [] then "" else Stripped(segments[..|segments| - 1]) + StripBold(segments[|segments| - 1])
  }

  lemma {:induction false} WordTokensText(words: seq<string>)
    requires |words| >= 1
    ensures Flatten(WordTokens(words)) == JoinWith(words, ' ')
  {
    var t := Token(words[0], |words| > 1);
    assert Flatten([t]) == TokenText(t) by {
      assert [t][..0] == [];
    }
    if |words| > 1 {
      WordTokensText(words[1..]);
      FlattenAppend([t], WordTokens(words[1..]));
    }
  }

  lemma {:induction false} SegmentTokensText(segments: seq<string>)
    ensures Flatten(SegmentTokens(segments)) == SpacedWords(segments)
  {
    if segments != [] {
      var init := segments[..|segments| - 1];
      var words := SplitWs(StripBold(segments[|segments| - 1]));
      SegmentTokensText(init);
      FlattenAppend(SegmentTokens(init), WordTokens(words));
      WordTokensText(words);
    }
  }

  lemma {:induction false} JoinWithRemoveWs(words: seq<string>)
    requires |words| >= 1 && forall k :: 0 <= k < |words| ==> NoWs(words[k])
    ensures RemoveWs(JoinWith(words, ' ')) == Concat(words)
  {
    RemoveWsOfNoWs(words[0]);
    if |words| > 1 {
      JoinWithRemoveWs(words[1..]);
      RemoveWsAppend(words[0] + [' '], JoinWith(words[1..], ' '));
      RemoveWsAppend(words[0], [' ']);
      assert RemoveWs([' ']) == "";
    }
  }

  /** Re-spacing the words changes nothing but whitespace. */
  lemma {:induction false} SpacedWordsKeep(segments: seq<string>)
    ensures RemoveWs(SpacedWords(segments)) == RemoveWs(Stripped(segments))
  {
    if segments != [] {
      var init := segments[..|segments| - 1];
      var content := StripBold(segments[|segments| - 1]);
      SpacedWordsKeep(init);
      JoinWithRemoveWs(SplitWs(content));
      SplitWsKeepsText(content);
      RemoveWsAppend(SpacedWords(init), JoinWith(SplitWs(content), ' '));
      RemoveWsAppend(Stripped(init), content);
    }
  }

  /** Every text yields a token: there is always a segment, and every segment
      a word (perhaps empty). */
  lemma TokensNonEmpty(text: string)
    ensures Tokens(text) != []
  {
    SplitBoldSpec(text);
    var segments := SplitBold(text);
    assert |WordTokens(SplitWs(StripBold(segments[|segments| - 1])))| >= 1;
  }

  /** A run of tokens holding at most one word has that word's text. */
  lemma {:induction false} OneWordText(ts: seq<Token>)
    requires OneWord(ts)
    ensures Flatten(ts) == TokenText(ts[|ts| - 1])
  {
    var init := ts[..|ts| - 1];
    assert forall i :: 0 <= i < |init| ==> init[i] == ts[i];
    FlattenEmpty(init);
  }

  // ----- What `addWrappedText` guarantees -----

  /** Once the buffer is empty, the committed lines are all the text of the
      tokens, and what they have not taken has no text. */
  lemma FlushedText(r: Pen, all: seq<Token>)
    requires TextInv(r, all) && r.line == ""
    ensures TextsOf(r.lines) == Flatten(all) && TokensOf(r.lines) <= all &&
      Flatten(all[|TokensOf(r.lines)|..]) == ""
  {
    SplitAt(TokensOf(r.lines), r.pending, all);
    FlattenAppend(TokensOf(r.lines), r.pending);
    TextsOfTokens(r.lines);
  }

  lemma WrappedTextInv(pages: Pages, text: string, y: real, st: Style, m: Measure)
    requires |pages| > 0
    ensures TextInv(Wrapped(pages, text, y, st, m), Tokens(text)) && Wrapped(pages, text, y, st, m).line == ""
  {
    TokensTextInv(pages, y, Tokens(text), st, m);
  }

  lemma TokensTextInv(pages: Pages, y: real, ts: seq<Token>, st: Style, m: Measure)
    requires |pages| > 0
    ensures var r := Flush(Run(Start(pages, y), ts, st, m), st);
      TextInv(r, ts) && r.line == ""
  {
    var start := Start(pages, y);
    assert [] + ts == ts;
    RunText(start, ts, [], st, m);
    FlushText(Run(start, ts, st, m), ts, st);
  }

  /** Text preservation: the committed lines, in order, hold exactly the text
      of the tokens: no line is empty, and the tokens left in the buffer at the
      end, never drawn, have no text. */
  lemma WrappedText(pages: Pages, text: string, y: real, st: Style, m: Measure)
    requires |pages| > 0
    ensures var r := Wrapped(pages, text, y, st, m);
      TextsOf(r.lines) == Flatten(Tokens(text)) == SpacedWords(SplitBold(text)) &&
      (forall k :: 0 <= k < |r.lines| ==> r.lines[k].text == Flatten(r.lines[k].tokens) && r.lines[k].text != "") &&
      TokensOf(r.lines) <= Tokens(text) && Flatten(Tokens(text)[|TokensOf(r.lines)|..]) == ""
  {
    WrappedTextInv(pages, text, y, st, m);
    FlushedText(Wrapped(pages, text, y, st, m), Tokens(text));
    SegmentTokensText(SplitBold(text));
  }

  /** The words survive wrapping: up to whitespace, the lines are the
      segments of the bold split, with `slice(2, -2)` applied to each segment
      that starts and ends with `**`. */
  lemma WrappedKeepsWords(pages: Pages, text: string, y: real, st: Style, m: Measure)
    requires |pages| > 0
    ensures RemoveWs(TextsOf(Wrapped(pages, text, y, st, m).lines)) == RemoveWs(Stripped(SplitBold(text)))
  {
    WrappedText(pages, text, y, st, m);
    SpacedWordsKeep(SplitBold(text));
  }

  /** A text without `**` is laid out as its words separated by single spaces. */
  lemma WrappedPlainText(pages: Pages, text: string, y: real, st: Style, m: Measure)
    requires |pages| > 0
    requires forall i :: 0 <= i < |text| ==> !DelimAt(text, i)
    ensures TextsOf(Wrapped(pages, text, y, st, m).lines) == JoinWith(SplitWs(text), ' ')
    ensures RemoveWs(TextsOf(Wrapped(pages, text, y, st, m).lines)) == RemoveWs(text)
  {
    WrappedText(pages, text, y, st, m);
    PlainSpaced(text);
    SpacedKeepsText(text);
  }

  lemma PlainSpaced(text: string)
    requires forall i :: 0 <= i < |text| ==> !DelimAt(text, i)
    ensures SpacedWords(SplitBold(text)) == JoinWith(SplitWs(text), ' ')
  {
    NoDelimiterNoSplit(text);
    assert [text][..0] == [];
  }

  lemma SpacedKeepsText(text: string)
    ensures RemoveWs(JoinWith(SplitWs(text), ' ')) == RemoveWs(text)
  {
    JoinWithRemoveWs(SplitWs(text));
    SplitWsKeepsText(text);
  }

  /** Width bound: every committed line's width is the width of its words and
      spaces, and it exceeds the maximum only when it holds a single word. */
  lemma WrappedFits(pages: Pages, text: string, y: real, st: Style, m: Measure)
    requires |pages| > 0
    ensures var r := Wrapped(pages, text, y, st, m);
      forall k :: 0 <= k < |r.lines| ==> Fits(r.lines[k], st, m)
  {
    assert Wrapped(pages, text, y, st, m) == Flush(Run(Start(pages, y), Tokens(text), st, m), st);
    TokensFit(pages, y, Tokens(text), st, m);
  }

  lemma TokensFit(pages: Pages, y: real, ts: seq<Token>, st: Style, m: Measure)
    requires |pages| > 0
    ensures var r := Flush(Run(Start(pages, y), ts, st, m), st);
      forall k :: 0 <= k < |r.lines| ==> Fits(r.lines[k], st, m)
  {
    var start := Start(pages, y);
    assert [] + ts == ts;
    RunText(start, ts, [], st, m);
    RunWidth(start, ts, [], st, m);
    FlushWidth(Run(start, ts, st, m), ts, st, m);
  }

  /** An oversized line is drawn with its one word unsplit. */
  lemma WrappedOversized(pages: Pages, text: string, y: real, st: Style, m: Measure)
    requires |pages| > 0
    ensures var r := Wrapped(pages, text, y, st, m);
      forall k :: 0 <= k < |r.lines| && r.lines[k].width > MaxWidth(st) ==>
        r.lines[k].tokens != [] && r.lines[k].text == TokenText(r.lines[k].tokens[|r.lines[k].tokens| - 1])
  {
    var r := Wrapped(pages, text, y, st, m);
    WrappedFits(pages, text, y, st, m);
    WrappedText(pages, text, y, st, m);
    forall k | 0 <= k < |r.lines| && r.lines[k].width > MaxWidth(st)
      ensures r.lines[k].tokens != [] && r.lines[k].text == TokenText(r.lines[k].tokens[|r.lines[k].tokens| - 1])
    {
      assert Fits(r.lines[k], st, m);
      OneWordText(r.lines[k].tokens);
    }
  }

  /** Greediness: every line but the last was committed because the next
      word and a space would have overflowed it. */
  lemma WrappedGreedy(pages: Pages, text: string, y: real, st: Style, m: Measure)
    requires |pages| > 0
    ensures Greedy(Wrapped(pages, text, y, st, m).lines, st, m)
  {
    TokensGreedy(pages, y, Tokens(text), st, m);
  }

  lemma TokensGreedy(pages: Pages, y: real, ts: seq<Token>, st: Style, m: Measure)
    requires |pages| > 0
    ensures Greedy(Flush(Run(Start(pages, y), ts, st, m), st).lines, st, m)
  {
    var start := Start(pages, y);
    assert [] + ts == ts;
    RunText(start, ts, [], st, m);
    RunGreedy(start, ts, [], st, m);
    FlushGreedy(Run(start, ts, st, m), ts, st, m);
  }

  /** The geometry the whole call promises, of a final pen `r`. */
  ghost predicate Laid(pages0: Pages, y0: real, r: Pen, st: Style)
    requires |pages0| > 0
  {
    (r.lines == [] ==> (r.y, |r.pages| - 1) == Guard(y0, |pages0| - 1)) &&
    (r.lines != [] ==> (r.lines[0].y, r.lines[0].page) == Guard(y0, |pages0| - 1)) &&
    Spaced(r.lines, st) &&
    (r.lines != [] ==>
      var l := r.lines[|r.lines| - 1];
      (r.y, |r.pages| - 1) == (l.y + LineHeight(st), l.page) || (r.y, |r.pages| - 1) == After(l, st))
  }

  lemma FlushGeo(pages0: Pages, y0: real, run: Pen, st: Style)
    requires |run.pages| > 0 && GeoInv(pages0, y0, run, st, true)
    ensures Laid(pages0, y0, Flush(run, st), st)
  {
    var r := Flush(run, st);
    if run.line != "" {
      assert r.lines[..|run.lines|] == run.lines;
      forall k | 0 <= k < |r.lines| - 1 ensures (r.lines[k + 1].y, r.lines[k + 1].page) == After(r.lines[k], st) {
        if k + 1 < |run.lines| {
          assert r.lines[k] == run.lines[k] && r.lines[k + 1] == run.lines[k + 1];
        }
      }
      if run.lines != [] {
        assert r.lines[0] == run.lines[0];
      }
    }
  }

  /** Cursor steps: the first line is drawn at the starting cursor, or at the
      top of a new page when that is past the bottom; each further line one
      line height lower or at the top of the next page; and the returned
      cursor is one line height below the last line, or at the top of a page
      added after it. With no line drawn, the cursor is the guarded start. */
  lemma WrappedGeometry(pages: Pages, text: string, y: real, st: Style, m: Measure)
    requires |pages| > 0
    ensures Laid(pages, y, Wrapped(pages, text, y, st, m), st)
  {
    TokensNonEmpty(text);
    RunGeo(pages, y, Tokens(text), st, m);
    FlushGeo(pages, y, Run(Start(pages, y), Tokens(text), st, m), st);
  }

  /** The document's new operations are exactly the committed lines, each the
      last drawn on its page, with empty pages where the guard added them. */
  lemma WrappedDraws(pages: Pages, text: string, y: real, st: Style, m: Measure)
    requires |pages| > 0
    ensures var r := Wrapped(pages, text, y, st, m);
      |Replay(pages, r.lines, st)| <= |r.pages| && r.pages == Grow(Replay(pages, r.lines, st), |r.pages|)
  {
    var start := Start(pages, y);
    RunDraw(pages, start, Tokens(text), st, m);
    FlushDraw(pages, Run(start, Tokens(text), st, m), st);
  }

  /** From a cursor inside the printable band: nothing drawn before is lost,
      every new operation is a line of text in the call's font and size, at
      the indent or the indent plus the item indent, inside the band, and the
      returned cursor is not above the top margin. */
  lemma WrappedStyled(pages: Pages, text: string, y: real, st: Style, m: Measure)
    requires |pages| > 0 && 0.0 <= st.size && Margin <= y
    ensures var r := Wrapped(pages, text, y, st, m);
      Extends(pages, r.pages) && NewOpsSatisfy(pages, r.pages, InStyle(st)) && Margin <= r.y &&
      (forall k :: 0 <= k < |r.lines| ==> Margin <= r.lines[k].y <= Bottom)
  {
    var start := Start(pages, y);
    RunBand(pages, start, Tokens(text), st, m);
    FlushBand(pages, Run(start, Tokens(text), st, m), st);
  }

  // ----- What the call leaves of the pages it was given -----

  lemma ExtendsRefl(a: Pages)
    ensures Extends(a, a)
  {
  }

  lemma {:induction false} GrowExtends(pages: Pages, n: nat)
    ensures Extends(pages, Grow(pages, n))
    decreases n
  {
    if n <= |pages| {
      ExtendsRefl(pages);
    } else {
      GrowExtends(pages, n - 1);
      EmptyPageExtends(Grow(pages, n - 1), (op: Op) => true);
      ExtendsTrans(pages, Grow(pages, n - 1), Grow(pages, n));
    }
  }

  /** The pages `Grow` adds are empty. */
  lemma {:induction false} GrowAt(pages: Pages, n: nat, i: nat)
    requires i < |Grow(pages, n)|
    ensures Grow(pages, n)[i] == if i < |pages| then pages[i] else []
    decreases n
  {
    if n > |pages| && i < n - 1 {
      GrowAt(pages, n - 1, i);
    }
  }

  lemma ReplayStep(pages0: Pages, lines: seq<Committed>, l: Committed, st: Style)
    requires |pages0| > 0
    ensures Extends(Replay(pages0, lines, st), Replay(pages0, lines + [l], st))
  {
    var g := Grow(Replay(pages0, lines, st), l.page + 1);
    ReplaySnoc(pages0, lines, l, st);
    GrowExtends(Replay(pages0, lines, st), l.page + 1);
    DrawOnLastExtends(g, LineOp(l, st, lines == []), (op: Op) => true);
    ExtendsTrans(Replay(pages0, lines, st), g, Replay(pages0, lines + [l], st));
  }

  /** Replaying more lines only adds to what fewer lines drew. */
  lemma {:induction false} ReplayPrefix(pages0: Pages, lines: seq<Committed>, j: nat, st: Style)
    requires |pages0| > 0 && j <= |lines|
    ensures Extends(Replay(pages0, lines[..j], st), Replay(pages0, lines, st))
    decreases |lines|
  {
    if j == |lines| {
      assert lines[..j] == lines;
      ExtendsRefl(Replay(pages0, lines, st));
    } else {
      var init := lines[..|lines| - 1];
      assert init[..j] == lines[..j];
      assert init + [lines[|lines| - 1]] == lines;
      ReplayPrefix(pages0, init, j, st);
      ReplayStep(pages0, init, lines[|lines| - 1], st);
      ExtendsTrans(Replay(pages0, lines[..j], st), Replay(pages0, init, st), Replay(pages0, lines, st));
    }
  }

  /** Whatever the cursor: nothing drawn before the call is lost or moved. */
  lemma WrappedExtends(pages: Pages, text: string, y: real, st: Style, m: Measure)
    requires |pages| > 0
    ensures Extends(pages, Wrapped(pages, text, y, st, m).pages)
  {
    var r := Wrapped(pages, text, y, st, m);
    var replay := Replay(pages, r.lines, st);
    WrappedDraws(pages, text, y, st, m);
    assert r.lines[..0] == [];
    ReplayPrefix(pages, r.lines, 0, st);
    GrowExtends(replay, |r.pages|);
    ExtendsTrans(pages, replay, r.pages);
  }

  /** One line replayed onto the last page of `pages0` or onto a fresh page
      after it ends up right after what that page already held. */
  lemma ReplayOne(pages0: Pages, l: Committed, st: Style)
    requires |pages0| > 0 && (l.page == |pages0| - 1 || l.page == |pages0|)
    ensures var first := Replay(pages0, [l], st);
      l.page < |first| && first[l.page] == (if l.page < |pages0| then pages0[l.page] else []) + [LineOp(l, st, true)]
  {
    assert [l][..0] == [];
    GrowAt(pages0, l.page + 1, l.page);
  }

  /** The first replayed line lands right after what its page held. */
  lemma ReplayFirst(pages0: Pages, lines: seq<Committed>, st: Style, n: nat)
    requires |pages0| > 0 && lines != [] && (lines[0].page == |pages0| - 1 || lines[0].page == |pages0|)
    ensures var r, p := Grow(Replay(pages0, lines, st), n), lines[0].page;
      p < |r| && StartOf(pages0, p) < |r[p]| && r[p][StartOf(pages0, p)] == LineOp(lines[0], st, true)
  {
    var l, p := lines[0], lines[0].page;
    var first := Replay(pages0, [l], st);
    ReplayOne(pages0, l, st);
    assert lines[..1] == [l];
    ReplayPrefix(pages0, lines, 1, st);
    GrowExtends(Replay(pages0, lines, st), n);
    ExtendsTrans(first, Replay(pages0, lines, st), Grow(Replay(pages0, lines, st), n));
    assert first[p] <= Grow(Replay(pages0, lines, st), n)[p];
  }

  /** The first thing the call draws, right after what was on the guarded
      start page, is its first line, without the item indent, at the guarded
      start cursor; when it commits no line it draws nothing and adds at most
      empty pages. */
  lemma WrappedFirstOp(pages: Pages, text: string, y: real, st: Style, m: Measure)
    requires |pages| > 0
    ensures var r, g := Wrapped(pages, text, y, st, m), Guard(y, |pages| - 1);
      (r.lines != [] ==>
        g.1 < |r.pages| && StartOf(pages, g.1) < |r.pages[g.1]| &&
        r.pages[g.1][StartOf(pages, g.1)] == LineOp(r.lines[0], st, true) && r.lines[0].y == g.0) &&
      (r.lines == [] ==> r.pages == Grow(pages, |r.pages|))
  {
    var r := Wrapped(pages, text, y, st, m);
    WrappedDraws(pages, text, y, st, m);
    WrappedGeometry(pages, text, y, st, m);
    if r.lines != [] {
      ReplayFirst(pages, r.lines, st, |r.pages|);
    }
  }

  /** Whatever the cursor: nothing drawn before is lost, and anything past
      the old contents of the guarded start page is the first committed
      line, at the guarded start cursor. */
  lemma WrappedStartsAt(pages: Pages, text: string, y: real, st: Style, m: Measure)
    requires |pages| > 0
    ensures var w, g := Wrapped(pages, text, y, st, m), Guard(y, |pages| - 1);
      Extends(pages, w.pages) &&
      (g.1 < |w.pages| && StartOf(pages, g.1) < |w.pages[g.1]| ==>
        w.lines != [] && w.pages[g.1][StartOf(pages, g.1)] == LineOp(w.lines[0], st, true) && w.lines[0].y == g.0)
  {
    var w, g := Wrapped(pages, text, y, st, m), Guard(y, |pages| - 1);
    WrappedExtends(pages, text, y, st, m);
    WrappedFirstOp(pages, text, y, st, m);
    if w.lines == [] && g.1 < |w.pages| {
      GrowAt(pages, |w.pages|, g.1);
    }
  }
}
