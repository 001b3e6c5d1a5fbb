# Paginated report renderer: a verified model

This project models `generatePDF` in `src/utils/pdfGenerator.ts` (lines 15-231). That function turns a newline-separated, Markdown-like report into an A4 PDF with jsPDF. The model has four parts:

- **The cover.** A full-page logo is drawn on the first page.
- **The line loop.** Each trimmed line is classified and drawn. The classes are `# `, `## ` and `### ` headings, `- `/`* ` bullets, `N. ` numbered items, blank lines and paragraphs. The loop carries a vertical cursor (`yPosition`) and a small list state (`listType`, `listIndentLevel`), which chooses one of two indent tiers.
- **The wrapper.** The inner `addWrappedText`/`writeCurrentLine` pair splits text on `**…**` runs and then on whitespace. It fills lines greedily against the usable width, and breaks the page when the cursor passes `pageHeight - margin`.
- **The footer pass.** Every page from the second on gets a label `"i of N"` and a small logo.

jsPDF is modelled as a `Document` class (module `JsPdf`):

- `pages` is a sequence of pages, each the sequence of its drawing operations. Text operations record the font and size in force when they were drawn.
- The class also holds a current page, the current font and size, and a text-measurement function.
- `addPage`, `setPage`, `setFont`, `setFontSize`, `text` and `addImage` are methods that change these fields.
- `getTextWidth` is an uninterpreted, non-negative function of the font, the size and the string.

Every loop of the source is a method with loop invariants:

- the word loop (`Wrap.PlaceWords`);
- the segment loop (`Wrap.PlaceSegments`);
- the line loop (`Layout.RenderBody`);
- the footer loop (`Layout.StampFooters`).

Each method is proved equal to a specification function:

- `Wrap.Wrapped` is a left fold of one word step over the text's words;
- `Layout.LineStep` and `Layout.RunLines` give the line loop;
- `Layout.Footed` gives the footer pass;
- `Layout.Generated` gives the whole call.

The properties are lemmas about those functions, in `WrapProofs` and `LayoutProofs`.

The JavaScript string operations the code depends on are modelled as the ECMAScript standard defines them, in module `JsText`:

- `trim` and the `\s` class use the WhiteSpace plus LineTerminator set;
- `split('\n')`;
- `split(/\s+/)`, which yields `""` words at the edges;
- `split(/(\*\*.*?\*\*)/)`, a leftmost, lazy match with the captured runs kept, and no line terminator inside a run;
- `slice(2, -2)`;
- `indexOf`;
- the decimal rendering in the template string.

Two quirks of the code are kept in the model:

- The `### ` branch passes `line.substring(3)` on to the wrapper. Its text therefore starts with a space, which becomes an empty first word followed by a space.
- The overflow test always adds a space width, even for the last word of a segment.

## What the code does with headings, the cover and the footers

- **Headings are classified as written.** The prefix test is the only processing a heading gets (lines 136-160).
- **A `# ` title is wrapped like any other text.** It starts a new page and is wrapped left-justified from `margin + 28` at size 28 (lines 136-141).
- **Page 1's first operation is the full-page logo** (line 41). The cursor then starts at the top margin (line 43), so text before the first `# ` line or page break is drawn on page 1, on top of the logo.
- **Footers start at page 2** (line 222). Page 1 is the only page without one.
- **`title` and `brandName` are never read** (line 15).

## Model

| member | source | states |
|---|---|---|
| JsText.TrimSpec | src/utils/pdfGenerator.ts:127 | `trim` keeps one contiguous middle slice of the line. Everything it cuts on either side is whitespace, and the result neither starts nor ends with whitespace. |
| JsText.TrimIsEmpty | src/utils/pdfGenerator.ts:208 | A raw line reaches the blank branch exactly when it consists of whitespace only (both directions). |
| JsText.SplitOn | src/utils/pdfGenerator.ts:121 | `split('\n')` yields at least one line, and no line contains a newline. |
| JsText.SplitOnJoin | src/utils/pdfGenerator.ts:121 | Splitting the report loses nothing: joining the lines with `'\n'` gives the report back. |
| JsText.IndexOf | src/utils/pdfGenerator.ts:205 | `indexOf('.')` is the first position holding a `.`; no earlier position holds one. |
| JsText.SplitWs | src/utils/pdfGenerator.ts:89 | `split(/\s+/)` yields at least one word, and no word contains whitespace. |
| JsText.SplitWsWeave | src/utils/pdfGenerator.ts:89 | The words and the removed gaps, alternating and starting and ending with a word, make up the segment exactly. Every gap is a non-empty run of whitespace. |
| JsText.SplitWsInnerWords | src/utils/pdfGenerator.ts:89 | Every word between two gaps is non-empty, so no two gaps touch: each gap is a maximal whitespace run, and only the first and last words can be `""`. |
| JsText.SplitWsKeepsText | src/utils/pdfGenerator.ts:89 | The words, concatenated in order, are exactly the segment's non-whitespace text. |
| JsText.CloseFrom | src/utils/pdfGenerator.ts:59 | The lazy `.*?\*\*` finds the first closing `**` after the opening one, with no `**` and no line terminator in between. When it finds none, every later `**` has a line terminator before it. |
| JsText.SplitBoldSpec | src/utils/pdfGenerator.ts:59 | The split yields an odd number of segments: plain text at even positions and captured bold runs (markers included) at odd ones. Concatenated, they give the text back. Each run closes at the first `**` after its opening one (lazy). No position of a plain segment starts a match in the text from that segment on (leftmost). |
| JsText.StripBoldRun | src/utils/pdfGenerator.ts:79-83 | On a captured bold run, `slice(2, -2)` removes exactly the outer `**` and nothing else. |
| JsText.NoDelimiterNoSplit | src/utils/pdfGenerator.ts:59-83 | A text with no `**` in it is one segment, and the segment is left unchanged. |
| JsText.ParseShow | src/utils/pdfGenerator.ts:226 | The decimal numeral of a page number reads back as that number. |
| JsText.ShowInjective | src/utils/pdfGenerator.ts:226 | Different page numbers get different numerals. |
| Markdown.OrderedMarker | src/utils/pdfGenerator.ts:179 | A match of `/^\d+\.\s/` is a prefix of the line: digits, a dot, then one whitespace unit. With no match, no run of leading digits is followed by a dot and whitespace. |
| Markdown.TestsAreExclusive | src/utils/pdfGenerator.ts:136-153 | A `# ` line is never a `## ` or `### ` line, and a `## ` line is never a `### ` line. |
| Markdown.Classify | src/utils/pdfGenerator.ts:136-217 | Each class holds exactly when its own test succeeds (both directions), so every trimmed line takes exactly one branch. The contract also gives the text each branch hands on: `substring(2)`, `substring(3)`, or the trimmed text after the first `.`. A numbered line's marker is the `/^\d+\.\s/` match itself. |
| Markdown.NumberedLine | src/utils/pdfGenerator.ts:179-205 | The numbered branch carries the `/^\d+\.\s/` match as its marker. Its text is the line after the first `.`, trimmed, which is the text after the marker. |
| Markdown.MarkerDot | src/utils/pdfGenerator.ts:205 | In a numbered line, the first `.` is the one that closes the number, so `indexOf('.') + 1` is exactly where the marker's whitespace begins. |
| JsPdf.Document.constructor | src/utils/pdfGenerator.ts:16-20 | A new document has one empty page, which is current, in 'helvetica' at 16 pt. |
| JsPdf.Document.AddPage | src/utils/pdfGenerator.ts:130 | `addPage` appends an empty page, which becomes the current page; earlier pages are unchanged. |
| JsPdf.Document.SetPage | src/utils/pdfGenerator.ts:223 | `setPage(i)` makes page `i`, numbered from 1, the current page. |
| JsPdf.Document.SetFont | src/utils/pdfGenerator.ts:88 | `setFont` changes only the current font. |
| JsPdf.Document.SetFontSize | src/utils/pdfGenerator.ts:54 | `setFontSize` changes only the current size. |
| JsPdf.Document.Text | src/utils/pdfGenerator.ts:66 | `text` appends one text operation, in the current font and size, to the current page only. |
| JsPdf.Document.AddImage | src/utils/pdfGenerator.ts:41 | `addImage` appends one image operation to the current page only. |
| Wrap.PageBreakSpec | src/utils/pdfGenerator.ts:109-112 | After the guard the cursor is not below `pageHeight - margin`, and it never rises above the top margin. Exactly when the cursor was past the bottom, one empty page is added and the cursor is reset to the margin. Otherwise nothing changes. |
| Wrap.BreakIfPastBottom | src/utils/pdfGenerator.ts:129-132 | The guard in the line loop changes the pages and the cursor exactly as the wrapper's guard does. |
| Wrap.WordTokensSpec | src/utils/pdfGenerator.ts:91-107 | Word `k` of a segment is placed followed by a space exactly when it is not the segment's last word. |
| Wrap.WriteCurrentLine | src/utils/pdfGenerator.ts:64-72 | `writeCurrentLine` does nothing on an empty buffer. Otherwise it draws the trimmed buffer at `margin + indent` (plus `listItemIndent` after the first line), moves the cursor down one line and clears the buffer. |
| Wrap.FlushIfOverflowing | src/utils/pdfGenerator.ts:93-98 | The buffer is committed exactly when its width plus the word and a space would exceed `maxWidth`. |
| Wrap.AppendWord | src/utils/pdfGenerator.ts:100-107 | The buffer and its width grow by the word and its measured width, and by a space unless it is the last word. |
| Wrap.RunAppend | src/utils/pdfGenerator.ts:74-113 | Running the word step over two runs of words is running it over the first run and then the second. |
| Wrap.PlaceWords | src/utils/pdfGenerator.ts:91-113 | The word loop leaves the document and the wrapper's variables in the state the word-step fold gives. |
| Wrap.PlaceSegment | src/utils/pdfGenerator.ts:76-89 | One segment: markers stripped, 'normal' font set, then its words placed. |
| Wrap.PlaceSegments | src/utils/pdfGenerator.ts:74-114 | The segment loop equals the fold over the tokens of all segments in order. |
| Wrap.AddWrappedText | src/utils/pdfGenerator.ts:45-119 | The wrapper leaves the document's pages and returns the cursor that `Wrapped` gives, with the requested font and size in force. |
| WrapProofs.TokensNonEmpty | src/utils/pdfGenerator.ts:59-89 | Every text yields at least one word, possibly empty, so the wrapper always sets the font. |
| WrapProofs.WrappedText | src/utils/pdfGenerator.ts:59-116 | Text preservation: the committed lines hold, in order, exactly the words of the segments, with the markers stripped and each segment's words joined by one space. No committed line is empty. The tokens left unwritten have no text. |
| WrapProofs.WrappedKeepsWords | src/utils/pdfGenerator.ts:59-116 | Up to whitespace, the committed lines are the segments of the bold split, with `slice(2, -2)` applied to each segment that starts and ends with `**`. |
| WrapProofs.WrappedPlainText | src/utils/pdfGenerator.ts:89-107 | A text without `**` is drawn as its words joined by single spaces, and loses no non-whitespace character. |
| WrapProofs.WrappedFits | src/utils/pdfGenerator.ts:57 | Width bound: each committed line's width is the measured width of its words and spaces. A line exceeds `maxWidth = usableWidth - indent - listItemIndent` only when it holds a single word. |
| WrapProofs.WrappedOversized | src/utils/pdfGenerator.ts:96-101 | A line wider than `maxWidth` holds exactly one word, emitted unsplit. |
| WrapProofs.WrappedGreedy | src/utils/pdfGenerator.ts:96-98 | Greediness: every line but the last was committed because the next line's first word, with a space, would have overflowed it. |
| WrapProofs.WrappedGeometry | src/utils/pdfGenerator.ts:55-112 | Cursor steps: the first line is at the starting cursor, or at the top margin of a new page when that cursor is past the bottom. Every further line is exactly `fontSize * 1.2` lower, or at the top of the next page. The returned cursor is one line below the last line, or at the top margin of a page added after it. |
| WrapProofs.WrappedDraws | src/utils/pdfGenerator.ts:64-72 | The document's new operations are exactly the committed lines, each drawn trimmed on the page it was committed on, plus only empty pages. |
| WrapProofs.WrappedStyled | src/utils/pdfGenerator.ts:54-112 | From a cursor at or below the top margin, every new operation is text in the call's font and size at one of the two indents, between the top margin and the bottom guard. |
| WrapProofs.WrappedExtends | src/utils/pdfGenerator.ts:45-119 | Nothing drawn before the call is lost or moved; operations are only appended. |
| WrapProofs.WrappedFirstOp | src/utils/pdfGenerator.ts:66 | The first committed line is drawn right after what its page held, at the guarded starting cursor. With no line committed, only empty pages are added. |
| WrapProofs.WrappedStartsAt | src/utils/pdfGenerator.ts:66 | Whatever follows the old contents of the starting page is the first line, at the starting cursor. |
| LayoutProofs.LineStepListInv | src/utils/pdfGenerator.ts:136-217 | Every branch keeps the list state consistent: a list is open exactly when the level is not 0. |
| LayoutProofs.RunLinesListInv | src/utils/pdfGenerator.ts:126-219 | The consistency of the list state is preserved over any run of lines. |
| LayoutProofs.BodyListInv | src/utils/pdfGenerator.ts:121-219 | Consistency of the list state holds after every report. |
| LayoutProofs.BlankEffects | src/utils/pdfGenerator.ts:208-214 | A blank line adds 10 to the guarded cursor, draws nothing and closes any list (level 0). |
| LayoutProofs.ItemStepDraws | src/utils/pdfGenerator.ts:161-206 | List state machine: an item of a new kind opens a deeper level, and one of the same kind keeps it. The mark is drawn next on the page at `margin` plus the tier's bullet indent, at the unchanged cursor. The first text line follows at the tier's text indent on the same line, in 'helvetica' 12. The cursor ends exactly 5 below where the wrapper leaves it. |
| LayoutProofs.MarkThenText | src/utils/pdfGenerator.ts:173-176 | The mark is the next operation on the page, and the wrapped text's first line is the one after it, at the same height. |
| LayoutProofs.ItemStepStyled | src/utils/pdfGenerator.ts:167-177 | After the mark, an item adds only 'helvetica' 12 text at the tier's text indent, within the printable band. The cursor ends at least 5 below the top margin. |
| LayoutProofs.ItemAfterBlank | src/utils/pdfGenerator.ts:161-214 | An item after a blank line is at level 1 whatever came before, so it is on the shallow tier (15, 35). |
| LayoutProofs.Heading1StepDraws | src/utils/pdfGenerator.ts:136-144 | `# ` adds a new page. The title's first line is at `margin + 28` on that page, all of it in CaslonGrad 28. The cursor ends exactly 10 below where the wrapper leaves it, so at least 10 below the margin, and no list stays open. |
| LayoutProofs.SubheadingStepDraws | src/utils/pdfGenerator.ts:145-160 | A subheading's first line is drawn at the left margin at the guarded cursor. The cursor ends exactly the trailing space (8 or 0) below where the wrapper leaves it. CaslonGrad at its size is in force afterwards, and no list stays open. |
| LayoutProofs.SubheadingStepStyled | src/utils/pdfGenerator.ts:145-160 | All of a subheading is CaslonGrad at its size, within the printable band. The cursor ends at least the trailing space below the margin. |
| LayoutProofs.ParagraphEffects | src/utils/pdfGenerator.ts:215-217 | A paragraph keeps the list state. Its first line is drawn at the margin at the guarded cursor in 'helvetica' 12, all of it in that style within the band. The cursor ends exactly 5 below where the wrapper leaves it, so at least 5 below the margin. |
| LayoutProofs.ParagraphDraws | src/utils/pdfGenerator.ts:216 | Wrapping at indent 0 in 'helvetica' 12 puts the first line at the margin, on the cursor's line. |
| LayoutProofs.PageBreakBand | src/utils/pdfGenerator.ts:129-132 | The guard leaves the pages as they are or appends one empty page. Either way it draws no operation outside the band. |
| LayoutProofs.WrappedBand | src/utils/pdfGenerator.ts:45-119 | From inside the page, the wrapper draws only text in the printable band, and its cursor stays below the top margin. |
| LayoutProofs.Heading1Band | src/utils/pdfGenerator.ts:136-144 | A title draws only text in the band. |
| LayoutProofs.SubheadingBand | src/utils/pdfGenerator.ts:145-160 | A subheading draws only text in the band. |
| LayoutProofs.ItemBand | src/utils/pdfGenerator.ts:161-206 | A list item, mark included, draws only text in the band. |
| LayoutProofs.LineStepBand | src/utils/pdfGenerator.ts:126-218 | Whatever its class, a line adds only text between the top margin and the bottom guard, and never moves or removes earlier operations. |
| LayoutProofs.RunLinesBand | src/utils/pdfGenerator.ts:126-219 | The same holds for any run of lines. |
| LayoutProofs.BodyBand | src/utils/pdfGenerator.ts:40-219 | The body keeps the cover and adds only in-band text. |
| LayoutProofs.GeneratedShape | src/utils/pdfGenerator.ts:40-228 | The saved document is the laid-out body with the footers stamped, and that body is the cover followed only by in-band text. |
| LayoutProofs.BodyOpAt | src/utils/pdfGenerator.ts:40-219 | Every operation of the body is the cover logo, first on page 1, or in-band text. |
| LayoutProofs.CoverOnlyFirst | src/utils/pdfGenerator.ts:41 | The full-page logo is the first operation of page 1 and appears nowhere else in the document. |
| LayoutProofs.FirstPageUnfooted | src/utils/pdfGenerator.ts:222 | Page 1 gets no footer: no small logo and nothing below the bottom guard. |
| LayoutProofs.FooterPageAt | src/utils/pdfGenerator.ts:222-227 | Page `k ≥ 2` keeps its body as a prefix, then has the label `"k of N"` in CaslonGrad 10 at `(margin, pageHeight - margin/2)`, then the small logo at `(pageWidth - 3·margin, pageHeight - margin)`, size `2·margin × margin`. |
| LayoutProofs.FootersStamped | src/utils/pdfGenerator.ts:221-228 | The footer pass keeps the page count and page 1. Every page from 2 to N, and only those, gets exactly its label and the logo after its existing operations. |
| LayoutProofs.SmallLogoOnlyInFooters | src/utils/pdfGenerator.ts:227 | The small logo appears once on each page from 2 on, as its last operation, and nowhere else. |
| LayoutProofs.FooterLabelsDistinct | src/utils/pdfGenerator.ts:226 | Two different pages of one document get different labels. |
| Layout.DrawMark | src/utils/pdfGenerator.ts:171-173 | The mark is drawn on the last page at the given point, with 'helvetica' 12 in force. |
| Layout.RenderHeading1 | src/utils/pdfGenerator.ts:136-144 | The `# ` branch leaves the document and cursor that `Heading1Step` gives, and closes any list. |
| Layout.RenderSubheading | src/utils/pdfGenerator.ts:145-160 | The `## `/`### ` branches leave what `SubheadingStep` gives, and close any list. |
| Layout.RenderItem | src/utils/pdfGenerator.ts:161-177 | The item branches, from the level change on, leave what `ItemStep` gives. |
| Layout.DrawItem | src/utils/pdfGenerator.ts:167-177 | The mark is drawn at `margin` plus the tier's bullet indent, then the text is wrapped from the same cursor at the tier's text indent in 'helvetica' 12, and the cursor ends 5 below the wrapper's. |
| Layout.RenderNumbered | src/utils/pdfGenerator.ts:179-206 | The numbered branch's prefix is the class's marker, and its text is the class's text. The `'0'` fallback is never taken. |
| Layout.RenderLine | src/utils/pdfGenerator.ts:127-218 | One pass of the loop body, tests in the source's order, equals `LineStep` on the whole state. |
| Layout.RenderBody | src/utils/pdfGenerator.ts:121-219 | The line loop, from the cover page, leaves the pages, font and size of `Body`. |
| Layout.FootedStep | src/utils/pdfGenerator.ts:222-227 | One pass of the footer loop stamps exactly page `i` and no other. |
| Layout.StampFooters | src/utils/pdfGenerator.ts:221-228 | The footer loop leaves the pages `Footed` gives. It ends on the last page, in CaslonGrad 10 when there is more than one page. |
| Layout.GeneratePdf | src/utils/pdfGenerator.ts:15-231 | The document `generatePDF` would save has exactly the pages `Generated` gives. |

## Left out

- Font registration (`addFileToVFS`/`addFont`, lines 23-26) is a foreign library call. The fonts are the two values of `Font`.
- The pixel content of the images is not modelled; an image is its name and its box (lines 41, 227).
- `save` (line 230) is a browser download and ends the model. The `async`/`Promise` wrapper (line 15) is not modelled either, since nothing is awaited inside.
- `fontStyle` is always `'normal'`: the bold switch is commented out (lines 75-87). The model records no font style.
- The footer `text` option `{ align: 'left' }` (line 226) is jsPDF's default and is not recorded.
- Coordinates and widths are exact reals, not IEEE doubles. jsPDF's conversion of points to PDF units is not modelled. The page size is jsPDF's `a4` in points (595.28 × 841.89).
- `getTextWidth` is an uninterpreted non-negative function of the font, the size and the string. Real glyph metrics, kerning and character spacing are not modelled.
- JavaScript strings are sequences of UTF-16 code units; a Dafny `char` is a Unicode scalar value. A character outside the Basic Multilingual Plane is one `char` here but two code units in JavaScript, and a lone surrogate has no `char` at all. Every position the code computes is found by matching ASCII text (`# `, `**`, `.`, whitespace), so on well-formed text the pieces are the same; only such lone surrogates are left out. No normalisation or case mapping takes place in the code.
- `listItemIndent` is 0 at every call site (lines 140-216). The model keeps the parameter and the continuation-line indent, but no lemma is specialised to a non-zero value.
- WrapProofs.WrappedStyled, LayoutProofs.ItemStepStyled, LayoutProofs.SubheadingStepStyled and LayoutProofs.WrappedBand are stated only for a cursor at or below the top margin (and, where a size is involved, a non-negative size). Every state that `generatePDF` reaches satisfies this, by LayoutProofs.BodyBand.
- LayoutProofs.MarkThenText and LayoutProofs.ItemStepDraws are stated for a cursor above the bottom guard, which the line loop's guard establishes (Wrap.PageBreakSpec).
- The rest of the repository is not part of this model: the chat, authentication and report pages, Firebase and OpenAI calls, the font converter script, configuration and tests.
