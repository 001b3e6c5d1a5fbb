/** The part of jsPDF that the layout engine uses, as a document that records
    what is drawn: a list of pages, each the list of its draw operations, a
    current page, and the current font and font size. Glyph metrics are an
    uninterpreted, non-negative width function. */
module JsPdf {

  /** The two faces the layout draws with: jsPDF's built-in 'helvetica' and
      the embedded 'CaslonGrad-Regular'. */
  datatype Font = Helvetica | CaslonGrad

  /** The two raster images: the full-page logo and the small footer logo. */
  datatype Picture = StylizedLogo | BlackLogo

  /** One drawing call, with the font and size in force when text is drawn. */
  datatype Op =
    | Text(s: string, x: real, y: real, font: Font, size: real)
    | Image(picture: Picture, x: real, y: real, w: real, h: real)

  type Width = r: real | 0.0 <= r

  /** `getTextWidth` as a function of the current font, the current size and the text. */
  type Measure = (Font, real, string) -> Width

  type Pages = seq<seq<Op>>

  /** `op` appended to the last page. */
  function DrawOnLast(pages: Pages, op: Op): Pages
    requires |pages| > 0
  {
    pages[|pages| - 1 := pages[|pages| - 1] + [op]]
  }

  /** `b` is `a` with operations appended to the last page of `a`, perhaps
      followed by further pages: nothing drawn before is lost or moved. */
  ghost predicate Extends(a: Pages, b: Pages) {
    |a| <= |b| &&
    (forall i :: 0 <= i < |a| ==> a[i] <= b[i]) &&
    (forall i :: 0 <= i < |a| - 1 ==> b[i] == a[i])
  }

  /** Where the operations that `b` adds to page `i` of `a` begin. */
  function StartOf(a: Pages, i: nat): nat {
    if i < |a| then |a[i]| else 0
  }

  /** Every operation of `b` beyond those of `a` satisfies `P`. */
  ghost predicate NewOpsSatisfy(a: Pages, b: Pages, P: Op -> bool) {
    forall i, j :: 0 <= i < |b| && StartOf(a, i) <= j < |b[i]| ==> P(b[i][j])
  }

  lemma ExtendsTrans(a: Pages, b: Pages, c: Pages)
    requires Extends(a, b) && Extends(b, c)
    ensures Extends(a, c)
  {
    forall i | 0 <= i < |a| ensures a[i] <= c[i] {
      assert a[i] <= b[i] && b[i] <= c[i];
    }
  }

  /** New operations accumulate: what `b` adds to `a` and `c` adds to `b`
      together are what `c` adds to `a`. */
  lemma NewOpsTrans(a: Pages, b: Pages, c: Pages, P: Op -> bool)
    requires Extends(a, b) && Extends(b, c)
    requires NewOpsSatisfy(a, b, P) && NewOpsSatisfy(b, c, P)
    ensures NewOpsSatisfy(a, c, P)
  {
    forall i, j | 0 <= i < |c| && StartOf(a, i) <= j < |c[i]| ensures P(c[i][j]) {
      if j < StartOf(b, i) {
        assert b[i] <= c[i];
        assert c[i][j] == b[i][j];
      }
    }
  }

  /** Drawing on the last page extends the pages by that one operation. */
  lemma DrawOnLastExtends(pages: Pages, op: Op, P: Op -> bool)
    requires |pages| > 0 && P(op)
    ensures Extends(pages, DrawOnLast(pages, op))
    ensures NewOpsSatisfy(pages, DrawOnLast(pages, op), P)
  {
    var r := DrawOnLast(pages, op);
    forall i, j | 0 <= i < |r| && StartOf(pages, i) <= j < |r[i]| ensures P(r[i][j]) {
      assert i == |pages| - 1;
    }
  }

  /** An added empty page brings no new operations. */
  lemma EmptyPageExtends(pages: Pages, P: Op -> bool)
    ensures Extends(pages, pages + [[]])
    ensures NewOpsSatisfy(pages, pages + [[]], P)
  {
  }

  /** A property of the new operations implies any weaker one. */
  lemma NewOpsWeaken(a: Pages, b: Pages, P: Op -> bool, Q: Op -> bool)
    requires NewOpsSatisfy(a, b, P)
    requires forall op :: P(op) ==> Q(op)
    ensures NewOpsSatisfy(a, b, Q)
  {
  }

  class Document {
    var pages: Pages
    var current: nat
    var font: Font
    var fontSize: real
    const measure: Measure

    ghost predicate Valid()
      reads this
    {
      current < |pages|
    }

    /** `new jsPDF(...)`: one empty page, 'helvetica' at 16 pt. */
    constructor (measure: Measure)
      ensures Valid() && pages == [[]] && current == 0
      ensures font == Helvetica && fontSize == 16.0 && this.measure == measure
    {
      pages := [[]];
      current := 0;
      font := Helvetica;
      fontSize := 16.0;
      this.measure := measure;
    }

    /** `getTextWidth(s)` under the current font and size. */
    function TextWidth(s: string): Width
      reads this
    {
      measure(font, fontSize, s)
    }

    /** `internal.getNumberOfPages()`. */
    function NumberOfPages(): nat
      reads this
    {
      |pages|
    }

    /** `addPage()`: a new empty last page, which becomes the current one. */
    method AddPage()
      modifies this`pages, this`current
      ensures Valid() && pages == old(pages) + [[]] && current == |old(pages)|
    {
      pages := pages + [[]];
      current := |pages| - 1;
    }

    /** `setPage(n)`, pages being numbered from 1. */
    method SetPage(n: nat)
      requires 1 <= n <= |pages|
      modifies this`current
      ensures Valid() && current == n - 1
    {
      current := n - 1;
    }

    method SetFont(f: Font)
      modifies this`font
      ensures font == f
    {
      font := f;
    }

    method SetFontSize(size: real)
      modifies this`fontSize
      ensures fontSize == size
    {
      fontSize := size;
    }

    /** `text(s, x, y)`: recorded on the current page in the current font and size. */
    method Text(s: string, x: real, y: real)
      requires Valid()
      modifies this`pages
      ensures Valid() && pages == old(pages)[current := old(pages)[current] + [Op.Text(s, x, y, font, fontSize)]]
    {
      pages := pages[current := pages[current] + [Op.Text(s, x, y, font, fontSize)]];
    }

    /** `addImage(picture, 'PNG', x, y, w, h)` on the current page. */
    method AddImage(picture: Picture, x: real, y: real, w: real, h: real)
      requires Valid()
      modifies this`pages
      ensures Valid() && pages == old(pages)[current := old(pages)[current] + [Image(picture, x, y, w, h)]]
    {
      pages := pages[current := pages[current] + [Image(picture, x, y, w, h)]];
    }
  }
}
