/** The line classifier of the layout loop: a trimmed report line is tested, in
    order, for `# `, `## `, `### `, `- ` or `* `, `/^\d+\.\s/`, the empty
    line, and otherwise taken as a paragraph. */
module Markdown {
  import opened JsText

  datatype LineKind =
    | Heading1(text: string)
    | Heading2(text: string)
    | Heading3(text: string)
    | Bullet(text: string)
    | Numbered(marker: string, text: string)
    | Blank
    | Paragraph(text: string)

  predicate IsDigit(c: char) {
    '0' <= c <= '9'
  }

  /** The number of leading ASCII digits (`\d`). */
  function DigitRun(s: string): (n: nat)
    ensures n <= |s| && (forall i :: 0 <= i < n ==> IsDigit(s[i])) && (n < |s| ==> !IsDigit(s[n]))
  {
    if s != [] && IsDigit(s[0]) then 1 + DigitRun(s[1..]) else 0
  }

  /** The match of `/^\d+\.\s/` on `line`: digits, a dot, one whitespace unit. */
  function OrderedMarker(line: string): (r: Option<string>)
    ensures r.Some? ==>
      var m := r.value;
      StartsWith(line, m) && |m| >= 3 && (forall i :: 0 <= i < |m| - 2 ==> IsDigit(m[i])) &&
      m[|m| - 2] == '.' && IsWs(m[|m| - 1])
    ensures r.None? ==>
      forall k :: 1 <= k && k + 2 <= |line| && (forall i :: 0 <= i < k ==> IsDigit(line[i])) ==>
        !(line[k] == '.' && IsWs(line[k + 1]))
  {
    var n := DigitRun(line);
    if 1 <= n && n + 2 <= |line| && line[n] == '.' && IsWs(line[n + 1]) then Some(line[..n + 2]) else None
  }

  /** The character at position `i` of a line that starts with `prefix`. */
  lemma PrefixAt(line: string, prefix: string, i: nat)
    requires StartsWith(line, prefix) && i < |prefix|
    ensures line[i] == prefix[i]
  {
    assert line[..|prefix|][i] == line[i];
  }

  /** No trimmed line passes two of the classifier's tests. */
  lemma TestsAreExclusive(line: string)
    ensures StartsWith(line, "# ") ==> !StartsWith(line, "## ") && !StartsWith(line, "### ")
    ensures StartsWith(line, "## ") ==> !StartsWith(line, "### ")
  {
    if StartsWith(line, "# ") { PrefixAt(line, "# ", 1); }
    if StartsWith(line, "## ") { PrefixAt(line, "## ", 2); }
  }

  /** The branch the layout loop takes for a trimmed line, with the text it
      hands to the wrapper. The tests are made in the source's order, but no
      two of them can both succeed, so each class is characterised by its own
      test alone; every line gets exactly one class. */
  function Classify(line: string): (k: LineKind)
    ensures k.Heading1? <==> StartsWith(line, "# ")
    ensures k.Heading2? <==> StartsWith(line, "## ")
    ensures k.Heading3? <==> StartsWith(line, "### ")
    ensures k.Bullet? <==> StartsWith(line, "- ") || StartsWith(line, "* ")
    ensures k.Numbered? <==> OrderedMarker(line).Some?
    ensures k.Blank? <==> line == ""
    ensures k.Paragraph? <==>
      !StartsWith(line, "# ") && !StartsWith(line, "## ") && !StartsWith(line, "### ") &&
      !StartsWith(line, "- ") && !StartsWith(line, "* ") && OrderedMarker(line).None? && line != ""
    ensures k.Heading1? ==> k.text == line[2..]
    ensures k.Heading2? || k.Heading3? ==> k.text == line[3..]
    ensures k.Bullet? ==> k.text == line[2..]
    ensures k.Numbered? ==>
      k.marker == OrderedMarker(line).value &&
      |k.marker| >= 3 && StartsWith(line, k.marker) && k.text == Trim(line[|k.marker| - 1..]) &&
      '.' !in k.marker[..|k.marker| - 2]
    ensures k.Paragraph? ==> k.text == line
  {
    TestsAreExclusive(line);
    if StartsWith(line, "# ") then Heading1(line[2..])
    else if StartsWith(line, "## ") then Heading2(line[3..])
    else if StartsWith(line, "### ") then Heading3(line[3..])
    else if StartsWith(line, "- ") || StartsWith(line, "* ") then Bullet(line[2..])
    else if OrderedMarker(line).Some? then NumberedLine(line)
    else if line == "" then Blank else Paragraph(line)
  }

  /** The numbered branch: the matched marker, and the trimmed text after the
      first `.` of the line. */
  function NumberedLine(line: string): (k: LineKind)
    requires OrderedMarker(line).Some?
    ensures k.Numbered? && k.marker == OrderedMarker(line).value
    ensures |k.marker| >= 3 && StartsWith(line, k.marker) && k.text == Trim(line[|k.marker| - 1..])
    ensures '.' !in k.marker[..|k.marker| - 2]
  {
    var marker := OrderedMarker(line).value;
    MarkerDot(line);
    var dot := IndexOf(line, '.');
    Numbered(marker, Trim(line[dot + 1..]))
  }

  /** In an ordered item the first `.` of the line is the one closing the
      number, so `line.indexOf('.') + 1` is where the marker's whitespace begins. */
  lemma MarkerDot(line: string)
    requires OrderedMarker(line).Some?
    ensures var marker := OrderedMarker(line).value;
      '.' in line && IndexOf(line, '.') == |marker| - 2 && '.' !in marker[..|marker| - 2]
  {
    var marker := OrderedMarker(line).value;
    PrefixAt(line, marker, |marker| - 2);
    assert line[..|marker| - 2] == marker[..|marker| - 2];
    assert forall i :: 0 <= i < |marker| - 2 ==> marker[i] != '.' by {
      assert forall i :: 0 <= i < |marker| - 2 ==> IsDigit(marker[i]);
    }
  }
}
