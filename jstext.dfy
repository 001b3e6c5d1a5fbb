/** The JavaScript string operations the layout engine relies on: `trim`,
    `startsWith`/`endsWith`, `indexOf`, `split('\n')`, `split(/\s+/)`,
    `split(/(\*\*.*?\*\*)/)`, the `slice(2, -2)` that strips bold markers, and
    the decimal rendering of page numbers in a template string.
    A string is a sequence of `char`s, Unicode scalar values. Every position
    the code computes is found by matching ASCII text, so this agrees with
    JavaScript's UTF-16 code units on well-formed text. */
module JsText {

  datatype Option<T> = None | Some(value: T)

  /** The code units matched by `\s` and removed by `trim` (ECMAScript
      WhiteSpace and LineTerminator). */
  predicate IsWs(c: char) {
    c == '\t' || c == '\n' || c == '\U{000B}' || c == '\U{000C}' || c == '\r' || c == ' ' ||
    c == '\U{00A0}' || c == '\U{1680}' || ('\U{2000}' <= c <= '\U{200A}') ||
    c == '\U{2028}' || c == '\U{2029}' || c == '\U{202F}' || c == '\U{205F}' ||
    c == '\U{3000}' || c == '\U{FEFF}'
  }

  /** The code units that the regular-expression `.` does not match. */
  predicate IsLineTerminator(c: char) {
    c == '\n' || c == '\r' || c == '\U{2028}' || c == '\U{2029}'
  }

  predicate NoWs(s: string) {
    forall i :: 0 <= i < |s| ==> !IsWs(s[i])
  }

  predicate AllWs(s: string) {
    forall i :: 0 <= i < |s| ==> IsWs(s[i])
  }

  predicate StartsWith(s: string, prefix: string) {
    |prefix| <= |s| && s[..|prefix|] == prefix
  }

  predicate EndsWith(s: string, suffix: string) {
    |suffix| <= |s| && s[|s| - |suffix|..] == suffix
  }

  function Concat(parts: seq<string>): string {
    if parts == [] then "" else parts[0] + Concat(parts[1..])
  }

  /** The string with every whitespace code unit deleted: what is left of a
      text once its layout (spaces, tabs, line breaks) is ignored. */
  function RemoveWs(s: string): string {
    if s == [] then "" else (if IsWs(s[0]) then "" else [s[0]]) + RemoveWs(s[1..])
  }

  lemma {:induction false} RemoveWsAppend(a: string, b: string)
    ensures RemoveWs(a + b) == RemoveWs(a) + RemoveWs(b)
  {
    if a != [] {
      var head := if IsWs(a[0]) then "" else [a[0]];
      assert (a + b)[0] == a[0];
      assert (a + b)[1..] == a[1..] + b;
      RemoveWsAppend(a[1..], b);
      calc {
        RemoveWs(a + b);
        head + RemoveWs(a[1..] + b);
        head + (RemoveWs(a[1..]) + RemoveWs(b));
        (head + RemoveWs(a[1..])) + RemoveWs(b);
      }
    } else {
      assert a + b == b;
    }
  }

  lemma {:induction false} RemoveWsOfNoWs(s: string)
    requires NoWs(s)
    ensures RemoveWs(s) == s
  {
    if s != [] {
      RemoveWsOfNoWs(s[1..]);
    }
  }

  lemma {:induction false} RemoveWsOfAllWs(s: string)
    requires AllWs(s)
    ensures RemoveWs(s) == ""
  {
    if s != [] {
      RemoveWsOfAllWs(s[1..]);
    }
  }

  /** Leading whitespace removed (the first half of `trim`). */
  function TrimStart(s: string): string {
    if s != [] && IsWs(s[0]) then TrimStart(s[1..]) else s
  }

  /** What `TrimStart` cuts is whitespace, and what it keeps does not begin with any. */
  lemma {:induction false} TrimStartSpec(s: string)
    ensures var r := TrimStart(s);
      |r| <= |s| && r == s[|s| - |r|..] && AllWs(s[..|s| - |r|]) && (r == [] || !IsWs(r[0]))
  {
    if s != [] && IsWs(s[0]) {
      TrimStartSpec(s[1..]);
      var r := TrimStart(s);
      assert s[..|s| - |r|] == [s[0]] + s[1..][..|s| - 1 - |r|];
    }
  }

  /** Trailing whitespace removed (the second half of `trim`). */
  function TrimEnd(s: string): string {
    if s != [] && IsWs(s[|s| - 1]) then TrimEnd(s[..|s| - 1]) else s
  }

  /** What `TrimEnd` cuts is whitespace, and what it keeps does not end with any. */
  lemma {:induction false} TrimEndSpec(s: string)
    ensures var r := TrimEnd(s);
      |r| <= |s| && r == s[..|r|] && AllWs(s[|r|..]) && (r == [] || !IsWs(r[|r| - 1]))
  {
    if s != [] && IsWs(s[|s| - 1]) {
      TrimEndSpec(s[..|s| - 1]);
      var r := TrimEnd(s);
      assert s[|r|..] == s[..|s| - 1][|r|..] + [s[|s| - 1]];
    }
  }

  /** `String.prototype.trim`. */
  function Trim(s: string): string {
    TrimEnd(TrimStart(s))
  }

  /** `trim` keeps a middle part of `s`, starting after the leading
      whitespace, that neither begins nor ends with whitespace: everything it
      cuts away is whitespace. */
  lemma TrimSpec(s: string)
    ensures var a, r := |s| - |TrimStart(s)|, Trim(s);
      |TrimStart(s)| <= |s| && a + |r| <= |s| && r == s[a..a + |r|] && AllWs(s[..a]) && AllWs(s[a + |r|..])
    ensures var r := Trim(s); r == [] || (!IsWs(r[0]) && !IsWs(r[|r| - 1]))
  {
    var t := TrimStart(s);
    var r := TrimEnd(t);
    var a := |s| - |t|;
    TrimStartSpec(s);
    TrimEndSpec(t);
    assert t == s[a..];
    assert s[a..a + |r|] == t[..|r|];
    assert s[a + |r|..] == t[|r|..];
  }

  /** A line whose trimmed form is empty is exactly a line of whitespace. */
  lemma TrimIsEmpty(s: string)
    ensures Trim(s) == "" <==> AllWs(s)
  {
    var r := Trim(s);
    var a := |s| - |TrimStart(s)|;
    TrimSpec(s);
    if r == "" {
      forall i | 0 <= i < |s| ensures IsWs(s[i]) {
        if i < a { assert s[..a][i] == s[i]; } else { assert s[a..][i - a] == s[i]; }
      }
    } else {
      assert s[a] == r[0];
    }
  }

  /** `s.indexOf(c)` for a code unit that occurs in `s`. */
  function IndexOf(s: string, c: char): (i: nat)
    requires c in s
    ensures i < |s| && s[i] == c && c !in s[..i]
  {
    if s[0] == c then 0 else
      assert c in s[1..] by { var k :| 0 <= k < |s| && s[k] == c; assert s[1..][k - 1] == c; }
      var j := IndexOf(s[1..], c);
      assert s[..j + 1] == [s[0]] + s[1..][..j];
      j + 1
  }

  /** The pieces joined back together with `sep` between neighbours. */
  function JoinWith(parts: seq<string>, sep: char): string
    requires |parts| >= 1
  {
    if |parts| == 1 then parts[0] else parts[0] + [sep] + JoinWith(parts[1..], sep)
  }

  /** `s.split(sep)` for a one-character separator. */
  function SplitOn(s: string, sep: char): (r: seq<string>)
    ensures |r| >= 1
    ensures forall k :: 0 <= k < |r| ==> sep !in r[k]
    decreases |s|
  {
    if sep in s then
      var i := IndexOf(s, sep);
      [s[..i]] + SplitOn(s[i + 1..], sep)
    else
      [s]
  }

  /** Splitting on a separator loses nothing: joining the pieces with it gives the string back. */
  lemma {:induction false} SplitOnJoin(s: string, sep: char)
    ensures JoinWith(SplitOn(s, sep), sep) == s
    decreases |s|
  {
    if sep in s {
      var i := IndexOf(s, sep);
      SplitOnJoin(s[i + 1..], sep);
      assert SplitOn(s, sep)[1..] == SplitOn(s[i + 1..], sep);
      assert s == s[..i] + [sep] + s[i + 1..];
    }
  }

  /** The length of the whitespace-free prefix of `s`. */
  function FirstWs(s: string): (i: nat)
    ensures i <= |s| && NoWs(s[..i]) && (i < |s| ==> IsWs(s[i]))
  {
    if s == [] || IsWs(s[0]) then 0 else
      var j := FirstWs(s[1..]);
      assert s[..j + 1] == [s[0]] + s[1..][..j];
      j + 1
  }

  /** The end of the whitespace run that starts at `i`. */
  function WsRunEnd(s: string, i: nat): (j: nat)
    requires i <= |s|
    ensures i <= j <= |s| && AllWs(s[i..j]) && (j < |s| ==> !IsWs(s[j]))
    decreases |s| - i
  {
    if i < |s| && IsWs(s[i]) then
      var j := WsRunEnd(s, i + 1);
      assert s[i..j] == [s[i]] + s[i + 1..j];
      j
    else i
  }

  /** `s.split(/\s+/)`: the words of `s`, with an empty first or last word
      when `s` begins or ends with whitespace, and `[""]` for `""`. */
  function SplitWs(s: string): (r: seq<string>)
    ensures |r| >= 1
    ensures forall k :: 0 <= k < |r| ==> NoWs(r[k])
    decreases |s|
  {
    var i := FirstWs(s);
    if i == |s| then
      assert s[..i] == s;
      [s]
    else
      var j := WsRunEnd(s, i);
      [s[..i]] + SplitWs(s[j..])
  }

  /** The whitespace runs that the split removes, in order. */
  function WsGaps(s: string): (g: seq<string>)
    ensures forall k :: 0 <= k < |g| ==> g[k] != "" && AllWs(g[k])
    decreases |s|
  {
    var i := FirstWs(s);
    if i == |s| then [] else
      var j := WsRunEnd(s, i);
      [s[i..j]] + WsGaps(s[j..])
  }

  /** Words and gaps, alternating, beginning and ending with a word. */
  function Weave(words: seq<string>, gaps: seq<string>): string
    requires |words| == |gaps| + 1
    decreases |gaps|
  {
    if gaps == [] then words[0] else words[0] + gaps[0] + Weave(words[1..], gaps[1..])
  }

  /** One step of the split: the first word, the first run, the rest. */
  lemma SplitWsStep(s: string)
    requires FirstWs(s) < |s|
    ensures SplitWs(s) == [s[..FirstWs(s)]] + SplitWs(s[WsRunEnd(s, FirstWs(s))..])
    ensures WsGaps(s) == [s[FirstWs(s)..WsRunEnd(s, FirstWs(s))]] + WsGaps(s[WsRunEnd(s, FirstWs(s))..])
    ensures s == s[..FirstWs(s)] + s[FirstWs(s)..WsRunEnd(s, FirstWs(s))] + s[WsRunEnd(s, FirstWs(s))..]
    ensures s[WsRunEnd(s, FirstWs(s))..] != [] ==> FirstWs(s[WsRunEnd(s, FirstWs(s))..]) > 0
  {
    var i := FirstWs(s);
    var j := WsRunEnd(s, i);
    var rest := s[j..];
    ThreeParts(s, i, j);
    if rest != [] {
      assert rest[0] == s[j] && !IsWs(rest[0]);
    }
  }

  lemma ThreeParts(s: string, i: nat, j: nat)
    requires i <= j <= |s|
    ensures s == s[..i] + s[i..j] + s[j..]
  {
  }

  lemma WeaveCons(w: string, g: string, words: seq<string>, gaps: seq<string>)
    requires |words| == |gaps| + 1
    ensures Weave([w] + words, [g] + gaps) == w + g + Weave(words, gaps)
  {
    assert ([w] + words)[1..] == words && ([g] + gaps)[1..] == gaps;
  }

  /** The split cuts `s` at its whitespace runs: words and runs, alternating,
      make up `s`, and every run is non-empty whitespace. */
  lemma {:induction false} SplitWsWeave(s: string)
    ensures |WsGaps(s)| == |SplitWs(s)| - 1
    ensures Weave(SplitWs(s), WsGaps(s)) == s
    decreases |s|
  {
    var i := FirstWs(s);
    if i == |s| {
      assert s[..i] == s;
    } else {
      var j := WsRunEnd(s, i);
      SplitWsStep(s);
      SplitWsWeave(s[j..]);
      WeaveCons(s[..i], s[i..j], SplitWs(s[j..]), WsGaps(s[j..]));
    }
  }

  /** Every word between two runs is non-empty, so no two runs touch and each
      run the split removes is a maximal one. */
  lemma {:induction false} SplitWsInnerWords(s: string)
    ensures forall k :: 0 < k < |SplitWs(s)| - 1 ==> SplitWs(s)[k] != ""
    decreases |s|
  {
    var i := FirstWs(s);
    if i < |s| {
      var j := WsRunEnd(s, i);
      var rest := s[j..];
      SplitWsStep(s);
      SplitWsInnerWords(rest);
      var r := SplitWs(s);
      forall k | 0 < k < |r| - 1 ensures r[k] != "" {
        assert r[k] == SplitWs(rest)[k - 1];
        if k == 1 {
          assert rest != [];
        }
      }
    }
  }

  lemma ConcatCons(x: string, rest: seq<string>)
    ensures Concat([x] + rest) == x + Concat(rest)
  {
    assert ([x] + rest)[1..] == rest;
  }

  /** A word, a run of whitespace, and the rest: only the word and what the
      rest keeps remain. */
  lemma RemoveWsWordThenWs(s: string, i: nat, j: nat)
    requires i <= j <= |s| && NoWs(s[..i]) && AllWs(s[i..j])
    ensures RemoveWs(s) == s[..i] + RemoveWs(s[j..])
  {
    assert s == s[..i] + s[i..j] + s[j..];
    RemoveWsThree(s[..i], s[i..j], s[j..]);
  }

  lemma RemoveWsThree(word: string, gap: string, rest: string)
    requires NoWs(word) && AllWs(gap)
    ensures RemoveWs(word + gap + rest) == word + RemoveWs(rest)
  {
    RemoveWsAppend(word + gap, rest);
    RemoveWsWordGap(word, gap);
  }

  lemma RemoveWsWordGap(word: string, gap: string)
    requires NoWs(word) && AllWs(gap)
    ensures RemoveWs(word + gap) == word
  {
    RemoveWsAppend(word, gap);
    RemoveWsOfNoWs(word);
    RemoveWsOfAllWs(gap);
  }

  /** The words of `s`, in order, are all of its non-whitespace text. */
  lemma {:induction false} SplitWsKeepsText(s: string)
    ensures Concat(SplitWs(s)) == RemoveWs(s)
    decreases |s|
  {
    var i := FirstWs(s);
    if i == |s| {
      assert s[..i] == s;
      RemoveWsOfNoWs(s);
    } else {
      var j := WsRunEnd(s, i);
      SplitWsKeepsText(s[j..]);
      ConcatCons(s[..i], SplitWs(s[j..]));
      RemoveWsWordThenWs(s, i, j);
    }
  }

  /** A `**` delimiter occupies positions `i` and `i + 1`. */
  predicate DelimAt(s: string, i: int) {
    0 <= i && i + 2 <= |s| && s[i] == '*' && s[i + 1] == '*'
  }

  /** The lazy `.*?\*\*` after an opening `**`: the first `q >= from` holding
      a closing `**` such that no line terminator lies between. */
  function CloseFrom(s: string, q: nat): (r: Option<nat>)
    requires q <= |s|
    ensures r.Some? ==> q <= r.value && DelimAt(s, r.value)
    ensures r.Some? ==> forall k :: q <= k < r.value ==> !DelimAt(s, k) && !IsLineTerminator(s[k])
    ensures r.None? ==> forall e :: q <= e && DelimAt(s, e) ==> exists k :: q <= k < e && IsLineTerminator(s[k])
    decreases |s| - q
  {
    if q + 2 > |s| then None
    else if DelimAt(s, q) then Some(q)
    else if IsLineTerminator(s[q]) then
      assert forall e :: q <= e && DelimAt(s, e) ==> q < e;
      None
    else CloseFrom(s, q + 1)
  }

  /** The end of a match of `\*\*.*?\*\*` that starts at `p`, if one does. */
  function BoldMatchAt(s: string, p: nat): (r: Option<nat>)
    requires p <= |s|
    ensures r.Some? ==> p + 4 <= r.value <= |s|
  {
    if DelimAt(s, p) then
      match CloseFrom(s, p + 2)
      case Some(q) => Some(q + 2)
      case None => None
    else None
  }

  /** A piece captured by the bold pattern: `**`, text without a line
      terminator, `**`, where the closing `**` is the first one after the
      opening (the match is lazy). */
  predicate IsBoldRun(t: string) {
    |t| >= 4 && StartsWith(t, "**") && EndsWith(t, "**") &&
    forall k :: 2 <= k < |t| - 2 ==> !IsLineTerminator(t[k]) && !DelimAt(t, k)
  }

  /** `s.split(/(\*\*.*?\*\*)/)` continued from position `q`, the current piece
      having begun at `a`: each leftmost match closes the piece before it and is
      kept as a piece of its own (the capture). */
  function SplitBoldFrom(s: string, a: nat, q: nat): (r: seq<string>)
    requires a <= q <= |s|
    ensures |r| % 2 == 1
    decreases |s| - q
  {
    if q == |s| then [s[a..]]
    else match BoldMatchAt(s, q)
      case Some(e) => [s[a..q], s[q..e]] + SplitBoldFrom(s, e, e)
      case None => SplitBoldFrom(s, a, q + 1)
  }

  lemma ConcatCons2(x: string, y: string, rest: seq<string>)
    ensures Concat([x, y] + rest) == x + y + Concat(rest)
  {
    assert ([x, y] + rest)[1..] == [y] + rest;
    ConcatCons(y, rest);
  }

  lemma SliceThree(s: string, a: nat, q: nat, e: nat)
    requires a <= q <= e <= |s|
    ensures s[a..] == s[a..q] + s[q..e] + s[e..]
  {
  }

  /** Splitting loses nothing: the pieces concatenate back to the text. */
  lemma {:induction false} SplitBoldFromConcat(s: string, a: nat, q: nat)
    requires a <= q <= |s|
    ensures Concat(SplitBoldFrom(s, a, q)) == s[a..]
    decreases |s| - q
  {
    if q < |s| {
      match BoldMatchAt(s, q)
      case Some(e) =>
        SplitBoldFromConcat(s, e, e);
        ConcatCons2(s[a..q], s[q..e], SplitBoldFrom(s, e, e));
        SliceThree(s, a, q, e);
      case None =>
        SplitBoldFromConcat(s, a, q + 1);
    }
  }

  /** What a match covers is a bold run. */
  lemma MatchIsBoldRun(s: string, q: nat)
    requires q <= |s| && BoldMatchAt(s, q).Some?
    ensures IsBoldRun(s[q..BoldMatchAt(s, q).value])
  {
    var e := BoldMatchAt(s, q).value;
    var t := s[q..e];
    forall k | 2 <= k < |t| - 2 ensures !IsLineTerminator(t[k]) && !DelimAt(t, k) {
      assert t[k] == s[q + k] && t[k + 1] == s[q + k + 1];
    }
  }

  /** Every odd-numbered piece is a bold run, markers included. */
  lemma {:induction false} SplitBoldFromRuns(s: string, a: nat, q: nat)
    requires a <= q <= |s|
    ensures forall k :: 0 <= k < |SplitBoldFrom(s, a, q)| && k % 2 == 1 ==> IsBoldRun(SplitBoldFrom(s, a, q)[k])
    decreases |s| - q
  {
    if q < |s| {
      match BoldMatchAt(s, q)
      case Some(e) =>
        var rest := SplitBoldFrom(s, e, e);
        var r := [s[a..q], s[q..e]] + rest;
        SplitBoldFromRuns(s, e, e);
        MatchIsBoldRun(s, q);
        forall k | 0 <= k < |r| && k % 2 == 1 ensures IsBoldRun(r[k]) {
          if k >= 2 { assert r[k] == rest[k - 2]; }
        }
      case None =>
        SplitBoldFromRuns(s, a, q + 1);
    }
  }

  /** The search for a closing `**` only looks forward, so it succeeds in a
      suffix of the text exactly where it succeeds in the text. */
  lemma {:induction false} CloseFromSuffix(s: string, a: nat, q: nat)
    requires a <= |s| && q <= |s| - a
    ensures CloseFrom(s[a..], q).None? == CloseFrom(s, a + q).None?
    decreases |s| - a - q
  {
    if q + 2 <= |s| - a && !DelimAt(s[a..], q) && !IsLineTerminator(s[a..][q]) {
      CloseFromSuffix(s, a, q + 1);
    }
  }

  lemma BoldMatchSuffix(s: string, a: nat, p: nat)
    requires a <= |s| && p <= |s| - a
    ensures BoldMatchAt(s[a..], p).None? == BoldMatchAt(s, a + p).None?
  {
    if DelimAt(s, a + p) {
      CloseFromSuffix(s, a, p + 2);
    }
  }

  /** No bold run starts in `t` before position `n`. */
  predicate NoMatchBefore(t: string, n: nat)
    requires n <= |t|
  {
    forall p :: 0 <= p < n ==> BoldMatchAt(t, p).None?
  }

  /** A text with no match before `q` has none in its suffix from `a` before
      `q - a`. */
  lemma NoMatchInSuffix(s: string, a: nat, q: nat)
    requires a <= q <= |s|
    requires forall p :: a <= p < q ==> BoldMatchAt(s, p).None?
    ensures NoMatchBefore(s[a..], q - a)
  {
    forall p | 0 <= p < q - a ensures BoldMatchAt(s[a..], p).None? {
      BoldMatchSuffix(s, a, p);
    }
  }

  /** After a match from `q` to `e`, the piece before it and the pieces after
      it make up the text from `a`, so the piece starts no match. */
  lemma PieceThenRest(s: string, a: nat, q: nat, e: nat)
    requires a <= q <= e <= |s|
    requires forall p :: a <= p < q ==> BoldMatchAt(s, p).None?
    ensures NoMatchBefore(s[a..q] + Concat([s[q..e]] + SplitBoldFrom(s, e, e)), q - a)
  {
    var rest := SplitBoldFrom(s, e, e);
    var r := [s[a..q], s[q..e]] + rest;
    SplitBoldFromConcat(s, e, e);
    assert r[1..] == [s[q..e]] + rest;
    ConcatCons(s[q..e], rest);
    SliceThree(s, a, q, e);
    assert s[a..q] + Concat([s[q..e]] + rest) == s[a..];
    NoMatchInSuffix(s, a, q);
  }

  /** No position of a plain (even) piece starts a bold run in the text that
      remains from that piece on. */
  predicate PlainPiecesClean(r: seq<string>) {
    forall k :: 0 <= k < |r| && k % 2 == 0 ==> NoMatchBefore(r[k] + Concat(r[k + 1..]), |r[k]|)
  }

  lemma PlainPiecesCons(x: string, y: string, rest: seq<string>)
    requires NoMatchBefore(x + Concat([y] + rest), |x|) && PlainPiecesClean(rest)
    ensures PlainPiecesClean([x, y] + rest)
  {
    var r := [x, y] + rest;
    assert r[1..] == [y] + rest;
    forall k | 2 <= k < |r| && k % 2 == 0 ensures NoMatchBefore(r[k] + Concat(r[k + 1..]), |r[k]|) {
      assert r[k] == rest[k - 2] && r[k + 1..] == rest[k - 1..];
    }
  }

  /** The split takes the leftmost match. */
  lemma {:induction false} SplitBoldFromLeftmost(s: string, a: nat, q: nat)
    requires a <= q <= |s|
    requires forall p :: a <= p < q ==> BoldMatchAt(s, p).None?
    ensures PlainPiecesClean(SplitBoldFrom(s, a, q))
    decreases |s| - q
  {
    var r := SplitBoldFrom(s, a, q);
    if q == |s| {
      assert r == [s[a..]] && r[0] + Concat(r[1..]) == s[a..];
      NoMatchInSuffix(s, a, q);
    } else {
      match BoldMatchAt(s, q)
      case Some(e) =>
        var rest := SplitBoldFrom(s, e, e);
        assert r == [s[a..q], s[q..e]] + rest;
        PieceThenRest(s, a, q, e);
        SplitBoldFromLeftmost(s, e, e);
        PlainPiecesCons(s[a..q], s[q..e], rest);
      case None =>
        assert r == SplitBoldFrom(s, a, q + 1);
        SplitBoldFromLeftmost(s, a, q + 1);
    }
  }

  /** `text.split(/(\*\*.*?\*\*)/)`. */
  function SplitBold(s: string): seq<string> {
    SplitBoldFrom(s, 0, 0)
  }

  /** Plain pieces at even positions, bold runs (with their markers) at odd
      positions, and nothing lost between them. */
  lemma SplitBoldSpec(s: string)
    ensures |SplitBold(s)| % 2 == 1
    ensures Concat(SplitBold(s)) == s
    ensures forall k :: 0 <= k < |SplitBold(s)| && k % 2 == 1 ==> IsBoldRun(SplitBold(s)[k])
    ensures PlainPiecesClean(SplitBold(s))
  {
    SplitBoldFromConcat(s, 0, 0);
    SplitBoldFromRuns(s, 0, 0);
    SplitBoldFromLeftmost(s, 0, 0);
  }

  /** The segment with `slice(2, -2)` applied when it both starts and ends
      with `**`; a segment of two or three code units then becomes empty. */
  function StripBold(segment: string): string {
    if StartsWith(segment, "**") && EndsWith(segment, "**") then
      (if |segment| >= 4 then segment[2..|segment| - 2] else "")
    else segment
  }

  /** On a bold run the strip removes exactly the outer markers. */
  lemma StripBoldRun(t: string)
    requires IsBoldRun(t)
    ensures "**" + StripBold(t) + "**" == t
  {
    assert t == t[..2] + t[2..|t| - 2] + t[|t| - 2..];
  }

  /** A text with no `**` in it is a single plain segment, left intact. */
  lemma NoDelimiterNoSplit(s: string)
    requires forall i :: 0 <= i < |s| ==> !DelimAt(s, i)
    ensures SplitBold(s) == [s]
    ensures StripBold(s) == s
  {
    assert !DelimAt(s, 0);
    SplitWithoutDelimiter(s, 0);
  }

  lemma {:induction false} SplitWithoutDelimiter(s: string, q: nat)
    requires q <= |s|
    requires forall i :: 0 <= i < |s| ==> !DelimAt(s, i)
    ensures SplitBoldFrom(s, 0, q) == [s]
    decreases |s| - q
  {
    if q < |s| {
      SplitWithoutDelimiter(s, q + 1);
    }
  }

  function DigitChar(d: nat): char
    requires d < 10
  {
    "0123456789"[d]
  }

  /** The decimal numeral of `n`, as `${n}` renders an integer. */
  function Show(n: nat): (r: string)
    ensures |r| >= 1
    ensures forall k :: 0 <= k < |r| ==> '0' <= r[k] <= '9'
  {
    if n < 10 then [DigitChar(n)] else Show(n / 10) + [DigitChar(n % 10)]
  }

  /** The value of a string of decimal digits. */
  function ParseDecimal(s: string): nat
    requires forall k :: 0 <= k < |s| ==> '0' <= s[k] <= '9'
  {
    if s == [] then 0 else 10 * ParseDecimal(s[..|s| - 1]) + (s[|s| - 1] as int - '0' as int)
  }

  /** Reading the numeral back gives the number: `Show` loses nothing. */
  lemma {:induction false} ParseShow(n: nat)
    ensures ParseDecimal(Show(n)) == n
  {
    var c := DigitChar(n % 10);
    DigitValue(n % 10);
    if n < 10 {
      assert Show(n) == [] + [c];
    } else {
      var p := Show(n / 10);
      assert Show(n) == p + [c];
      assert (p + [c])[..|p|] == p;
      ParseShow(n / 10);
    }
  }

  lemma DigitValue(d: nat)
    requires d < 10
    ensures DigitChar(d) as int - '0' as int == d
  {
  }

  lemma ShowInjective(a: nat, b: nat)
    requires Show(a) == Show(b)
    ensures a == b
  {
    ParseShow(a);
    ParseShow(b);
  }
}
