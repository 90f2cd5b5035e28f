/**
 * Greedy line wrapping (`wrapLines`, src/core/pdf/bidiText.js). The width of a
 * range of the text is any function of its two ends.
 */
module WrapLines {

  datatype Range = Range(start: nat, end: nat)

  type Widths = (nat, nat) -> real

  /** What `\s` matches and `trimEnd` removes. */
  predicate IsSpace(c: char) {
    '\U{9}' <= c <= '\U{D}' || c == ' ' || c == '\U{A0}' || c == '\U{1680}' || '\U{2000}' <= c <= '\U{200A}'
    || c == '\U{2028}' || c == '\U{2029}' || c == '\U{202F}' || c == '\U{205F}' || c == '\U{3000}' || c == '\U{FEFF}'
  }

  /** ECMAScript's WhiteSpace and LineTerminator: the ASCII ones, the no-break ones, and the space separators of Unicode. */
  const SPACES: set<int> := {
    0x9, 0xA, 0xB, 0xC, 0xD, 0x20, 0xA0, 0x1680, 0x2000, 0x2001, 0x2002, 0x2003, 0x2004, 0x2005, 0x2006, 0x2007, 0x2008,
    0x2009, 0x200A, 0x2028, 0x2029, 0x202F, 0x205F, 0x3000, 0xFEFF}

  lemma SpacesAre(c: char)
    ensures IsSpace(c) <==> c as int in SPACES
  {
  }

  ghost predicate Blank(text: string, from: nat, to: nat) {
    forall i :: from <= i < to && i < |text| ==> IsSpace(text[i])
  }

  /** The first place in [i, to) that is a space (or is none), or `to`. */
  function Skip(text: string, i: nat, to: nat, spaces: bool): (j: nat)
    requires i <= to <= |text|
    ensures i <= j <= to && (j < to ==> IsSpace(text[j]) != spaces)
    ensures forall k :: i <= k < j ==> IsSpace(text[k]) == spaces
    decreases (to - i)
  {
    if i < to && IsSpace(text[i]) == spaces then Skip(text, i + 1, to, spaces) else i
  }

  function TrimEnd(text: string, from: nat, to: nat): (t: nat)
    requires from <= to <= |text|
    ensures from <= t <= to && Blank(text, t, to) && (from < t ==> !IsSpace(text[t - 1]))
    decreases (to)
  {
    if from < to && IsSpace(text[to - 1]) then TrimEnd(text, from, to - 1) else to
  }

  /** The matches of `\S+\s*|\s+`: words with the spaces after them; only the first can be spaces alone. */
  function Words(text: string, from: nat, to: nat): seq<Range>
    requires from <= to <= |text|
    decreases (to - from)
  {
    if from == to then []
    else
      var end := Skip(text, Skip(text, from, to, false), to, true);
      [Range(from, end)] + Words(text, end, to)
  }

  /** Where word `w` starts; the text's end when there is no such word. */
  function StartOf(words: seq<Range>, to: nat, w: nat): nat { if w < |words| then words[w].start else to }

  /** Of a word only the spaces at its end are spaces, and only the first word can be all spaces. */
  ghost predicate WordShape(text: string, word: Range, first: bool) {
    && word.start < word.end <= |text|
    && (forall i :: word.start <= i < TrimEnd(text, word.start, word.end) ==> !IsSpace(text[i]))
    && (!first ==> word.start < TrimEnd(text, word.start, word.end))
  }

  /** Words follow each other without gap, from the start of the text to its end. */
  lemma {:induction false} WordAt(text: string, from: nat, to: nat, w: nat)
    requires from <= to <= |text| && w < |Words(text, from, to)|
    ensures var words := Words(text, from, to);
      && WordShape(text, words[w], w == 0) && StartOf(words, to, 0) == from
      && words[w].end == StartOf(words, to, w + 1) && words[w].end <= to
    decreases (to - from)
  {
    var end := Skip(text, Skip(text, from, to, false), to, true);
    assert StartOf(Words(text, end, to), to, 0) == end;
    if w > 0 {
      WordAt(text, end, to, w - 1);
    } else {
      FirstWord(text, from, to);
    }
  }

  lemma FirstWord(text: string, from: nat, to: nat)
    requires from < to <= |text|
    ensures WordShape(text, Range(from, Skip(text, Skip(text, from, to, false), to, true)), true)
  {
    var stop := Skip(text, from, to, false);
    var end := Skip(text, stop, to, true);
    if from < stop {
      TrimEndIs(text, from, stop, end);
    } else {
      AllSpaces(text, from, end);
    }
  }

  lemma {:induction false} AllSpaces(text: string, from: nat, to: nat)
    requires from <= to <= |text| && Blank(text, from, to)
    ensures TrimEnd(text, from, to) == from
  {
    if from < to { AllSpaces(text, from, to - 1); }
  }

  // ------------------------------------------------- nothing lost, all fits

  /** The raw lines cover [from, to) end to end. */
  ghost predicate Tiles(raw: seq<Range>, from: nat, to: nat) {
    if raw == [] then from == to
    else
      var last := raw[|raw| - 1];
      last.end == to && last.start < last.end && Tiles(raw[..|raw| - 1], from, last.start)
  }

  predicate Fits(text: string, widthOf: Widths, width: real, r: Range)
    requires r.start <= r.end <= |text|
  {
    var t := TrimEnd(text, r.start, r.end);
    t <= r.start + 1 || widthOf(r.start, t) <= width
  }

  ghost predicate AllFit(text: string, widthOf: Widths, width: real, raw: seq<Range>) {
    forall k :: 0 <= k < |raw| ==> raw[k].start < raw[k].end <= |text| && Fits(text, widthOf, width, raw[k])
  }

  /** The lines without the spaces at their ends, those left empty dropped. */
  function Trimmed(text: string, raw: seq<Range>): seq<Range>
    requires forall k :: 0 <= k < |raw| ==> raw[k].start < raw[k].end <= |text|
  {
    if raw == [] then []
    else
      var last := raw[|raw| - 1];
      var t := TrimEnd(text, last.start, last.end);
      Trimmed(text, raw[..|raw| - 1]) + if t > last.start then [Range(last.start, t)] else []
  }

  predicate Inside(lines: seq<Range>, i: nat) {
    exists k :: 0 <= k < |lines| && lines[k].start <= i < lines[k].end
  }

  /** Disjoint ranges of [from, to) in increasing order, none too wide but single characters. */
  ghost predicate InOrder(widthOf: Widths, width: real, from: nat, to: nat, lines: seq<Range>) {
    && (forall k :: 0 <= k < |lines| ==> Placed(widthOf, width, from, to, lines[k]))
    && (forall k :: 0 < k < |lines| ==> lines[k - 1].end <= lines[k].start)
  }

  predicate Placed(widthOf: Widths, width: real, from: nat, to: nat, line: Range) {
    from <= line.start < line.end <= to && (line.end == line.start + 1 || widthOf(line.start, line.end) <= width)
  }

  /** Outside the lines there are spaces alone. */
  ghost predicate Covered(text: string, from: nat, to: nat, lines: seq<Range>) {
    forall i :: from <= i < to && i < |text| ==> IsSpace(text[i]) || Inside(lines, i)
  }

  ghost predicate Laid(text: string, widthOf: Widths, width: real, from: nat, to: nat, lines: seq<Range>) {
    InOrder(widthOf, width, from, to, lines) && Covered(text, from, to, lines)
  }

  lemma InsideMore(before: seq<Range>, more: seq<Range>, i: nat)
    ensures Inside(before, i) || Inside(more, i) ==> Inside(before + more, i)
  {
    if Inside(before, i) {
      var k :| 0 <= k < |before| && before[k].start <= i < before[k].end;
      assert (before + more)[k] == before[k];
    } else if Inside(more, i) {
      var k :| 0 <= k < |more| && more[k].start <= i < more[k].end;
      assert (before + more)[|before| + k] == more[k];
    }
  }

  lemma CoveredAfter(text: string, from: nat, before: seq<Range>, last: Range, more: seq<Range>)
    requires from <= last.start < last.end <= |text| && Covered(text, from, last.start, before)
    requires var t := TrimEnd(text, last.start, last.end); more == if t > last.start then [Range(last.start, t)] else []
    ensures Covered(text, from, last.end, before + more)
  {
    forall i | from <= i < last.end && !IsSpace(text[i]) ensures Inside(before + more, i) {
      if i >= last.start { assert i < TrimEnd(text, last.start, last.end); }
      if i >= last.start { assert more[0].start <= i < more[0].end; }
      InsideMore(before, more, i);
    }
  }

  lemma InOrderAfter(text: string, widthOf: Widths, width: real, from: nat, before: seq<Range>, last: Range, more: seq<Range>)
    requires last.start < last.end <= |text| && Fits(text, widthOf, width, last)
    requires from <= last.start && InOrder(widthOf, width, from, last.start, before)
    requires var t := TrimEnd(text, last.start, last.end); more == if t > last.start then [Range(last.start, t)] else []
    ensures InOrder(widthOf, width, from, last.end, before + more)
  {
    var lines := before + more;
    forall k | 0 <= k < |lines| ensures Placed(widthOf, width, from, last.end, lines[k]) {
      if k < |before| { assert Placed(widthOf, width, from, last.start, before[k]); }
    }
    forall k | 0 < k < |lines| ensures lines[k - 1].end <= lines[k].start {
      assert Placed(widthOf, width, from, last.start, before[k - 1]);
    }
  }

  lemma {:induction false} TrimmedIsLaid(text: string, widthOf: Widths, width: real, from: nat, to: nat, raw: seq<Range>)
    requires Tiles(raw, from, to) && AllFit(text, widthOf, width, raw)
    ensures from <= to && Laid(text, widthOf, width, from, to, Trimmed(text, raw))
    decreases |raw|
  {
    if raw != [] {
      var last := raw[|raw| - 1];
      TrimmedIsLaid(text, widthOf, width, from, last.start, raw[..|raw| - 1]);
      var t := TrimEnd(text, last.start, last.end);
      var before, more := Trimmed(text, raw[..|raw| - 1]), if t > last.start then [Range(last.start, t)] else [];
      InOrderAfter(text, widthOf, width, from, before, last, more);
      CoveredAfter(text, from, before, last, more);
    }
  }

  // ------------------------------------------------------ fewest lines

  /** The words from `i` up to `j` fit on one line. */
  predicate LineFits(text: string, words: seq<Range>, widthOf: Widths, width: real, i: nat, j: nat)
    requires forall w :: 0 <= w < |words| ==> words[w].start <= words[w].end <= |text|
  {
    i < j <= |words| && widthOf(words[i].start, TrimEnd(text, words[j - 1].start, words[j - 1].end)) <= width
  }

  ghost predicate Ranges(text: string, words: seq<Range>) {
    && (forall w :: 0 <= w < |words| ==> words[w].start < words[w].end <= |text| && !IsSpace(text[words[w].start]))
    && (forall v, w :: 0 <= v < w < |words| ==> words[v].end <= words[w].start)
  }

  ghost predicate Monotone(widthOf: Widths) {
    forall a: nat, b: nat, c: nat, d: nat {:trigger widthOf(a, d), widthOf(b, c)} :: a <= b <= c <= d ==> widthOf(b, c) <= widthOf(a, d)
  }

  /** One way to break at word boundaries: line `k` holds the words from cuts[k] up to cuts[k + 1]. */
  ghost predicate Breaks(text: string, words: seq<Range>, widthOf: Widths, width: real, cuts: seq<nat>)
    requires Ranges(text, words)
  {
    && |cuts| > 0 && cuts[0] == 0 && cuts[|cuts| - 1] == |words|
    && forall k :: 0 <= k < |cuts| - 1 ==> LineFits(text, words, widthOf, width, cuts[k], cuts[k + 1])
  }

  /** A break is made only before a word that does not fit on the line. */
  ghost predicate Greedy(text: string, words: seq<Range>, widthOf: Widths, width: real, cuts: seq<nat>)
    requires Ranges(text, words)
  {
    forall k :: 0 <= k < |cuts| - 2 ==> !LineFits(text, words, widthOf, width, cuts[k], cuts[k + 1] + 1)
  }

  lemma LineFitsInside(text: string, words: seq<Range>, widthOf: Widths, width: real, a: nat, b: nat, c: nat, d: nat)
    requires Ranges(text, words) && Monotone(widthOf)
    requires a <= b < c <= d && LineFits(text, words, widthOf, width, a, d)
    ensures LineFits(text, words, widthOf, width, b, c)
  {
    var e := TrimEnd(text, words[c - 1].start, words[c - 1].end);
    var f := TrimEnd(text, words[d - 1].start, words[d - 1].end);
    assert words[a].start <= words[b].start <= words[c - 1].start <= e;
    assert words[d - 1].start <= f;
    if c < d { assert words[c - 1].end <= words[d - 1].start; }
  }

  /** Greedy cuts are never behind anyone else's. */
  lemma {:induction false} StaysAhead(text: string, words: seq<Range>, widthOf: Widths, width: real, cuts: seq<nat>, other: seq<nat>, k: nat)
    requires Ranges(text, words) && Monotone(widthOf)
    requires Breaks(text, words, widthOf, width, cuts) && Greedy(text, words, widthOf, width, cuts)
    requires Breaks(text, words, widthOf, width, other)
    requires k < |cuts| && k < |other|
    ensures cuts[k] >= other[k]
  {
    if k > 0 {
      StaysAhead(text, words, widthOf, width, cuts, other, k - 1);
      assert LineFits(text, words, widthOf, width, other[k - 1], other[k]);
      assert LineFits(text, words, widthOf, width, cuts[k - 1], cuts[k]);
      if cuts[k] < other[k] {
        LineFitsInside(text, words, widthOf, width, other[k - 1], cuts[k - 1], cuts[k] + 1, other[k]);
      }
    }
  }

  lemma CutsInOrder(text: string, words: seq<Range>, widthOf: Widths, width: real, cuts: seq<nat>, k: nat)
    requires Ranges(text, words) && Breaks(text, words, widthOf, width, cuts) && k < |cuts| - 1
    ensures cuts[k] < |words|
  {
    assert LineFits(text, words, widthOf, width, cuts[k], cuts[k + 1]);
  }

  /** No way to break the same words at their boundaries needs fewer lines. */
  lemma GreedyIsOptimal(text: string, words: seq<Range>, widthOf: Widths, width: real, cuts: seq<nat>, other: seq<nat>)
    requires Ranges(text, words) && Monotone(widthOf)
    requires Breaks(text, words, widthOf, width, cuts) && Greedy(text, words, widthOf, width, cuts)
    requires Breaks(text, words, widthOf, width, other)
    ensures |cuts| <= |other|
  {
    if |other| < |cuts| {
      StaysAhead(text, words, widthOf, width, cuts, other, |other| - 1);
      CutsInOrder(text, words, widthOf, width, cuts, |other| - 1);
    }
  }

  /** No way to break the words at their boundaries has fewer than `n` lines. */
  ghost predicate NoneFewer(text: string, words: seq<Range>, widthOf: Widths, width: real, n: nat)
    requires Ranges(text, words)
  {
    forall other :: Breaks(text, words, widthOf, width, other) ==> n <= |other| - 1
  }

  // ---------------------------------------------------------- the loops

  predicate WordFits(text: string, word: Range, widthOf: Widths, width: real)
    requires word.start <= word.end <= |text|
  {
    widthOf(word.start, TrimEnd(text, word.start, word.end)) <= width
  }

  /** No space at the start, and every word fits on a line of its own. */
  ghost predicate Plain(text: string, from: nat, to: nat, widthOf: Widths, width: real)
    requires from <= to <= |text|
  {
    && Monotone(widthOf)
    && Ranges(text, Words(text, from, to))
    && forall w :: 0 <= w < |Words(text, from, to)| ==> WordFits(text, Words(text, from, to)[w], widthOf, width)
  }

  /** Where the loop over the words stands before word `w`, when the text is plain. */
  ghost predicate BrokenUpTo(text: string, words: seq<Range>, widthOf: Widths, width: real, to: nat, raw: seq<Range>, cuts: seq<nat>, w: nat)
    requires Ranges(text, words)
  {
    && w <= |words| && |cuts| == |raw| + 1 && cuts[0] == 0
    && (forall k :: 0 <= k < |raw| ==> LineFits(text, words, widthOf, width, cuts[k], cuts[k + 1]))
    && (forall k :: 0 <= k < |raw| ==> !LineFits(text, words, widthOf, width, cuts[k], cuts[k + 1] + 1))
    && (forall k :: 0 <= k < |raw| ==> raw[k] == Range(StartOf(words, to, cuts[k]), StartOf(words, to, cuts[k + 1])))
    && if w == 0 then cuts == [0] else LineFits(text, words, widthOf, width, cuts[|raw|], w)
  }

  /** One more raw line. */
  lemma CloseLine(text: string, widthOf: Widths, width: real, raw: seq<Range>, from: nat, r: Range)
    requires Tiles(raw, from, r.start) && AllFit(text, widthOf, width, raw)
    requires r.start < r.end <= |text| && Fits(text, widthOf, width, r)
    ensures Tiles(raw + [r], from, r.end) && AllFit(text, widthOf, width, raw + [r])
  {
    assert (raw + [r])[..|raw|] == raw;
  }

  lemma {:induction false} TrimEndIs(text: string, from: nat, t: nat, to: nat)
    requires from < t <= to <= |text| && !IsSpace(text[t - 1]) && Blank(text, t, to)
    ensures TrimEnd(text, from, to) == t
  {
    if t < to { TrimEndIs(text, from, t, to - 1); }
  }

  ghost predicate Snug(widthOf: Widths, width: real, ws: nat, trimmedEnd: nat) {
    forall i :: ws < i <= trimmedEnd ==> widthOf(ws, i) <= width
  }

  /** Where cutting the word at `ws` by characters stands before the check of character `i - 1`. */
  ghost predicate Cutting(text: string, widthOf: Widths, width: real, ws: nat, closed: seq<Range>, from: nat, raw: seq<Range>, open: nat, i: nat, snug: bool) {
    && Tiles(raw, from, open) && AllFit(text, widthOf, width, raw)
    && ws <= open && (open == ws || open + 1 < i) && (i <= open + 2 || widthOf(open, i - 1) <= width)
    && (snug ==> raw == closed && open == ws)
  }

  lemma CutHere(text: string, widthOf: Widths, width: real, ws: nat, closed: seq<Range>, from: nat, raw: seq<Range>, open: nat, i: nat)
    requires Cutting(text, widthOf, width, ws, closed, from, raw, open, i, false)
    requires open + 1 < i <= |text| && !IsSpace(text[i - 2])
    ensures Cutting(text, widthOf, width, ws, closed, from, raw + [Range(open, i - 1)], i - 1, i + 1, false)
  {
    PieceFits(text, widthOf, width, open, i - 1);
    CloseLine(text, widthOf, width, raw, from, Range(open, i - 1));
  }

  /** Cuts the word that opens a line; the piece left on the open line starts at `open`. */
  method CutWord(text: string, widthOf: Widths, width: real, ws: nat, trimmedEnd: nat, closed: seq<Range>, ghost from: nat)
    returns (raw: seq<Range>, open: nat)
    requires ws <= trimmedEnd <= |text| && forall i :: ws <= i < trimmedEnd ==> !IsSpace(text[i])
    requires Tiles(closed, from, ws) && AllFit(text, widthOf, width, closed)
    ensures Tiles(raw, from, open) && AllFit(text, widthOf, width, raw)
    ensures ws <= open && (open < trimmedEnd || open == ws)
    ensures trimmedEnd <= open + 1 || widthOf(open, trimmedEnd) <= width
    ensures Snug(widthOf, width, ws, trimmedEnd) ==> raw == closed && open == ws
  {
    raw, open := closed, ws;
    ghost var snug := Snug(widthOf, width, ws, trimmedEnd);
    for i := ws + 1 to trimmedEnd + 1
      // compared with true so that the verifier keeps it whole
      invariant Cutting(text, widthOf, width, ws, closed, from, raw, open, i, snug) == true
    {
      if i - 1 > open && widthOf(open, i) > width {
        assert !snug;
        CutHere(text, widthOf, width, ws, closed, from, raw, open, i);
        raw := raw + [Range(open, i - 1)];
        open := i - 1;
      }
    }
  }

  lemma PieceFits(text: string, widthOf: Widths, width: real, a: nat, b: nat)
    requires a < b <= |text| && !IsSpace(text[b - 1]) && (b <= a + 1 || widthOf(a, b) <= width)
    ensures Fits(text, widthOf, width, Range(a, b))
  {
  }

  /** A word that still fits joins the open line. */
  lemma JoinWord(text: string, words: seq<Range>, widthOf: Widths, width: real, to: nat, raw: seq<Range>, cuts: seq<nat>, w: nat)
    requires Ranges(text, words) && w < |words| && BrokenUpTo(text, words, widthOf, width, to, raw, cuts, w) && w > 0
    requires LineFits(text, words, widthOf, width, cuts[|raw|], w + 1)
    ensures BrokenUpTo(text, words, widthOf, width, to, raw, cuts, w + 1)
  {
  }

  /** A word that does not fit closes the open line and opens the next. */
  lemma BreakBefore(text: string, words: seq<Range>, widthOf: Widths, width: real, to: nat, raw: seq<Range>, cuts: seq<nat>, w: nat)
    requires Ranges(text, words) && w < |words| && BrokenUpTo(text, words, widthOf, width, to, raw, cuts, w) && w > 0
    requires !LineFits(text, words, widthOf, width, cuts[|raw|], w + 1) && LineFits(text, words, widthOf, width, w, w + 1)
    ensures BrokenUpTo(text, words, widthOf, width, to, raw + [Range(words[cuts[|raw|]].start, words[w].start)], cuts + [w], w + 1)
  {
    var now, next := raw + [Range(words[cuts[|raw|]].start, words[w].start)], cuts + [w];
    assert next[|raw|] == cuts[|raw|] && next[|raw| + 1] == w;
    forall k | 0 <= k < |now|
      ensures LineFits(text, words, widthOf, width, next[k], next[k + 1]) && !LineFits(text, words, widthOf, width, next[k], next[k + 1] + 1)
      ensures now[k] == Range(StartOf(words, to, next[k]), StartOf(words, to, next[k + 1]))
    {
      if k < |raw| {
        assert next[k] == cuts[k] && next[k + 1] == cuts[k + 1];
        assert LineFits(text, words, widthOf, width, cuts[k], cuts[k + 1]);
      }
    }
  }

  lemma FinishBreaks(text: string, words: seq<Range>, widthOf: Widths, width: real, to: nat, raw: seq<Range>, cuts: seq<nat>)
    requires Ranges(text, words) && BrokenUpTo(text, words, widthOf, width, to, raw, cuts, |words|) && words != []
    ensures Breaks(text, words, widthOf, width, cuts + [|words|]) && Greedy(text, words, widthOf, width, cuts + [|words|])
  {
    var all := cuts + [|words|];
    forall k | 0 <= k < |all| - 1 ensures LineFits(text, words, widthOf, width, all[k], all[k + 1]) {
      if k < |raw| { assert all[k] == cuts[k] && all[k + 1] == cuts[k + 1]; }
    }
    forall k | 0 <= k < |all| - 2 ensures !LineFits(text, words, widthOf, width, all[k], all[k + 1] + 1) {
      assert all[k] == cuts[k] && all[k + 1] == cuts[k + 1];
    }
  }

  lemma KeepsFirst(text: string, r: Range)
    requires r.start < r.end <= |text| && !IsSpace(text[r.start])
    ensures TrimEnd(text, r.start, r.end) > r.start
  {
  }

  lemma {:induction false} TrimmedKeepsAll(text: string, raw: seq<Range>)
    requires forall k :: 0 <= k < |raw| ==> raw[k].start < raw[k].end <= |text| && !IsSpace(text[raw[k].start])
    ensures |Trimmed(text, raw)| == |raw|
    ensures forall k :: 0 <= k < |raw| ==> Trimmed(text, raw)[k] == Range(raw[k].start, TrimEnd(text, raw[k].start, raw[k].end))
  {
    if raw != [] {
      var init, last := raw[..|raw| - 1], raw[|raw| - 1];
      TrimmedKeepsAll(text, init);
      KeepsFirst(text, last);
      TrimmedOneMore(text, init, last);
      assert raw == init + [last];
    }
  }

  lemma TrimmedOneMore(text: string, init: seq<Range>, last: Range)
    requires forall k :: 0 <= k < |init| ==> init[k].start < init[k].end <= |text|
    requires last.start < last.end <= |text| && last.start < TrimEnd(text, last.start, last.end)
    ensures Trimmed(text, init + [last]) == Trimmed(text, init) + [Range(last.start, TrimEnd(text, last.start, last.end))]
  {
    assert (init + [last])[..|init|] == init;
  }

  /** The open line, which ends with word `w - 1`, and the closed ones before it. */
  ghost predicate Loop(text: string, words: seq<Range>, widthOf: Widths, width: real, from: nat, to: nat,
    raw: seq<Range>, lineStart: nat, lineEnd: nat, w: nat)
  {
    && Tiles(raw, from, lineStart) && AllFit(text, widthOf, width, raw)
    && w <= |words| && lineEnd == StartOf(words, to, w) && lineEnd <= |text|
    && (w == 0 <==> lineStart == lineEnd) && lineStart <= lineEnd && Fits(text, widthOf, width, Range(lineStart, lineEnd))
  }

  lemma LoopJoins(text: string, words: seq<Range>, widthOf: Widths, width: real, from: nat, to: nat, raw: seq<Range>, lineStart: nat, w: nat)
    requires w < |words| && Loop(text, words, widthOf, width, from, to, raw, lineStart, words[w].start, w) && w > 0
    requires WordShape(text, words[w], false) && words[w].end == StartOf(words, to, w + 1)
    requires widthOf(lineStart, TrimEnd(text, words[w].start, words[w].end)) <= width
    ensures Loop(text, words, widthOf, width, from, to, raw, lineStart, words[w].end, w + 1)
  {
    TrimEndIs(text, lineStart, TrimEnd(text, words[w].start, words[w].end), words[w].end);
  }

  lemma LoopOpens(text: string, words: seq<Range>, widthOf: Widths, width: real, from: nat, to: nat, raw: seq<Range>, open: nat, w: nat)
    requires w < |words| && words[w].end == StartOf(words, to, w + 1) && WordShape(text, words[w], w == 0)
    requires Tiles(raw, from, open) && AllFit(text, widthOf, width, raw) && words[w].start <= open
    requires var t := TrimEnd(text, words[w].start, words[w].end);
      (open < t || open == words[w].start) && (t <= open + 1 || widthOf(open, t) <= width)
    ensures Loop(text, words, widthOf, width, from, to, raw, open, words[w].end, w + 1)
  {
    var t := TrimEnd(text, words[w].start, words[w].end);
    if open < t { TrimEndIs(text, open, t, words[w].end); }
  }

  /** The breaks of a plain text, while the loop goes over its words. */
  ghost predicate PlainLoop(text: string, words: seq<Range>, widthOf: Widths, width: real, to: nat,
    raw: seq<Range>, cuts: seq<nat>, lineStart: nat, w: nat)
  {
    && Ranges(text, words) && Monotone(widthOf)
    && (forall v :: 0 <= v < |words| ==> WordFits(text, words[v], widthOf, width))
    && BrokenUpTo(text, words, widthOf, width, to, raw, cuts, w)
    && lineStart == StartOf(words, to, cuts[|raw|])
  }

  lemma PlainJoins(text: string, words: seq<Range>, widthOf: Widths, width: real, to: nat, raw: seq<Range>, cuts: seq<nat>, lineStart: nat, w: nat)
    requires PlainLoop(text, words, widthOf, width, to, raw, cuts, lineStart, w) && 0 < w < |words|
    requires widthOf(lineStart, TrimEnd(text, words[w].start, words[w].end)) <= width
    ensures PlainLoop(text, words, widthOf, width, to, raw, cuts, lineStart, w + 1)
  {
    JoinWord(text, words, widthOf, width, to, raw, cuts, w);
  }

  lemma PlainBreaks(text: string, words: seq<Range>, widthOf: Widths, width: real, to: nat, raw: seq<Range>, cuts: seq<nat>, lineStart: nat, w: nat)
    requires PlainLoop(text, words, widthOf, width, to, raw, cuts, lineStart, w) && 0 < w < |words|
    requires widthOf(lineStart, TrimEnd(text, words[w].start, words[w].end)) > width
    ensures PlainLoop(text, words, widthOf, width, to, raw + [Range(lineStart, words[w].start)], cuts + [w], words[w].start, w + 1)
  {
    assert WordFits(text, words[w], widthOf, width);
    BreakBefore(text, words, widthOf, width, to, raw, cuts, w);
  }

  /** A word that fits is not cut. */
  lemma WholeWord(text: string, word: Range, widthOf: Widths, width: real)
    requires Monotone(widthOf) && word.start <= word.end <= |text| && WordFits(text, word, widthOf, width)
    ensures Snug(widthOf, width, word.start, TrimEnd(text, word.start, word.end))
  {
  }

  predicate LineAt(text: string, line: Range, start: nat, end: nat) {
    start <= end <= |text| && line == Range(start, TrimEnd(text, start, end))
  }

  /** Line `k` holds the words from cuts[k] up to cuts[k + 1], whole. */
  ghost predicate LinesAt(text: string, words: seq<Range>, to: nat, lines: seq<Range>, cuts: seq<nat>) {
    && |lines| == |cuts| - 1
    && forall k :: 0 <= k < |lines| ==> LineAt(text, lines[k], StartOf(words, to, cuts[k]), StartOf(words, to, cuts[k + 1]))
  }

  ghost predicate Best(text: string, words: seq<Range>, widthOf: Widths, width: real, to: nat, lines: seq<Range>, cuts: seq<nat>)
    requires Ranges(text, words)
  {
    && LinesAt(text, words, to, lines, cuts)
    && Breaks(text, words, widthOf, width, cuts) && Greedy(text, words, widthOf, width, cuts)
  }

  /** All the raw lines, the one still open after the last word included. */
  function WithLast(raw: seq<Range>, lineStart: nat, to: nat): seq<Range> {
    if to > lineStart then raw + [Range(lineStart, to)] else raw
  }

  lemma LoopEnds(text: string, words: seq<Range>, widthOf: Widths, width: real, from: nat, to: nat, raw: seq<Range>, lineStart: nat)
    requires Loop(text, words, widthOf, width, from, to, raw, lineStart, to, |words|)
    ensures AllFit(text, widthOf, width, WithLast(raw, lineStart, to))
    ensures Laid(text, widthOf, width, from, to, Trimmed(text, WithLast(raw, lineStart, to)))
  {
    if to > lineStart { CloseLine(text, widthOf, width, raw, from, Range(lineStart, to)); }
    TrimmedIsLaid(text, widthOf, width, from, to, WithLast(raw, lineStart, to));
  }

  lemma PlainLine(text: string, words: seq<Range>, widthOf: Widths, width: real, to: nat, raw: seq<Range>, cuts: seq<nat>, lineStart: nat, k: nat)
    requires PlainLoop(text, words, widthOf, width, to, raw, cuts, lineStart, |words|) && words != []
    requires k <= |raw|
    ensures var all, ends := raw + [Range(lineStart, to)], cuts + [|words|];
      && all[k] == Range(StartOf(words, to, ends[k]), StartOf(words, to, ends[k + 1]))
      && ends[k] < |words|
  {
    if k < |raw| {
      assert LineFits(text, words, widthOf, width, cuts[k], cuts[k + 1]);
    }
  }

  lemma PlainEnds(text: string, words: seq<Range>, widthOf: Widths, width: real, from: nat, to: nat, raw: seq<Range>, cuts: seq<nat>, lineStart: nat)
    requires PlainLoop(text, words, widthOf, width, to, raw, cuts, lineStart, |words|) && words != []
    requires AllFit(text, widthOf, width, raw + [Range(lineStart, to)])
    ensures Best(text, words, widthOf, width, to, Trimmed(text, raw + [Range(lineStart, to)]), cuts + [|words|])
  {
    var all, ends := raw + [Range(lineStart, to)], cuts + [|words|];
    FinishBreaks(text, words, widthOf, width, to, raw, cuts);
    forall k | 0 <= k < |all|
      ensures all[k] == Range(StartOf(words, to, ends[k]), StartOf(words, to, ends[k + 1])) && !IsSpace(text[all[k].start])
    {
      PlainLine(text, words, widthOf, width, to, raw, cuts, lineStart, k);
    }
    TrimmedKeepsAll(text, all);
    forall k | 0 <= k < |all| ensures LineAt(text, Trimmed(text, all)[k], StartOf(words, to, ends[k]), StartOf(words, to, ends[k + 1])) {
      assert all[k].start < all[k].end <= |text|;
    }
  }

  /** The loop over the words, before word `w`. */
  ghost predicate Standing(text: string, widthOf: Widths, width: real, from: nat, to: nat,
    raw: seq<Range>, lineStart: nat, lineEnd: nat, cuts: seq<nat>, w: nat)
    requires from <= to <= |text|
  {
    var words := Words(text, from, to);
    && Loop(text, words, widthOf, width, from, to, raw, lineStart, lineEnd, w)
    && (Plain(text, from, to, widthOf, width) ==> PlainLoop(text, words, widthOf, width, to, raw, cuts, lineStart, w))
  }

  lemma Starts(text: string, widthOf: Widths, width: real, from: nat, to: nat)
    requires from <= to <= |text|
    ensures Standing(text, widthOf, width, from, to, [], from, from, [0], 0)
  {
  }

  /** One turn of the loop over the words. */
  method PlaceWord(text: string, words: seq<Range>, widthOf: Widths, width: real, ghost from: nat, ghost to: nat, w: nat,
    closed: seq<Range>, open: nat, lineEnd: nat, ghost cutsBefore: seq<nat>)
    returns (raw: seq<Range>, lineStart: nat, ghost cuts: seq<nat>)
    requires from <= to <= |text| && words == Words(text, from, to) && w < |words|
    // compared with true so that the verifier keeps it whole
    requires Standing(text, widthOf, width, from, to, closed, open, lineEnd, cutsBefore, w) == true
    ensures words[w].end <= |text| && Standing(text, widthOf, width, from, to, raw, lineStart, words[w].end, cuts, w + 1)
  {
    WordAt(text, from, to, w);
    ghost var plain := Plain(text, from, to, widthOf, width);
    var ws, we := words[w].start, words[w].end;
    var trimmedEnd := TrimEnd(text, ws, we);
    raw, lineStart, cuts := closed, open, cutsBefore;
    if lineEnd > lineStart && widthOf(lineStart, trimmedEnd) <= width {
      LoopJoins(text, words, widthOf, width, from, to, raw, lineStart, w);
      if plain { PlainJoins(text, words, widthOf, width, to, raw, cuts, lineStart, w); }
      return;
    }
    if lineEnd > lineStart {
      CloseLine(text, widthOf, width, raw, from, Range(lineStart, lineEnd));
      raw := raw + [Range(lineStart, lineEnd)];
    }
    if plain {
      WholeWord(text, words[w], widthOf, width);
      if w > 0 {
        PlainBreaks(text, words, widthOf, width, to, closed, cuts, open, w);
        cuts := cuts + [w];
      }
    }
    raw, lineStart := CutWord(text, widthOf, width, ws, trimmedEnd, raw, from);
    LoopOpens(text, words, widthOf, width, from, to, raw, lineStart, w);
  }

  /** The loop over the words. */
  method PlaceWords(text: string, words: seq<Range>, widthOf: Widths, width: real, from: nat, ghost to: nat)
    returns (raw: seq<Range>, lineStart: nat, lineEnd: nat, ghost cuts: seq<nat>)
    requires from <= to <= |text| && words == Words(text, from, to)
    ensures Standing(text, widthOf, width, from, to, raw, lineStart, lineEnd, cuts, |words|) == true
  {
    raw, lineStart, lineEnd, cuts := [], from, from, [0];
    Starts(text, widthOf, width, from, to);
    for w := 0 to |words|
      // compared with true so that the verifier keeps it whole
      invariant Standing(text, widthOf, width, from, to, raw, lineStart, lineEnd, cuts, w) == true
    {
      raw, lineStart, cuts := PlaceWord(text, words, widthOf, width, from, to, w, raw, lineStart, lineEnd, cuts);
      lineEnd := words[w].end;
    }
  }

  /** Closes the open line, trims every line and drops those left empty. */
  method LastLine(text: string, ghost words: seq<Range>, widthOf: Widths, width: real, ghost from: nat, to: nat,
    closed: seq<Range>, lineStart: nat, lineEnd: nat, ghost cutsBefore: seq<nat>)
    returns (lines: seq<Range>, ghost cuts: seq<nat>)
    requires from <= to <= |text| && words == Words(text, from, to)
    requires Standing(text, widthOf, width, from, to, closed, lineStart, lineEnd, cutsBefore, |words|)
    ensures Laid(text, widthOf, width, from, to, lines)
    ensures Plain(text, from, to, widthOf, width) ==>
      Best(text, words, widthOf, width, to, lines, cuts) && NoneFewer(text, words, widthOf, width, |lines|)
  {
    ghost var plain := Plain(text, from, to, widthOf, width);
    LoopEnds(text, words, widthOf, width, from, to, closed, lineStart);
    cuts := cutsBefore;
    if plain && words != [] {
      PlainEnds(text, words, widthOf, width, from, to, closed, cuts, lineStart);
      cuts := cuts + [|words|];
    }
    lines := Trimmed(text, if lineEnd > lineStart then closed + [Range(lineStart, lineEnd)] else closed);
    if plain { BestIsFewest(text, words, widthOf, width, to, lines, cuts); }
  }

  /**
   * The lines put on the page. For a plain text they hold whole words, and no
   * way of breaking it between words needs fewer lines.
   */
  method WrapLines(text: string, from: nat, to: nat, widthOf: Widths, width: real) returns (lines: seq<Range>, ghost cuts: seq<nat>)
    requires from <= to <= |text|
    ensures Laid(text, widthOf, width, from, to, lines)
    ensures Plain(text, from, to, widthOf, width) ==>
      && Best(text, Words(text, from, to), widthOf, width, to, lines, cuts)
      && NoneFewer(text, Words(text, from, to), widthOf, width, |lines|)
  {
    var words := Words(text, from, to);
    var raw, lineStart, lineEnd, placed := PlaceWords(text, words, widthOf, width, from, to);
    lines, cuts := LastLine(text, words, widthOf, width, from, to, raw, lineStart, lineEnd, placed);
  }

  lemma BestIsFewest(text: string, words: seq<Range>, widthOf: Widths, width: real, to: nat, lines: seq<Range>, cuts: seq<nat>)
    requires Ranges(text, words) && Monotone(widthOf) && Best(text, words, widthOf, width, to, lines, cuts)
    ensures NoneFewer(text, words, widthOf, width, |lines|)
  {
    forall other | Breaks(text, words, widthOf, width, other) ensures |lines| <= |other| - 1 {
      GreedyIsOptimal(text, words, widthOf, width, cuts, other);
    }
  }
}
