/**
 * Visual order of mixed-direction text (`logicalRuns`, `visualOrder`,
 * `glyphString`, src/core/pdf/bidiText.js), against rule L2 of Unicode Standard
 * Annex #9, section 3.4. A character stands for a UTF-16 code unit, and levels
 * come from outside.
 */
module BidiOrder {
  import opened Common

  /** Something with an embedding level: a character, or a run of them. */
  datatype Leveled<A> = Leveled(level: nat, item: A)

  datatype RunText = RunText(text: string, arabic: bool, start: nat)

  type Run = Leveled<RunText>

  type Glyph = Leveled<char>

  function Reverse<A>(s: seq<A>): seq<A> {
    if s == [] then [] else Reverse(s[1..]) + [s[0]]
  }

  lemma {:induction false} ReverseAppend<A>(a: seq<A>, b: seq<A>)
    ensures Reverse(a + b) == Reverse(b) + Reverse(a)
  {
    if a == [] {
      assert [] + b == b;
      assert Reverse(b) + [] == Reverse(b);
    } else {
      assert (a + b)[1..] == a[1..] + b;
      ReverseAppend(a[1..], b);
    }
  }

  lemma {:induction false} ReverseTwice<A>(s: seq<A>)
    ensures Reverse(Reverse(s)) == s && |Reverse(s)| == |s|
  {
    if s != [] {
      ReverseTwice(s[1..]);
      ReverseAppend(Reverse(s[1..]), [s[0]]);
      assert Reverse([s[0]]) == [s[0]];
    }
  }

  function Levels<A>(s: seq<Leveled<A>>): set<nat> {
    if s == [] then {} else {s[0].level} + Levels(s[1..])
  }

  lemma {:induction false} LevelsAppend<A>(a: seq<Leveled<A>>, b: seq<Leveled<A>>)
    ensures Levels(a + b) == Levels(a) + Levels(b)
  {
    if a == [] {
      assert a + b == b;
    } else {
      assert (a + b)[1..] == a[1..] + b;
      LevelsAppend(a[1..], b);
    }
  }

  lemma {:induction false} ReverseKeepsLevels<A>(s: seq<Leveled<A>>)
    ensures Levels(Reverse(s)) == Levels(s)
  {
    if s != [] {
      ReverseKeepsLevels(s[1..]);
      LevelsAppend(Reverse(s[1..]), [s[0]]);
    }
  }

  // --------------------------------------------------- reversing stretches

  ghost predicate AllAtLeast<A>(s: seq<Leveled<A>>, lvl: int)
    ensures AllAtLeast(s, lvl) <==> forall l :: l in Levels(s) ==> l >= lvl
  {
    assert s != [] ==> s[0].level in Levels(s) && Levels(s) == {s[0].level} + Levels(s[1..]);
    s == [] || (s[0].level >= lvl && AllAtLeast(s[1..], lvl))
  }

  ghost predicate AllBelow<A>(s: seq<Leveled<A>>, lvl: int)
    ensures AllBelow(s, lvl) <==> forall l :: l in Levels(s) ==> l < lvl
  {
    assert s != [] ==> s[0].level in Levels(s) && Levels(s) == {s[0].level} + Levels(s[1..]);
    s == [] || (s[0].level < lvl && AllBelow(s[1..], lvl))
  }

  /** How far the stretch at the start of `s` reaches. */
  function StretchLength<A>(s: seq<Leveled<A>>, lvl: int): (n: nat)
    ensures n <= |s| && AllAtLeast(s[..n], lvl) && (n < |s| ==> s[n].level < lvl)
  {
    if s == [] || s[0].level < lvl then 0
    else
      var n := 1 + StretchLength(s[1..], lvl);
      assert s[..n][1..] == s[1..][..n - 1];
      n
  }

  /** Every maximal stretch at `lvl` or above, reversed. */
  function ReverseStretches<A>(s: seq<Leveled<A>>, lvl: int): seq<Leveled<A>>
    decreases |s|
  {
    if s == [] then []
    else if s[0].level < lvl then [s[0]] + ReverseStretches(s[1..], lvl)
    else
      var n := StretchLength(s, lvl);
      Reverse(s[..n]) + ReverseStretches(s[n..], lvl)
  }

  /** From level `hi` down to level `lo`, each included. */
  function Descend<A>(s: seq<Leveled<A>>, hi: int, lo: int): seq<Leveled<A>>
    decreases hi - lo + 1
  {
    if hi < lo then s else Descend(ReverseStretches(s, hi), hi - 1, lo)
  }

  lemma {:induction false} LowPrefix<A>(p: seq<Leveled<A>>, t: seq<Leveled<A>>, lvl: int)
    requires AllBelow(p, lvl)
    ensures ReverseStretches(p + t, lvl) == p + ReverseStretches(t, lvl)
  {
    if p == [] {
      assert p + t == t;
    } else {
      assert (p + t)[1..] == p[1..] + t;
      LowPrefix(p[1..], t, lvl);
      assert p == [p[0]] + p[1..];
    }
  }

  lemma {:induction false} StretchOf<A>(p: seq<Leveled<A>>, t: seq<Leveled<A>>, lvl: int)
    requires AllAtLeast(p, lvl) && (t != [] ==> t[0].level < lvl)
    ensures StretchLength(p + t, lvl) == |p|
  {
    if p == [] {
      assert p + t == t;
    } else {
      assert (p + t)[1..] == p[1..] + t;
      StretchOf(p[1..], t, lvl);
    }
  }

  lemma HighPrefix<A>(p: seq<Leveled<A>>, t: seq<Leveled<A>>, lvl: int)
    requires AllAtLeast(p, lvl) && (t != [] ==> t[0].level < lvl)
    ensures ReverseStretches(p + t, lvl) == Reverse(p) + ReverseStretches(t, lvl)
  {
    StretchOf(p, t, lvl);
    if p == [] {
      assert p + t == t;
    } else {
      assert (p + t)[..|p|] == p && (p + t)[|p|..] == t;
    }
  }

  /** `s` taken apart at the end of its first stretch, or of its first low element. */
  lemma {:induction false} StretchesAreInvolutive<A>(s: seq<Leveled<A>>, lvl: int)
    ensures ReverseStretches(ReverseStretches(s, lvl), lvl) == s
    ensures s != [] && s[0].level < lvl ==> ReverseStretches(s, lvl) != [] && ReverseStretches(s, lvl)[0] == s[0]
    decreases |s|
  {
    if s != [] {
      if s[0].level < lvl {
        StretchesAreInvolutive(s[1..], lvl);
        assert AllBelow([s[0]], lvl);
        LowPrefix([s[0]], ReverseStretches(s[1..], lvl), lvl);
      } else {
        var n := StretchLength(s, lvl);
        assert s == s[..n] + s[n..];
        StretchesAreInvolutive(s[n..], lvl);
        ReverseKeepsLevels(s[..n]);
        ReverseTwice(s[..n]);
        HighPrefix(Reverse(s[..n]), ReverseStretches(s[n..], lvl), lvl);
      }
    }
  }

  lemma {:induction false} StretchesKeepLevels<A>(s: seq<Leveled<A>>, lvl: int)
    ensures Levels(ReverseStretches(s, lvl)) == Levels(s)
    decreases |s|
  {
    if s != [] {
      if s[0].level < lvl {
        StretchesKeepLevels(s[1..], lvl);
      } else {
        var n := StretchLength(s, lvl);
        assert s == s[..n] + s[n..];
        StretchesKeepLevels(s[n..], lvl);
        ReverseKeepsLevels(s[..n]);
        LevelsAppend(s[..n], s[n..]);
        LevelsAppend(Reverse(s[..n]), ReverseStretches(s[n..], lvl));
      }
    }
  }

  /** With nothing at level `lvl` itself, the stretches at `lvl` and at the next level are the same. */
  lemma {:induction false} SkippedLevel<A>(s: seq<Leveled<A>>, lvl: int)
    requires lvl !in Levels(s)
    ensures ReverseStretches(s, lvl) == ReverseStretches(s, lvl + 1)
    decreases |s|
  {
    if s != [] {
      if s[0].level < lvl {
        SkippedLevel(s[1..], lvl);
      } else {
        var n := StretchLength(s, lvl);
        assert s == s[..n] + s[n..];
        LevelsAppend(s[..n], s[n..]);
        SkippedLevel(s[n..], lvl);
        NoneAtLevel(s[..n], lvl);
        HighPrefix(s[..n], s[n..], lvl + 1);
      }
    }
  }

  lemma NoneAtLevel<A>(s: seq<Leveled<A>>, lvl: int)
    requires AllAtLeast(s, lvl) && lvl !in Levels(s)
    ensures AllAtLeast(s, lvl + 1)
  {
  }

  // -------------------------------------------------------------- rule L2

  function MaxLevel<A>(s: seq<Leveled<A>>): (m: nat)
    requires s != []
    ensures m in Levels(s) && AllBelow(s, m + 1)
  {
    if |s| == 1 then s[0].level else Max(s[0].level, MaxLevel(s[1..]))
  }

  /** An odd level counts as itself, an even one as the next odd one. */
  function OddAbove(level: nat): nat { if level % 2 == 1 then level else level + 1 }

  function MinOdd<A>(s: seq<Leveled<A>>): (m: nat)
    requires s != []
    ensures m % 2 == 1 && (m in Levels(s) || m - 1 in Levels(s)) && forall l :: l in Levels(s) ==> m <= OddAbove(l)
  {
    if |s| == 1 then OddAbove(s[0].level) else Min(OddAbove(s[0].level), MinOdd(s[1..]))
  }

  function LowestOdd<A>(s: seq<Leveled<A>>): (m: Option<nat>)
    ensures m.Some? ==> m.value in Levels(s) && m.value % 2 == 1
    ensures forall l :: l in Levels(s) && l % 2 == 1 ==> m.Some? && m.value <= l
  {
    if s == [] then None
    else
      var rest := LowestOdd(s[1..]);
      if s[0].level % 2 == 1 && (rest.None? || s[0].level < rest.value) then Some(s[0].level) else rest
  }

  /** Rule L2: from the highest level down to the lowest odd level present, reverse every stretch at that level or above. */
  function L2<A>(s: seq<Leveled<A>>): seq<Leveled<A>> {
    match LowestOdd(s)
    case None => s
    case Some(m) => Descend(s, MaxLevel(s), m)
  }

  lemma {:induction false} DescendSplit<A>(s: seq<Leveled<A>>, hi: int, mid: int, lo: int)
    requires lo - 1 <= mid <= hi
    ensures Descend(s, hi, lo) == Descend(Descend(s, hi, mid + 1), mid, lo)
    decreases hi - mid
  {
    if mid < hi {
      DescendSplit(ReverseStretches(s, hi), hi - 1, mid, lo);
    }
  }

  lemma {:induction false} DescendKeepsLevels<A>(s: seq<Leveled<A>>, hi: int, lo: int)
    ensures Levels(Descend(s, hi, lo)) == Levels(s)
    decreases hi - lo + 1
  {
    if lo <= hi {
      StretchesKeepLevels(s, hi);
      DescendKeepsLevels(ReverseStretches(s, hi), hi - 1, lo);
    }
  }

  ghost predicate NoOddUpTo<A>(s: seq<Leveled<A>>, hi: int) {
    forall l :: l in Levels(s) && l % 2 == 1 ==> hi < l
  }

  lemma PairCancels<A>(s: seq<Leveled<A>>, lvl: int)
    requires lvl - 1 !in Levels(s)
    ensures ReverseStretches(ReverseStretches(s, lvl), lvl - 1) == s
  {
    StretchesKeepLevels(s, lvl);
    SkippedLevel(ReverseStretches(s, lvl), lvl - 1);
    StretchesAreInvolutive(s, lvl);
  }

  lemma TwoPassesCancel<A>(s: seq<Leveled<A>>, hi: int, lo: int)
    requires lo < hi && hi - 1 !in Levels(s)
    ensures Descend(s, hi, lo) == Descend(s, hi - 2, lo)
  {
    PairCancels(s, hi);
    var t := ReverseStretches(s, hi);
    assert Descend(s, hi, lo) == Descend(t, hi - 1, lo);
    assert Descend(t, hi - 1, lo) == Descend(ReverseStretches(t, hi - 1), hi - 2, lo);
  }

  /** Below the lowest odd level present the passes come in pairs that undo each other. */
  lemma {:induction false} ExtraLevelsCancel<A>(s: seq<Leveled<A>>, hi: int, lo: int)
    requires hi % 2 == 0 && lo % 2 == 1 && lo <= hi + 1 && NoOddUpTo(s, hi)
    ensures Descend(s, hi, lo) == s
    decreases hi - lo + 1
  {
    if lo < hi {
      TwoPassesCancel(s, hi, lo);
      ExtraLevelsCancel(s, hi - 2, lo);
    }
  }

  lemma MinOddIsLow<A>(s: seq<Leveled<A>>)
    requires s != []
    ensures match LowestOdd(s)
      case None => NoOddUpTo(s, MaxLevel(s)) && MaxLevel(s) % 2 == 0 && MinOdd(s) <= MaxLevel(s) + 1
      case Some(m) => MinOdd(s) <= m <= MaxLevel(s) && NoOddUpTo(s, m - 1)
  {
  }

  /** Going down to `MinOdd`, which may be below the lowest odd level present, gives what rule L2 gives. */
  lemma DescendToMinOddIsL2<A>(s: seq<Leveled<A>>)
    requires s != []
    ensures Descend(s, MaxLevel(s), MinOdd(s)) == L2(s)
  {
    MinOddIsLow(s);
    match LowestOdd(s)
    case None => ExtraLevelsCancel(s, MaxLevel(s), MinOdd(s));
    case Some(m) => CutAtLowestOdd(s, MaxLevel(s), m, MinOdd(s));
  }

  lemma CutAtLowestOdd<A>(s: seq<Leveled<A>>, hi: int, m: int, lo: int)
    requires lo <= m <= hi && lo % 2 == 1 && m % 2 == 1 && NoOddUpTo(s, m - 1)
    ensures Descend(s, hi, lo) == Descend(s, hi, m)
  {
    DescendSplit(s, hi, m - 1, lo);
    DescendKeepsLevels(s, hi, m);
    ExtraLevelsCancel(Descend(s, hi, m), m - 1, lo);
  }

  // ------------------------------------------------- runs and characters

  function Glyphs(level: nat, text: string): seq<Glyph> {
    seq(|text|, i requires 0 <= i < |text| => Leveled(level, text[i]))
  }

  /** The characters of the runs, in the order the runs are in. */
  function Flatten(runs: seq<Run>): seq<Glyph> {
    if runs == [] then [] else Glyphs(runs[0].level, runs[0].item.text) + Flatten(runs[1..])
  }

  /** What the reader sees, left to right: a run of odd level reads right to left. */
  function Shown(runs: seq<Run>): seq<Glyph> {
    if runs == [] then []
    else
      var r := runs[0];
      Glyphs(r.level, if r.level % 2 == 1 then Reverse(r.item.text) else r.item.text) + Shown(runs[1..])
  }

  function FlipRun(r: Run): Run { r.(item := r.item.(text := Reverse(r.item.text))) }

  /** Each run turned round once for every level from its own down to `lvl`. */
  function Turned(r: Run, lvl: int): Run {
    if r.level >= lvl && (r.level - lvl) % 2 == 0 then FlipRun(r) else r
  }

  function TurnAll(runs: seq<Run>, lvl: int): seq<Run> {
    if runs == [] then [] else [Turned(runs[0], lvl)] + TurnAll(runs[1..], lvl)
  }

  /** Each run at `lvl` or above turned round. */
  function FlipFrom(runs: seq<Run>, lvl: int): seq<Run> {
    if runs == [] then [] else [if runs[0].level >= lvl then FlipRun(runs[0]) else runs[0]] + FlipFrom(runs[1..], lvl)
  }

  ghost predicate NonEmpty(runs: seq<Run>) {
    forall i :: 0 <= i < |runs| ==> runs[i].item.text != ""
  }

  lemma {:induction false} FlattenAppend(a: seq<Run>, b: seq<Run>)
    ensures Flatten(a + b) == Flatten(a) + Flatten(b)
  {
    if a == [] {
      assert a + b == b;
    } else {
      assert (a + b)[1..] == a[1..] + b;
      FlattenAppend(a[1..], b);
    }
  }

  lemma {:induction false} GlyphsReverse(level: nat, text: string)
    ensures Reverse(Glyphs(level, text)) == Glyphs(level, Reverse(text))
  {
    ReverseTwice(text);
    if text != "" {
      GlyphsReverse(level, text[1..]);
      assert Glyphs(level, text)[1..] == Glyphs(level, text[1..]);
      assert Glyphs(level, Reverse(text)) == Glyphs(level, Reverse(text[1..])) + [Leveled(level, text[0])] by {
        ReverseTwice(text[1..]);
      }
    }
  }

  /** Reversing the characters of a stretch of runs reverses the runs and turns each round. */
  lemma {:induction false} FlattenReverse(runs: seq<Run>, lvl: int)
    requires AllAtLeast(runs, lvl)
    ensures Reverse(Flatten(runs)) == Flatten(Reverse(FlipFrom(runs, lvl)))
  {
    if runs != [] {
      var r := runs[0];
      FlattenReverse(runs[1..], lvl);
      ReverseAppend(Glyphs(r.level, r.item.text), Flatten(runs[1..]));
      GlyphsReverse(r.level, r.item.text);
      assert FlipFrom(runs, lvl)[1..] == FlipFrom(runs[1..], lvl);
      FlattenAppend(Reverse(FlipFrom(runs[1..], lvl)), [FlipRun(r)]);
      assert Flatten([FlipRun(r)]) == Glyphs(r.level, Reverse(r.item.text));
    }
  }

  lemma {:induction false} FlipFromAppend(a: seq<Run>, b: seq<Run>, lvl: int)
    ensures FlipFrom(a + b, lvl) == FlipFrom(a, lvl) + FlipFrom(b, lvl) && |FlipFrom(a, lvl)| == |a|
    ensures Levels(FlipFrom(a, lvl)) == Levels(a)
    ensures b != [] ==> FlipFrom(b, lvl) != [] && FlipFrom(b, lvl)[0].level == b[0].level
  {
    if a == [] {
      assert a + b == b;
    } else {
      assert (a + b)[1..] == a[1..] + b;
      FlipFromAppend(a[1..], b, lvl);
    }
  }

  lemma {:induction false} GlyphsLevels(level: nat, text: string)
    ensures Levels(Glyphs(level, text)) == if text == "" then {} else {level}
  {
    if text != "" {
      GlyphsLevels(level, text[1..]);
      assert Glyphs(level, text)[1..] == Glyphs(level, text[1..]);
    }
  }

  lemma {:induction false} FlattenLevels(runs: seq<Run>)
    requires NonEmpty(runs)
    ensures Levels(Flatten(runs)) == Levels(runs)
    ensures runs != [] ==> Flatten(runs) != [] && Flatten(runs)[0].level == runs[0].level
  {
    if runs != [] {
      FlattenLevels(runs[1..]);
      GlyphsLevels(runs[0].level, runs[0].item.text);
      LevelsAppend(Glyphs(runs[0].level, runs[0].item.text), Flatten(runs[1..]));
    }
  }

  /** One level at run granularity is the same level at character granularity. */
  lemma {:induction false} StretchesRefine(runs: seq<Run>, lvl: int)
    requires NonEmpty(runs)
    ensures ReverseStretches(Flatten(runs), lvl) == Flatten(ReverseStretches(FlipFrom(runs, lvl), lvl))
    decreases |runs|
  {
    if runs == [] {
    } else if runs[0].level < lvl {
      var r := runs[0];
      StretchesRefine(runs[1..], lvl);
      GlyphsLevels(r.level, r.item.text);
      LowPrefix(Glyphs(r.level, r.item.text), Flatten(runs[1..]), lvl);
      assert FlipFrom(runs, lvl) == [r] + FlipFrom(runs[1..], lvl);
      var rest := ReverseStretches(FlipFrom(runs[1..], lvl), lvl);
      assert ([r] + rest)[1..] == rest;
    } else {
      var n := StretchLength(runs, lvl);
      var p, t := runs[..n], runs[n..];
      assert runs == p + t;
      StretchesRefine(t, lvl);
      FlattenAppend(p, t);
      FlattenLevels(p);
      FlattenLevels(t);
      HighPrefix(Flatten(p), Flatten(t), lvl);
      FlattenReverse(p, lvl);
      FlipFromAppend(p, t, lvl);
      HighPrefix(FlipFrom(p, lvl), FlipFrom(t, lvl), lvl);
      FlattenAppend(Reverse(FlipFrom(p, lvl)), ReverseStretches(FlipFrom(t, lvl), lvl));
    }
  }

  lemma {:induction false} TurnAllAppend(a: seq<Run>, b: seq<Run>, k: int)
    ensures TurnAll(a + b, k) == TurnAll(a, k) + TurnAll(b, k) && |TurnAll(a, k)| == |a|
    ensures Levels(TurnAll(a, k)) == Levels(a)
    ensures b != [] ==> TurnAll(b, k) != [] && TurnAll(b, k)[0].level == b[0].level
  {
    if a == [] {
      assert a + b == b;
    } else {
      assert (a + b)[1..] == a[1..] + b;
      TurnAllAppend(a[1..], b, k);
    }
  }

  lemma {:induction false} TurnAllReverse(runs: seq<Run>, k: int)
    ensures TurnAll(Reverse(runs), k) == Reverse(TurnAll(runs, k))
  {
    if runs != [] {
      TurnAllReverse(runs[1..], k);
      TurnAllAppend(Reverse(runs[1..]), [runs[0]], k);
      assert TurnAll(runs, k)[1..] == TurnAll(runs[1..], k);
    }
  }

  /** Reversing stretches moves runs by their levels alone, so turning them round commutes with it. */
  lemma {:induction false} TurningCommutes(runs: seq<Run>, lvl: int, k: int)
    ensures ReverseStretches(TurnAll(runs, k), lvl) == TurnAll(ReverseStretches(runs, lvl), k)
    decreases |runs|
  {
    if runs == [] {
    } else if runs[0].level < lvl {
      TurningCommutes(runs[1..], lvl, k);
      assert TurnAll(runs, k)[1..] == TurnAll(runs[1..], k);
      TurnAllAppend([runs[0]], ReverseStretches(runs[1..], lvl), k);
      assert TurnAll([runs[0]], k) == [Turned(runs[0], k)];
    } else {
      var n := StretchLength(runs, lvl);
      var p, t := runs[..n], runs[n..];
      assert runs == p + t;
      TurningCommutes(t, lvl, k);
      TurnAllAppend(p, t, k);
      HighPrefix(TurnAll(p, k), TurnAll(t, k), lvl);
      TurnAllReverse(p, k);
      TurnAllAppend(Reverse(p), ReverseStretches(t, lvl), k);
    }
  }

  /** Turning round at `lvl` what was turned for the levels above it. */
  lemma {:induction false} TurnOneMore(runs: seq<Run>, lvl: int)
    ensures FlipFrom(TurnAll(runs, lvl + 1), lvl) == TurnAll(runs, lvl)
  {
    if runs != [] {
      TurnOneMore(runs[1..], lvl);
      var r := runs[0];
      ReverseTwice(r.item.text);
      assert TurnAll(runs, lvl + 1)[1..] == TurnAll(runs[1..], lvl + 1);
    }
  }

  lemma {:induction false} TurnAllNonEmpty(runs: seq<Run>, k: int)
    requires NonEmpty(runs)
    ensures NonEmpty(TurnAll(runs, k))
  {
    if runs != [] {
      ReverseTwice(runs[0].item.text);
      TurnAllNonEmpty(runs[1..], k);
    }
  }

  lemma {:induction false} ReverseKeepsNonEmpty(runs: seq<Run>)
    requires NonEmpty(runs)
    ensures NonEmpty(Reverse(runs))
  {
    if runs != [] {
      ReverseKeepsNonEmpty(runs[1..]);
    }
  }

  lemma {:induction false} StretchesKeepNonEmpty(runs: seq<Run>, lvl: int)
    requires NonEmpty(runs)
    ensures NonEmpty(ReverseStretches(runs, lvl))
    decreases |runs|
  {
    if runs != [] {
      if runs[0].level < lvl {
        StretchesKeepNonEmpty(runs[1..], lvl);
      } else {
        var n := StretchLength(runs, lvl);
        ReverseKeepsNonEmpty(runs[..n]);
        StretchesKeepNonEmpty(runs[n..], lvl);
      }
    }
  }

  /** The whole descent, run by run and character by character. */
  lemma {:induction false} DescentRefines(runs: seq<Run>, hi: int, lo: int)
    requires NonEmpty(runs)
    ensures Descend(Flatten(TurnAll(runs, hi + 1)), hi, lo) == Flatten(TurnAll(Descend(runs, hi, lo), Min(lo, hi + 1)))
    decreases hi - lo + 1
  {
    if lo <= hi {
      TurnAllNonEmpty(runs, hi + 1);
      StretchesRefine(TurnAll(runs, hi + 1), hi);
      TurnOneMore(runs, hi);
      TurningCommutes(runs, hi, hi);
      StretchesKeepNonEmpty(runs, hi);
      DescentRefines(ReverseStretches(runs, hi), hi - 1, lo);
    }
  }

  lemma TurnedOnce(r: Run, lo: int)
    requires lo % 2 == 1 && lo <= OddAbove(r.level)
    ensures Turned(r, lo) == if r.level % 2 == 1 then FlipRun(r) else r
  {
  }

  lemma {:induction false} TurnedIsShown(runs: seq<Run>, lo: int)
    requires lo % 2 == 1 && forall l :: l in Levels(runs) ==> lo <= OddAbove(l)
    ensures Flatten(TurnAll(runs, lo)) == Shown(runs)
  {
    if runs != [] {
      assert runs[0].level in Levels(runs);
      TurnedOnce(runs[0], lo);
      TurnedIsShown(runs[1..], lo);
      assert TurnAll(runs, lo)[1..] == TurnAll(runs[1..], lo);
    }
  }

  lemma {:induction false} NothingToTurn(runs: seq<Run>, lvl: int)
    requires AllBelow(runs, lvl)
    ensures TurnAll(runs, lvl) == runs
  {
    if runs != [] {
      NothingToTurn(runs[1..], lvl);
    }
  }

  /** The order `visualOrder` puts the runs of a line in. */
  function Visual(runs: seq<Run>): seq<Run> {
    if runs == [] then [] else Descend(runs, MaxLevel(runs), MinOdd(runs))
  }

  lemma MaxIsOfLevels<A, B>(s: seq<Leveled<A>>, t: seq<Leveled<B>>)
    requires s != [] && t != [] && Levels(s) == Levels(t)
    ensures MaxLevel(s) == MaxLevel(t)
  {
  }

  lemma MinOddIsOfLevels<A, B>(s: seq<Leveled<A>>, t: seq<Leveled<B>>)
    requires s != [] && t != [] && Levels(s) == Levels(t)
    ensures MinOdd(s) <= MinOdd(t)
  {
    var m := MinOdd(t);
    if m in Levels(t) {
      assert MinOdd(s) <= OddAbove(m);
    } else {
      assert MinOdd(s) <= OddAbove(m - 1);
    }
  }

  lemma SameExtremes(runs: seq<Run>)
    requires runs != [] && NonEmpty(runs)
    ensures Flatten(runs) != [] && MaxLevel(Flatten(runs)) == MaxLevel(runs) && MinOdd(Flatten(runs)) == MinOdd(runs)
  {
    FlattenLevels(runs);
    MaxIsOfLevels(Flatten(runs), runs);
    MinOddIsOfLevels(Flatten(runs), runs);
    MinOddIsOfLevels(runs, Flatten(runs));
  }

  lemma ShownDescent(runs: seq<Run>, hi: int, lo: int)
    requires NonEmpty(runs) && AllBelow(runs, hi + 1)
    requires lo <= hi + 1 && lo % 2 == 1 && forall l :: l in Levels(runs) ==> lo <= OddAbove(l)
    ensures Shown(Descend(runs, hi, lo)) == Descend(Flatten(runs), hi, lo)
  {
    NothingToTurn(runs, hi + 1);
    DescentRefines(runs, hi, lo);
    DescendKeepsLevels(runs, hi, lo);
    TurnedIsShown(Descend(runs, hi, lo), lo);
  }

  /**
   * Run-level reordering refines the standard: for any runs of constant level,
   * however the line was cut into them, the runs in visual order, odd ones read
   * backwards, show the characters in exactly the order rule L2 gives.
   */
  lemma VisualOrderIsL2(runs: seq<Run>)
    requires NonEmpty(runs)
    ensures Shown(Visual(runs)) == L2(Flatten(runs))
  {
    if runs != [] {
      SameExtremes(runs);
      ShownDescent(runs, MaxLevel(runs), MinOdd(runs));
      DescendToMinOddIsL2(Flatten(runs));
    }
  }

  ghost predicate PassedUpTo(out: seq<Run>, i: nat, lvl: int, runs: seq<Run>) {
    i <= |out| && out[..i] + ReverseStretches(out[i..], lvl) == ReverseStretches(runs, lvl)
  }

  lemma PassLow(out: seq<Run>, i: nat, lvl: int, runs: seq<Run>)
    requires PassedUpTo(out, i, lvl, runs) && i < |out| && out[i].level < lvl
    ensures PassedUpTo(out, i + 1, lvl, runs)
  {
    assert out[..i] + [out[i]] == out[..i + 1];
  }

  lemma PassedIs(head: seq<Run>, tail: seq<Run>, lvl: int, runs: seq<Run>)
    ensures PassedUpTo(head + tail, |head|, lvl, runs) <==> head + ReverseStretches(tail, lvl) == ReverseStretches(runs, lvl)
  {
    assert (head + tail)[..|head|] == head && (head + tail)[|head|..] == tail;
  }

  lemma Regroup<A>(a: seq<A>, b: seq<A>, c: seq<A>)
    ensures a + b + c == a + (b + c)
  {
  }

  lemma PassStretch(head: seq<Run>, p: seq<Run>, t: seq<Run>, lvl: int, runs: seq<Run>)
    requires PassedUpTo(head + p + t, |head|, lvl, runs)
    requires AllAtLeast(p, lvl) && (t != [] ==> t[0].level < lvl)
    ensures PassedUpTo(head + Reverse(p) + t, |head| + |p|, lvl, runs)
  {
    Regroup(head, p, t);
    PassedIs(head, p + t, lvl, runs);
    HighPrefix(p, t, lvl);
    Regroup(head, Reverse(p), ReverseStretches(t, lvl));
    PassedIs(head + Reverse(p), t, lvl, runs);
    ReverseTwice(p);
  }

  /** One turn of the outer loop of `visualOrder`. */
  method ReverseAtLevel(runs: seq<Run>, lvl: int) returns (out: seq<Run>)
    ensures out == ReverseStretches(runs, lvl)
  {
    out := runs;
    var i := 0;
    assert out[0..] == out;
    while i < |out|
      invariant PassedUpTo(out, i, lvl, runs)
    {
      if out[i].level < lvl {
        PassLow(out, i, lvl, runs);
        i := i + 1;
        continue;
      }
      var j := i;
      while j < |out| && out[j].level >= lvl
        invariant i <= j <= |out|
        invariant j == i ==> out[j].level >= lvl
        invariant AllAtLeast(out[i..j], lvl)
      {
        LevelsAppend(out[i..j], [out[j]]);
        assert out[i..j + 1] == out[i..j] + [out[j]];
        j := j + 1;
      }
      assert out == out[..i] + out[i..j] + out[j..];
      PassStretch(out[..i], out[i..j], out[j..], lvl, runs);
      ReverseTwice(out[i..j]);
      out := out[..i] + Reverse(out[i..j]) + out[j..];
      i := j;
    }
  }

  method VisualOrder(runs: seq<Run>) returns (out: seq<Run>)
    ensures out == Visual(runs)
  {
    if runs == [] { return runs; }
    out := runs;
    var minOdd := MinOdd(out);
    var lvl: int := MaxLevel(out);
    while lvl >= minOdd
      invariant Descend(out, lvl, minOdd) == Visual(runs)
    {
      out := ReverseAtLevel(out, lvl);
      lvl := lvl - 1;
    }
  }

  // --------------------------------------------------------- logical runs

  predicate IsArabic(c: char) {
    '\U{600}' <= c <= '\U{6FF}' || '\U{750}' <= c <= '\U{77F}' || '\U{870}' <= c <= '\U{8FF}'
    || '\U{FB50}' <= c <= '\U{FDFF}' || '\U{FE70}' <= c <= '\U{FEFF}' || c == '\U{200C}' || c == '\U{200D}'
  }

  predicate InBlock(c: char, first: int, size: nat) { first <= c as int < first + size }

  /** The Arabic font takes the Arabic blocks of Unicode and the two joiners. */
  lemma ArabicBlocks(c: char)
    ensures IsArabic(c) <==>
      || InBlock(c, 0x600, 256) || InBlock(c, 0x750, 48)                          // Arabic, Supplement
      || InBlock(c, 0x870, 48) || InBlock(c, 0x8A0, 96)                           // Extended-B, Extended-A
      || InBlock(c, 0xFB50, 688) || InBlock(c, 0xFE70, 144)                       // Presentation Forms A and B
      || c as int in {0x200C, 0x200D}
  {
  }

  predicate IsControl(c: char) {
    c == '\U{200E}' || c == '\U{200F}' || '\U{202A}' <= c <= '\U{202E}' || '\U{2066}' <= c <= '\U{2069}'
  }

  /** The characters of text[from, to) that are drawn, with their levels. */
  function Visible(text: string, levels: seq<nat>, from: nat, to: nat): seq<Glyph>
    requires from <= to <= |text| <= |levels|
  {
    if from == to then []
    else
      Visible(text, levels, from, to - 1) + if IsControl(text[to - 1]) then [] else [Leveled(levels[to - 1], text[to - 1])]
  }

  /** The directional formatting characters of Unicode Standard Annex #9, section 2, but the Arabic letter mark. */
  const CONTROLS: set<char> := {
    '\U{200E}', '\U{200F}', '\U{202A}', '\U{202B}', '\U{202C}', '\U{202D}', '\U{202E}',
    '\U{2066}', '\U{2067}', '\U{2068}', '\U{2069}'}

  /** Controls are never drawn; every other character is, with its level, after those before it. */
  lemma {:induction false} OnlyControlsAreDropped(text: string, levels: seq<nat>, from: nat, to: nat, i: nat)
    requires from <= i < to <= |text| <= |levels|
    ensures forall k :: 0 <= k < |Visible(text, levels, from, to)| ==> Visible(text, levels, from, to)[k].item !in CONTROLS
    ensures var before := Visible(text, levels, from, i);
      if text[i] in CONTROLS then Visible(text, levels, from, i + 1) == before
      else before + [Leveled(levels[i], text[i])] <= Visible(text, levels, from, to)
    decreases (to)
  {
    if i < to - 1 {
      OnlyControlsAreDropped(text, levels, from, to - 1, i);
    } else if from < to - 1 {
      OnlyControlsAreDropped(text, levels, from, to - 1, to - 2);
    }
  }

  /** A run starts at a drawn character, with everything drawn before it in the runs before. */
  predicate StartsAt(text: string, levels: seq<nat>, from: nat, to: nat, r: Run, before: seq<Run>)
    requires from <= to <= |text| <= |levels|
  {
    var start := r.item.start;
    from <= start < to && !IsControl(text[start]) && Visible(text, levels, from, start) == Flatten(before)
  }

  predicate OneFont(r: Run) {
    forall i :: 0 <= i < |r.item.text| ==> IsArabic(r.item.text[i]) == r.item.arabic
  }

  predicate Joinable(a: Run, b: Run) { a.level == b.level && a.item.arabic == b.item.arabic }

  function Extended(r: Run, c: char): Run { r.(item := r.item.(text := r.item.text + [c])) }

  lemma GlyphsExtend(level: nat, text: string, c: char)
    ensures Glyphs(level, text + [c]) == Glyphs(level, text) + [Leveled(level, c)]
  {
  }

  lemma FlattenOne(r: Run)
    ensures Flatten([r]) == Glyphs(r.level, r.item.text)
  {
  }

  lemma FlattenExtend(init: seq<Run>, last: Run, c: char)
    ensures Flatten(init + [Extended(last, c)]) == Flatten(init + [last]) + [Leveled(last.level, c)]
  {
    FlattenAppend(init, [last]);
    FlattenAppend(init, [Extended(last, c)]);
    FlattenOne(last);
    FlattenOne(Extended(last, c));
    GlyphsExtend(last.level, last.item.text, c);
  }

  /** The runs are the drawn characters in order, cut where the level or the font changes and nowhere else. */
  ghost predicate RunsOf(text: string, levels: seq<nat>, from: nat, to: nat, runs: seq<Run>)
    requires from <= to <= |text| <= |levels|
  {
    && Flatten(runs) == Visible(text, levels, from, to) && NonEmpty(runs)
    && (forall k :: 0 <= k < |runs| ==> OneFont(runs[k]))
    && (forall k :: 0 <= k < |runs| ==> StartsAt(text, levels, from, to, runs[k], runs[..k]))
    && forall k :: 0 < k < |runs| ==> !Joinable(runs[k - 1], runs[k])
  }

  lemma ExtendLastRun(text: string, levels: seq<nat>, from: nat, i: nat, init: seq<Run>, last: Run)
    requires from <= i < |text| <= |levels| && RunsOf(text, levels, from, i, init + [last])
    requires !IsControl(text[i]) && last.level == levels[i] && last.item.arabic == IsArabic(text[i])
    ensures RunsOf(text, levels, from, i + 1, init + [Extended(last, text[i])])
  {
    var was, now := init + [last], init + [Extended(last, text[i])];
    FlattenExtend(init, last, text[i]);
    forall k | 0 <= k < |now| ensures StartsAt(text, levels, from, i + 1, now[k], now[..k]) {
      assert StartsAt(text, levels, from, i, was[k], was[..k]);
      assert now[..k] == was[..k];
    }
    forall k | 0 <= k < |now| ensures now[k].item.text != "" {
      assert was[k].item.text != "";
    }
    assert OneFont(was[|init|]);
    forall k | 0 <= k < |now| ensures OneFont(now[k]) {
      assert OneFont(was[k]);
    }
    forall k | 0 < k < |now| ensures !Joinable(now[k - 1], now[k]) {
      assert !Joinable(was[k - 1], was[k]);
    }
  }

  lemma OpenRun(text: string, levels: seq<nat>, from: nat, i: nat, runs: seq<Run>)
    requires from <= i < |text| <= |levels| && RunsOf(text, levels, from, i, runs) && !IsControl(text[i])
    requires runs != [] ==> runs[|runs| - 1].level != levels[i] || runs[|runs| - 1].item.arabic != IsArabic(text[i])
    ensures RunsOf(text, levels, from, i + 1, runs + [Leveled(levels[i], RunText([text[i]], IsArabic(text[i]), i))])
  {
    var cur := Leveled(levels[i], RunText([text[i]], IsArabic(text[i]), i));
    var now := runs + [cur];
    FlattenAppend(runs, [cur]);
    FlattenOne(cur);
    forall k | 0 <= k < |now| ensures StartsAt(text, levels, from, i + 1, now[k], now[..k]) {
      if k < |runs| {
        assert now[..k] == runs[..k] && StartsAt(text, levels, from, i, runs[k], runs[..k]);
      } else {
        assert now[..k] == runs;
      }
    }
    forall k | 0 <= k < |now| ensures OneFont(now[k]) && now[k].item.text != "" {
      assert k < |runs| ==> now[k] == runs[k] && OneFont(runs[k]);
    }
    forall k | 0 < k < |now| ensures !Joinable(now[k - 1], now[k]) {
      assert k < |runs| ==> !Joinable(runs[k - 1], runs[k]);
    }
  }

  lemma SkipControl(text: string, levels: seq<nat>, from: nat, i: nat, runs: seq<Run>)
    requires from <= i < |text| <= |levels| && RunsOf(text, levels, from, i, runs) && IsControl(text[i])
    ensures RunsOf(text, levels, from, i + 1, runs)
  {
    forall k | 0 <= k < |runs| ensures StartsAt(text, levels, from, i + 1, runs[k], runs[..k]) {
      assert StartsAt(text, levels, from, i, runs[k], runs[..k]);
    }
  }

  method LogicalRuns(text: string, levels: seq<nat>, start: nat, end: nat) returns (runs: seq<Run>)
    requires start <= end <= |text| <= |levels|
    ensures RunsOf(text, levels, start, end, runs)
  {
    runs := [];
    for i := start to end
      invariant RunsOf(text, levels, start, i, runs)
    {
      var ch := text[i];
      if IsControl(ch) {
        SkipControl(text, levels, start, i, runs);
        continue;
      }
      var arabic := IsArabic(ch);
      var level := levels[i];
      var n := |runs|;
      if n > 0 && runs[n - 1].level == level && runs[n - 1].item.arabic == arabic {
        var init, cur := runs[..n - 1], runs[n - 1];
        assert runs == init + [cur];
        ExtendLastRun(text, levels, start, i, init, cur);
        runs := init + [Extended(cur, ch)];
      } else {
        OpenRun(text, levels, start, i, runs);
        runs := runs + [Leveled(level, RunText([ch], arabic, i))];
      }
    }
  }

  // ------------------------------------------------------ drawing a line

  function Mirrored(text: string, mirror: char -> char): string {
    seq(|text|, i requires 0 <= i < |text| => mirror(text[i]))
  }

  /** The string handed to the font for a run; `rtl` is the direction the font, Arabic or Latin, lays a string out in. */
  function GlyphString(r: Run, mirror: char -> char, rtl: (bool, string) -> bool): string {
    var s := if r.level % 2 == 1 then Mirrored(r.item.text, mirror) else r.item.text;
    if rtl(r.item.arabic, s) == (r.level % 2 == 1) then s else Reverse(s)
  }

  /** What the font puts on the page, left to right. */
  function LaidOut(arabic: bool, s: string, rtl: (bool, string) -> bool): string { if rtl(arabic, s) then Reverse(s) else s }

  /** The font does not change direction when the string is reversed. */
  predicate Steady(r: Run, mirror: char -> char, rtl: (bool, string) -> bool) {
    var s := if r.level % 2 == 1 then Mirrored(r.item.text, mirror) else r.item.text;
    var font := r.item.arabic;
    rtl(font, s) == (r.level % 2 == 1) || rtl(font, Reverse(s)) == rtl(font, s) || s == Reverse(s)
  }

  lemma GlyphStringTurnsTheRun(r: Run, mirror: char -> char, rtl: (bool, string) -> bool)
    ensures LaidOut(r.item.arabic, GlyphString(r, mirror, rtl), rtl) == (if r.level % 2 == 1 then Reverse(Mirrored(r.item.text, mirror)) else r.item.text)
       <==> Steady(r, mirror, rtl)
  {
    ReverseTwice(r.item.text);
    ReverseTwice(Mirrored(r.item.text, mirror));
  }

  function Drawn(runs: seq<Run>, mirror: char -> char, rtl: (bool, string) -> bool): string {
    if runs == [] then [] else LaidOut(runs[0].item.arabic, GlyphString(runs[0], mirror, rtl), rtl) + Drawn(runs[1..], mirror, rtl)
  }

  /** Rule L4: a character at an odd level shows its mirror image. */
  function Images(glyphs: seq<Glyph>, mirror: char -> char): string {
    seq(|glyphs|, i requires 0 <= i < |glyphs| => if glyphs[i].level % 2 == 1 then mirror(glyphs[i].item) else glyphs[i].item)
  }

  lemma {:induction false} MirroredReverse(text: string, mirror: char -> char)
    ensures Reverse(Mirrored(text, mirror)) == Mirrored(Reverse(text), mirror)
  {
    ReverseTwice(text);
    if text != "" {
      MirroredReverse(text[1..], mirror);
      ReverseTwice(text[1..]);
      assert Mirrored(text, mirror)[1..] == Mirrored(text[1..], mirror);
      assert Mirrored(Reverse(text), mirror) == Mirrored(Reverse(text[1..]), mirror) + [mirror(text[0])];
    }
  }

  lemma ImagesAppend(a: seq<Glyph>, b: seq<Glyph>, mirror: char -> char)
    ensures Images(a + b, mirror) == Images(a, mirror) + Images(b, mirror)
  {
  }

  lemma ImagesOfOne(level: nat, text: string, mirror: char -> char)
    ensures Images(Glyphs(level, text), mirror) == if level % 2 == 1 then Mirrored(text, mirror) else text
  {
  }

  lemma {:induction false} DrawnIsShown(runs: seq<Run>, mirror: char -> char, rtl: (bool, string) -> bool)
    requires forall i :: 0 <= i < |runs| ==> Steady(runs[i], mirror, rtl)
    ensures Drawn(runs, mirror, rtl) == Images(Shown(runs), mirror)
  {
    if runs != [] {
      var r := runs[0];
      var read := if r.level % 2 == 1 then Reverse(r.item.text) else r.item.text;
      GlyphStringTurnsTheRun(r, mirror, rtl);
      MirroredReverse(r.item.text, mirror);
      ImagesOfOne(r.level, read, mirror);
      ImagesAppend(Glyphs(r.level, read), Shown(runs[1..]), mirror);
      DrawnIsShown(runs[1..], mirror, rtl);
    }
  }

  lemma DrawNext(drawn: string, order: seq<Run>, k: nat, mirror: char -> char, rtl: (bool, string) -> bool)
    requires k < |order|
    ensures drawn + Drawn(order[k..], mirror, rtl) ==
      drawn + LaidOut(order[k].item.arabic, GlyphString(order[k], mirror, rtl), rtl) + Drawn(order[k + 1..], mirror, rtl)
  {
    assert order[k..][0] == order[k] && order[k..][1..] == order[k + 1..];
    Regroup(drawn, LaidOut(order[k].item.arabic, GlyphString(order[k], mirror, rtl), rtl), Drawn(order[k + 1..], mirror, rtl));
  }

  method DrawRuns(order: seq<Run>, mirror: char -> char, rtl: (bool, string) -> bool) returns (drawn: string)
    ensures drawn == Drawn(order, mirror, rtl)
  {
    drawn := "";
    for k := 0 to |order|
      invariant drawn + Drawn(order[k..], mirror, rtl) == Drawn(order, mirror, rtl)
    {
      DrawNext(drawn, order, k, mirror, rtl);
      drawn := drawn + LaidOut(order[k].item.arabic, GlyphString(order[k], mirror, rtl), rtl);
    }
  }

  lemma {:induction false} ReverseKeepsSteady(runs: seq<Run>, mirror: char -> char, rtl: (bool, string) -> bool)
    requires forall k :: 0 <= k < |runs| ==> Steady(runs[k], mirror, rtl)
    ensures forall k :: 0 <= k < |Reverse(runs)| ==> Steady(Reverse(runs)[k], mirror, rtl)
  {
    if runs != [] { ReverseKeepsSteady(runs[1..], mirror, rtl); }
  }

  lemma {:induction false} StretchesKeepSteady(runs: seq<Run>, lvl: int, mirror: char -> char, rtl: (bool, string) -> bool)
    requires forall k :: 0 <= k < |runs| ==> Steady(runs[k], mirror, rtl)
    ensures forall k :: 0 <= k < |ReverseStretches(runs, lvl)| ==> Steady(ReverseStretches(runs, lvl)[k], mirror, rtl)
    decreases |runs|
  {
    if runs != [] {
      if runs[0].level < lvl {
        StretchesKeepSteady(runs[1..], lvl, mirror, rtl);
      } else {
        var n := StretchLength(runs, lvl);
        ReverseKeepsSteady(runs[..n], mirror, rtl);
        StretchesKeepSteady(runs[n..], lvl, mirror, rtl);
      }
    }
  }

  lemma {:induction false} DescendKeepsSteady(runs: seq<Run>, hi: int, lo: int, mirror: char -> char, rtl: (bool, string) -> bool)
    requires forall k :: 0 <= k < |runs| ==> Steady(runs[k], mirror, rtl)
    ensures forall k :: 0 <= k < |Descend(runs, hi, lo)| ==> Steady(Descend(runs, hi, lo)[k], mirror, rtl)
    decreases hi - lo + 1
  {
    if lo <= hi {
      StretchesKeepSteady(runs, hi, mirror, rtl);
      DescendKeepsSteady(ReverseStretches(runs, hi), hi - 1, lo, mirror, rtl);
    }
  }

  lemma VisualKeepsSteady(runs: seq<Run>, mirror: char -> char, rtl: (bool, string) -> bool)
    requires forall k :: 0 <= k < |runs| ==> Steady(runs[k], mirror, rtl)
    ensures forall k :: 0 <= k < |Visual(runs)| ==> Steady(Visual(runs)[k], mirror, rtl)
  {
    if runs != [] { DescendKeepsSteady(runs, MaxLevel(runs), MinOdd(runs), mirror, rtl); }
  }

  lemma LineIsDrawn(text: string, levels: seq<nat>, start: nat, end: nat, runs: seq<Run>, mirror: char -> char, rtl: (bool, string) -> bool)
    requires start <= end <= |text| <= |levels| && RunsOf(text, levels, start, end, runs)
    requires forall k :: 0 <= k < |runs| ==> Steady(runs[k], mirror, rtl)
    ensures Drawn(Visual(runs), mirror, rtl) == Images(L2(Visible(text, levels, start, end)), mirror)
  {
    VisualOrderIsL2(runs);
    VisualKeepsSteady(runs, mirror, rtl);
    DrawnIsShown(Visual(runs), mirror, rtl);
  }

  /**
   * A whole line, from its characters to the page: rules L2 and L4 of the
   * standard, whatever the fonts that decide where the runs are cut.
   */
  method DrawLine(text: string, levels: seq<nat>, start: nat, end: nat, mirror: char -> char, rtl: (bool, string) -> bool)
    returns (drawn: string, runs: seq<Run>)
    requires start <= end <= |text| <= |levels|
    ensures RunsOf(text, levels, start, end, runs) && drawn == Drawn(Visual(runs), mirror, rtl)
    ensures (forall k :: 0 <= k < |runs| ==> Steady(runs[k], mirror, rtl))
      ==> drawn == Images(L2(Visible(text, levels, start, end)), mirror)
  {
    runs := LogicalRuns(text, levels, start, end);
    var order := VisualOrder(runs);
    drawn := DrawRuns(order, mirror, rtl);
    if forall k :: 0 <= k < |runs| ==> Steady(runs[k], mirror, rtl) {
      LineIsDrawn(text, levels, start, end, runs, mirror, rtl);
    }
  }
}
