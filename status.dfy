/** The tmux status-line composer (cmd/raceday/main.go): segments with a priority and a
    static/dynamic flag are laid out at a fixed column width by dropping the least important
    ones first, or by pinning the static ones and scrolling the rest in a marquee. */
module Status {
  import opened Wrappers
  import opened Strings
  import opened Text
  import opened Series

  /** A piece of the status line. A lower `priority` is more important (0 = core, 1 = your
      drivers, 2 = leader, 3 = weather); `static` pieces stay put, the others may scroll. */
  datatype Segment = Segment(text: string, priority: int, isStatic: bool)

  // ---------------------------------------------------------------------------
  // Joining.

  /** `strings.Join(parts, "")`. */
  function Concat(parts: seq<string>): string
  {
    if parts == [] then "" else Concat(parts[..|parts| - 1]) + parts[|parts| - 1]
  }

  function Texts(segs: seq<Segment>): (r: seq<string>)
    ensures |r| == |segs| && forall i :: 0 <= i < |segs| ==> r[i] == segs[i].text
  {
    seq(|segs|, i requires 0 <= i < |segs| => segs[i].text)
  }

  /** The texts of `segs` run together in order. */
  function Joined(segs: seq<Segment>): string
  {
    if segs == [] then "" else Joined(segs[..|segs| - 1]) + segs[|segs| - 1].text
  }

  /** Joining the list of texts is joining the segments. */
  lemma {:induction false} ConcatTexts(segs: seq<Segment>)
    ensures Concat(Texts(segs)) == Joined(segs)
  {
    if segs != [] {
      var init := segs[..|segs| - 1];
      assert Texts(segs)[..|segs| - 1] == Texts(init);
      ConcatTexts(init);
    }
  }

  lemma JoinedSnoc(segs: seq<Segment>, s: Segment)
    ensures Joined(segs + [s]) == Joined(segs) + s.text
  {
    assert (segs + [s])[..|segs|] == segs;
  }

  lemma {:induction false} JoinedConcat(a: seq<Segment>, b: seq<Segment>)
    ensures Joined(a + b) == Joined(a) + Joined(b)
    decreases |b|
  {
    if b == [] {
      assert a + b == a;
    } else {
      var b0 := b[..|b| - 1];
      assert a + b == (a + b0) + [b[|b| - 1]];
      assert b == b0 + [b[|b| - 1]];
      JoinedSnoc(a + b0, b[|b| - 1]);
      JoinedSnoc(b0, b[|b| - 1]);
      JoinedConcat(a, b0);
    }
  }

  /** The width of segments run together is the sum of their widths. */
  lemma {:induction false} JoinedWidth(a: seq<Segment>, b: seq<Segment>)
    ensures Width(Joined(a + b)) == Width(Joined(a)) + Width(Joined(b))
  {
    JoinedConcat(a, b);
    WidthConcat(Joined(a), Joined(b));
  }

  /** `joinSegments`: the loop appends each text to `parts`, then joins them. */
  method JoinSegments(segs: seq<Segment>) returns (s: string)
    ensures s == Joined(segs)
  {
    var parts: seq<string> := [];
    var k := 0;
    while k < |segs|
      invariant 0 <= k <= |segs|
      invariant parts == Texts(segs[..k])
    {
      parts := parts + [segs[k].text];
      k := k + 1;
    }
    assert segs[..|segs|] == segs;
    ConcatTexts(segs);
    s := Concat(parts);
  }

  // ---------------------------------------------------------------------------
  // Dropping by priority.

  /** The segments of priority at most `maxPri`, in their original order. */
  function Filter(segs: seq<Segment>, maxPri: int): seq<Segment>
  {
    if segs == [] then []
    else
      var last := segs[|segs| - 1];
      Filter(segs[..|segs| - 1], maxPri) + (if last.priority <= maxPri then [last] else [])
  }

  /** Filtering keeps exactly the segments of priority at most `maxPri`, and no more of them
      than there were. */
  lemma {:induction false} FilterSpec(segs: seq<Segment>, maxPri: int)
    ensures forall s :: s in Filter(segs, maxPri) <==> s in segs && s.priority <= maxPri
    ensures |Filter(segs, maxPri)| <= |segs|
  {
    if segs != [] {
      var init, last := segs[..|segs| - 1], segs[|segs| - 1];
      FilterSpec(init, maxPri);
      assert segs == init + [last];
      var tail := if last.priority <= maxPri then [last] else [];
      assert Filter(segs, maxPri) == Filter(init, maxPri) + tail;
      forall s
        ensures s in Filter(segs, maxPri) <==> s in segs && s.priority <= maxPri
      {
        assert s in segs <==> s in init || s == last;
      }
    }
  }

  /** When every segment is important enough, filtering keeps them all. */
  lemma {:induction false} FilterKeepsAll(segs: seq<Segment>, maxPri: int)
    requires forall i | 0 <= i < |segs| :: segs[i].priority <= maxPri
    ensures Filter(segs, maxPri) == segs
  {
    if segs != [] {
      var init := segs[..|segs| - 1];
      FilterKeepsAll(init, maxPri);
      assert segs == init + [segs[|segs| - 1]];
    }
  }

  /** Dropping at a lower threshold, then at a higher one, is dropping at the lower. */
  lemma {:induction false} FilterFilter(segs: seq<Segment>, p: int, q: int)
    requires p <= q
    ensures Filter(Filter(segs, q), p) == Filter(segs, p)
  {
    if segs != [] {
      var init := segs[..|segs| - 1];
      var last := segs[|segs| - 1];
      FilterFilter(init, p, q);
      FilterConcat(Filter(init, q), if last.priority <= q then [last] else [], p);
      if last.priority <= q {
        assert Filter([last], p) == Filter([], p) + (if last.priority <= p then [last] else []);
      }
    }
  }

  lemma {:induction false} FilterConcat(a: seq<Segment>, b: seq<Segment>, p: int)
    ensures Filter(a + b, p) == Filter(a, p) + Filter(b, p)
    decreases |b|
  {
    if b == [] {
      assert a + b == a;
    } else {
      var b0 := b[..|b| - 1];
      assert (a + b)[..|a + b| - 1] == a + b0;
      FilterConcat(a, b0, p);
    }
  }

  /** A higher threshold keeps everything a lower one keeps, so the joined text only grows:
      the least important segments are the first to go. */
  lemma {:induction false} FilterWidthMonotone(segs: seq<Segment>, p: int, q: int)
    requires p <= q
    ensures Width(Joined(Filter(segs, p))) <= Width(Joined(Filter(segs, q)))
  {
    if segs != [] {
      var init, last := segs[..|segs| - 1], segs[|segs| - 1];
      FilterWidthMonotone(init, p, q);
      var tp := if last.priority <= p then [last] else [];
      var tq := if last.priority <= q then [last] else [];
      assert Filter(segs, p) == Filter(init, p) + tp;
      assert Filter(segs, q) == Filter(init, q) + tq;
      JoinedWidth(Filter(init, p), tp);
      JoinedWidth(Filter(init, q), tq);
      assert Width(Joined(tp)) <= Width(Joined(tq));
    }
  }

  /** `Width(Joined(Filter(segs, p))) <= width`. */
  predicate FitsAt(segs: seq<Segment>, width: int, p: int)
  {
    Width(Joined(Filter(segs, p))) <= width
  }

  /** The threshold `assembleSegments` settles on: the largest of 3, 2, 1, 0 whose join fits,
      or 0 when none does. */
  function ChosenLevel(segs: seq<Segment>, width: int): (p: int)
    ensures 0 <= p <= 3
    ensures p > 0 ==> FitsAt(segs, width, p)
    ensures forall q | p < q <= 3 :: !FitsAt(segs, width, q)
  {
    if FitsAt(segs, width, 3) then 3
    else if FitsAt(segs, width, 2) then 2
    else if FitsAt(segs, width, 1) then 1
    else 0
  }

  /** What `assembleSegments` returns. */
  function Assembled(segs: seq<Segment>, width: int): string
  {
    if width <= 0 then Joined(segs) else Joined(Filter(segs, ChosenLevel(segs, width)))
  }

  /** The result fits unless even the core segments alone are too wide, in which case that
      oversized core join is what comes back. */
  lemma AssembledFits(segs: seq<Segment>, width: int)
    requires width > 0
    ensures FitsAt(segs, width, 0) ==> Width(Assembled(segs, width)) <= width
    ensures !FitsAt(segs, width, 0) ==> Assembled(segs, width) == Joined(Filter(segs, 0))
  {
    var p := ChosenLevel(segs, width);
    if !FitsAt(segs, width, 0) {
      FilterWidthMonotone(segs, 0, 1);
      FilterWidthMonotone(segs, 0, 2);
      FilterWidthMonotone(segs, 0, 3);
    }
  }

  /** Drop order of a live line whose four segments are ranked core, driver, leader, weather
      (priorities 0 to 3): the whole line when it fits, otherwise the longest prefix that
      fits, and the core alone when not even core and driver fit. The weather goes first,
      then the leader, then the driver. */
  lemma DropOrder(segs: seq<Segment>, width: int)
    requires |segs| == 4 && forall i | 0 <= i < 4 :: segs[i].priority == i
    requires width > 0
    ensures forall k | 1 <= k < 4 :: Width(Joined(segs[..k])) <= Width(Joined(segs[..k + 1]))
    ensures Width(Joined(segs)) <= width ==> Assembled(segs, width) == Joined(segs)
    ensures forall k | 1 <= k < 4 ::
      (k == 1 || Width(Joined(segs[..k])) <= width) && width < Width(Joined(segs[..k + 1]))
      ==> Assembled(segs, width) == Joined(segs[..k])
  {
    if Width(Joined(segs)) <= width {
      assert segs[..4] == segs;
      KeepsPrefix(segs, width, 4);
    }
    forall k | 1 <= k < 4 &&
      (k == 1 || Width(Joined(segs[..k])) <= width) && width < Width(Joined(segs[..k + 1]))
      ensures Assembled(segs, width) == Joined(segs[..k])
    {
      KeepsPrefix(segs, width, k);
    }
    RankedPrefixes(segs);
  }

  /** The first `k` of four ranked segments are kept when their join fits (or `k` is 1) and
      the join of one more does not (or there is none). */
  lemma KeepsPrefix(segs: seq<Segment>, width: int, k: int)
    requires |segs| == 4 && forall i | 0 <= i < 4 :: segs[i].priority == i
    requires width > 0 && 1 <= k <= 4
    requires k == 1 || Width(Joined(segs[..k])) <= width
    requires k == 4 || width < Width(Joined(segs[..k + 1]))
    ensures Assembled(segs, width) == Joined(segs[..k])
  {
    RankedPrefixes(segs);
    var w2, w3, w4 := Width(Joined(segs[..2])), Width(Joined(segs[..3])), Width(Joined(segs[..4]));
    assert FitsAt(segs, width, 1) <==> w2 <= width;
    assert FitsAt(segs, width, 2) <==> w3 <= width;
    assert FitsAt(segs, width, 3) <==> w4 <= width;
    assert w2 <= w3 <= w4;
  }

  /** Of four ranked segments each threshold keeps a prefix, and the longer the prefix the
      wider its join. */
  lemma RankedPrefixes(segs: seq<Segment>)
    requires |segs| == 4 && forall i | 0 <= i < 4 :: segs[i].priority == i
    ensures forall k | 1 <= k < 4 :: Width(Joined(segs[..k])) <= Width(Joined(segs[..k + 1]))
    ensures forall q | 0 <= q <= 3 :: Filter(segs, q) == segs[..q + 1]
  {
    forall k | 1 <= k < 4
      ensures Width(Joined(segs[..k])) <= Width(Joined(segs[..k + 1]))
    {
      assert segs[..k + 1] == segs[..k] + [segs[k]];
      JoinedSnoc(segs[..k], segs[k]);
      WidthConcat(Joined(segs[..k]), segs[k].text);
    }
    forall q | 0 <= q <= 3
      ensures Filter(segs, q) == segs[..q + 1]
    {
      FilterRanked(segs, q);
    }
  }

  /** When the segments are ranked (the one at `i` has priority `i`), a threshold keeps the
      first `p + 1` of them. */
  lemma {:induction false} FilterRanked(segs: seq<Segment>, p: nat)
    requires forall i | 0 <= i < |segs| :: segs[i].priority == i
    ensures Filter(segs, p) == segs[..if p + 1 < |segs| then p + 1 else |segs|]
    decreases |segs|
  {
    if segs != [] {
      var init := segs[..|segs| - 1];
      FilterRanked(init, p);
      if p + 1 < |segs| {
        assert init[..if p + 1 < |init| then p + 1 else |init|] == segs[..p + 1];
      } else {
        assert segs[..|segs|] == init[..|init|] + [segs[|segs| - 1]];
      }
    }
  }

  /** `assembleSegments`: with no width every text; otherwise the join at the first threshold
      from 3 down to 0 that fits, the priority-0 join if none does. */
  method AssembleSegments(segs: seq<Segment>, width: int) returns (r: string)
    ensures width <= 0 ==> r == Joined(segs)
    ensures width > 0 ==> r == Joined(Filter(segs, ChosenLevel(segs, width)))
  {
    if width <= 0 {
      r := JoinSegments(segs);
      return;
    }
    var maxPri := 3;
    while maxPri >= 0
      invariant 0 <= maxPri <= 3
      invariant forall q | maxPri < q <= 3 :: !FitsAt(segs, width, q)
      decreases maxPri
    {
      var parts := FilterTexts(segs, maxPri);
      var result := Concat(parts);
      ConcatTexts(Filter(segs, maxPri));
      if Width(result) <= width || maxPri == 0 {
        ChosenLevelIs(segs, width, maxPri);
        return result;
      }
      maxPri := maxPri - 1;
    }
    r := "";
  }

  /** The level `ChosenLevel` picks is the first from 3 down that fits, or 0. */
  lemma ChosenLevelIs(segs: seq<Segment>, width: int, p: int)
    requires 0 <= p <= 3 && (p == 0 || FitsAt(segs, width, p))
    requires forall q | p < q <= 3 :: !FitsAt(segs, width, q)
    ensures ChosenLevel(segs, width) == p
  {
  }

  /** The inner loop of `assembleSegments`: the texts of the segments of priority at most
      `maxPri`, in order. */
  method FilterTexts(segs: seq<Segment>, maxPri: int) returns (parts: seq<string>)
    ensures parts == Texts(Filter(segs, maxPri))
  {
    parts := [];
    var k := 0;
    while k < |segs|
      invariant 0 <= k <= |segs|
      invariant parts == Texts(Filter(segs[..k], maxPri))
    {
      assert segs[..k + 1][..k] == segs[..k];
      if segs[k].priority <= maxPri {
        parts := parts + [segs[k].text];
      }
      k := k + 1;
    }
    assert segs[..|segs|] == segs;
  }

  // ---------------------------------------------------------------------------
  // Hybrid layout: static segments pinned, dynamic ones in a marquee.

  /** The segments whose `static` flag is `b`, in order. */
  function WithStatic(segs: seq<Segment>, b: bool): (r: seq<Segment>)
    ensures forall s :: s in r <==> s in segs && s.isStatic == b
  {
    if segs == [] then []
    else
      var last := segs[|segs| - 1];
      WithStatic(segs[..|segs| - 1], b) + (if last.isStatic == b then [last] else [])
  }

  /** The static segments left after the shrinking loop: thresholds from `maxPri` down to 0
      are applied while the static text is still wider than `width`. */
  function Shrink(statics: seq<Segment>, width: int, maxPri: int): seq<Segment>
    decreases maxPri + 1
  {
    if Width(Joined(statics)) <= width || maxPri < 0 then statics
    else Shrink(Filter(statics, maxPri), width, maxPri - 1)
  }

  /** The shrinking loop of `assembleHybrid` picks the same threshold as `assembleSegments`:
      the statics stay whole when they fit, else they are cut at the largest threshold from 3
      down to 0 whose join fits, or at 0 when none does. */
  lemma ShrinkLevels(statics: seq<Segment>, width: int)
    ensures Shrink(statics, width, 3)
      == if Width(Joined(statics)) <= width then statics else Filter(statics, ChosenLevel(statics, width))
  {
    if Width(Joined(statics)) > width {
      var f3 := Filter(statics, 3);
      assert Shrink(statics, width, 3) == Shrink(f3, width, 2);
      if !FitsAt(statics, width, 3) {
        FilterFilter(statics, 2, 3);
        var f2 := Filter(statics, 2);
        assert Shrink(f3, width, 2) == Shrink(f2, width, 1);
        if !FitsAt(statics, width, 2) {
          FilterFilter(statics, 1, 2);
          var f1 := Filter(statics, 1);
          assert Shrink(f2, width, 1) == Shrink(f1, width, 0);
          if !FitsAt(statics, width, 1) {
            FilterFilter(statics, 0, 1);
            var f0 := Filter(statics, 0);
            assert Shrink(f1, width, 0) == Shrink(f0, width, -1) == f0;
          }
        }
      }
    }
  }

  /** Only static segments of the input make up the static region. */
  lemma HybridStaticRegion(segs: seq<Segment>, width: int)
    ensures forall s | s in Shrink(WithStatic(segs, true), width, 3) :: s.isStatic && s in segs
  {
    var st := WithStatic(segs, true);
    ShrinkLevels(st, width);
    FilterSpec(st, ChosenLevel(st, width));
  }

  const Spacer: string := " | "

  /** The columns the spacer takes, kept as a number so that layouts do not re-measure the
      literal. */
  const SpacerColumns: nat := 3

  lemma SpacerWidth()
    ensures Width(Spacer) == SpacerColumns
  {
    assert Spacer == [' '] + ['|'] + [' '];
  }

  /** What `assembleHybrid` returns. */
  function Hybrid(segs: seq<Segment>, width: int, speed: int, sep: string, now: int): string
  {
    var dynamics := WithStatic(segs, false);
    HybridLine(Joined(Shrink(WithStatic(segs, true), width, 3)), Joined(dynamics), |dynamics| > 0,
      width, speed, sep, now)
  }

  /** The hybrid line from the static text and the dynamic text: the static text padded or cut
      to the width when no dynamic segment or no room is left, otherwise the static text pinned
      before the marquee. */
  function HybridLine(staticText: string, dynText: string, hasDynamic: bool, width: int, speed: int,
    sep: string, now: int): string
  {
    var remaining := width - Width(staticText) - SpacerColumns;
    if remaining <= 0 || !hasDynamic then PadToWidth(staticText, width)
    else Pinned(staticText, dynText, remaining, speed, sep, now)
  }

  /** The static text, the spacer, and the marquee of the dynamic text in `remaining` columns. */
  function Pinned(staticText: string, dynText: string, remaining: int, speed: int, sep: string,
    now: int): string
  {
    staticText + Spacer + MarqueeView(dynText, remaining, speed, sep, now)
  }

  /** The hybrid line is exactly `width` columns wide. */
  lemma HybridLineWidth(staticText: string, dynText: string, hasDynamic: bool, width: int,
    speed: int, sep: string, now: int)
    requires width > 0
    ensures Width(HybridLine(staticText, dynText, hasDynamic, width, speed, sep, now)) == width
  {
    var remaining := width - Width(staticText) - SpacerColumns;
    if remaining > 0 && hasDynamic {
      var m := MarqueeView(dynText, remaining, speed, sep, now);
      MarqueeViewWidth(dynText, remaining, speed, sep, now);
      SpacerWidth();
      WidthConcat(staticText, Spacer);
      WidthConcat(staticText + Spacer, m);
    }
  }

  /** With dynamic text and room left after the static text and the spacer, the line starts
      with the static text and " | ", and the rest is the marquee in the remaining columns;
      otherwise it is the static text padded or cut to the width. */
  lemma HybridLineShape(staticText: string, dynText: string, hasDynamic: bool, width: int,
    speed: int, sep: string, now: int)
    ensures var remaining := width - Width(staticText) - 3;
      var r := HybridLine(staticText, dynText, hasDynamic, width, speed, sep, now);
      if remaining > 0 && hasDynamic then
        |staticText| + 3 <= |r| && r[..|staticText| + 3] == staticText + " | "
        && r[|staticText| + 3..] == MarqueeView(dynText, remaining, speed, sep, now)
        && Width(r[|staticText| + 3..]) == remaining
      else r == PadToWidth(staticText, width)
  {
    SpacerWidth();
    var remaining := width - Width(staticText) - 3;
    if remaining > 0 && hasDynamic {
      var r := HybridLine(staticText, dynText, hasDynamic, width, speed, sep, now);
      var m := MarqueeView(dynText, remaining, speed, sep, now);
      MarqueeViewWidth(dynText, remaining, speed, sep, now);
      assert r == (staticText + Spacer) + m;
      assert r[..|staticText| + 3] == staticText + Spacer;
      assert r[|staticText| + 3..] == m;
    }
  }

  /** `assembleHybrid`: split into static and dynamic segments, shrink the statics while too
      wide, then pin them before a " | " spacer and a marquee of the dynamic text. */
  method AssembleHybrid(segs: seq<Segment>, width: int, speed: int, sep: string, now: int)
    returns (r: string)
    ensures r == Hybrid(segs, width, speed, sep, now)
  {
    var statics, dynamics := SplitStatic(segs);
    var staticText;
    statics, staticText := ShrinkStatics(statics, width);
    r := HybridLayout(staticText, dynamics, width, speed, sep, now);
  }

  /** The last part of `assembleHybrid`: with no room after the static text and the spacer, or
      nothing dynamic, the static text padded or cut to the width; otherwise the static text,
      the spacer and the marquee of the dynamic text. */
  method HybridLayout(staticText: string, dynamics: seq<Segment>, width: int, speed: int, sep: string,
    now: int) returns (r: string)
    ensures r == HybridLine(staticText, Joined(dynamics), |dynamics| > 0, width, speed, sep, now)
  {
    var remaining := width - Width(staticText) - SpacerColumns;
    if remaining <= 0 || |dynamics| == 0 {
      return PadToWidth(staticText, width);
    }
    var dynText := JoinSegments(dynamics);
    var marqueed := MarqueeText(dynText, remaining, speed, sep, now);
    r := staticText + Spacer + marqueed;
  }

  /** The first loop of `assembleHybrid`: static segments to one list, the rest to another. */
  method SplitStatic(segs: seq<Segment>) returns (statics: seq<Segment>, dynamics: seq<Segment>)
    ensures statics == WithStatic(segs, true) && dynamics == WithStatic(segs, false)
  {
    statics, dynamics := [], [];
    var k := 0;
    while k < |segs|
      invariant 0 <= k <= |segs|
      invariant statics == WithStatic(segs[..k], true) && dynamics == WithStatic(segs[..k], false)
    {
      assert segs[..k + 1][..k] == segs[..k];
      if segs[k].isStatic {
        statics := statics + [segs[k]];
      } else {
        dynamics := dynamics + [segs[k]];
      }
      k := k + 1;
    }
    assert segs[..|segs|] == segs;
  }

  /** The shrinking loop of `assembleHybrid`: while the static text is too wide, keep only the
      statics of priority at most 3, then 2, 1 and 0. */
  method ShrinkStatics(statics0: seq<Segment>, width: int) returns (statics: seq<Segment>, staticText: string)
    ensures statics == Shrink(statics0, width, 3) && staticText == Joined(statics)
  {
    statics := statics0;
    staticText := JoinSegments(statics);
    var maxPri := 3;
    while Width(staticText) > width && maxPri >= 0
      invariant -1 <= maxPri <= 3
      invariant staticText == Joined(statics)
      invariant Shrink(statics, width, maxPri) == Shrink(statics0, width, 3)
      decreases maxPri + 1
    {
      var kept := KeepUpTo(statics, maxPri);
      statics := kept;
      staticText := JoinSegments(statics);
      maxPri := maxPri - 1;
    }
  }

  /** The `kept` loop of `assembleHybrid`. */
  method KeepUpTo(segs: seq<Segment>, maxPri: int) returns (kept: seq<Segment>)
    ensures kept == Filter(segs, maxPri)
  {
    kept := [];
    var k := 0;
    while k < |segs|
      invariant 0 <= k <= |segs|
      invariant kept == Filter(segs[..k], maxPri)
    {
      assert segs[..k + 1][..k] == segs[..k];
      if segs[k].priority <= maxPri {
        kept := kept + [segs[k]];
      }
      k := k + 1;
    }
    assert segs[..|segs|] == segs;
  }

  // ---------------------------------------------------------------------------
  // The printed line (runStatus).

  /** The line `runStatus` prints: the hybrid layout in marquee mode, otherwise the assembled
      text, padded or cut to the width when there is one. */
  function StatusLine(segs: seq<Segment>, width: int, marquee: bool, speed: int, sep: string, now: int): string
  {
    if marquee && width > 0 then Hybrid(segs, width, speed, sep, now)
    else
      var s := Assembled(segs, width);
      if width > 0 then PadToWidth(s, width) else s
  }

  /** The printed line is exactly `width` columns wide in both modes; without a width it is
      every segment's text run together. */
  lemma StatusLineWidth(segs: seq<Segment>, width: int, marquee: bool, speed: int, sep: string, now: int)
    ensures width > 0 ==> Width(StatusLine(segs, width, marquee, speed, sep, now)) == width
    ensures width <= 0 ==> StatusLine(segs, width, marquee, speed, sep, now) == Joined(segs)
  {
    if marquee && width > 0 {
      var dynamics := WithStatic(segs, false);
      HybridLineWidth(Joined(Shrink(WithStatic(segs, true), width, 3)), Joined(dynamics),
        |dynamics| > 0, width, speed, sep, now);
    }
  }

  // ---------------------------------------------------------------------------
  // Building the segments.

  /** The index of the first driver whose number is `number`. */
  function FirstNumbered(positions: seq<Driver>, number: string): (r: Option<nat>)
    ensures r.Some? ==> r.value < |positions| && positions[r.value].number == number
    ensures r.Some? ==> forall j | 0 <= j < r.value :: positions[j].number != number
    ensures r.None? ==> forall j | 0 <= j < |positions| :: positions[j].number != number
  {
    if positions == [] then None
    else if positions[0].number == number then Some(0)
    else match FirstNumbered(positions[1..], number)
      case None => None
      case Some(j) => Some(j + 1)
  }

  function LapText(state: LiveState): string
  {
    if state.totalLaps > 0 then "Lap " + Itoa(state.currentLap) + "/" + Itoa(state.totalLaps)
    else "Lap " + Itoa(state.currentLap)
  }

  function CoreSegment(state: LiveState, multiSeries: bool): Segment
  {
    var prefix := if multiSeries then state.shortName + ": " else "";
    var flagPart := if state.flagSymbol != "" then state.flagSymbol + " " else "";
    Segment(prefix + flagPart + state.raceName + " | " + LapText(state), 0, true)
  }

  /** The lap text is "Lap c" followed by "/t" exactly when the total is known; no other
      part of it holds a slash. */
  lemma LapTextShape(state: LiveState)
    ensures var c := "Lap " + Itoa(state.currentLap);
      |c| <= |LapText(state)| && LapText(state)[..|c|] == c
    ensures '/' in LapText(state) <==> state.totalLaps > 0
  {
    var c := "Lap " + Itoa(state.currentLap);
    ItoaNoSlash(state.currentLap);
    ItoaNoSlash(state.totalLaps);
    assert '/' !in c;
    if state.totalLaps > 0 {
      assert LapText(state) == c + ("/" + Itoa(state.totalLaps));
      assert LapText(state)[|c|] == '/';
    }
  }

  /** The core segment ends with " | " and the lap text. */
  lemma CoreEndsWithLap(state: LiveState, multiSeries: bool)
    ensures var t := CoreSegment(state, multiSeries).text;
      var tail := " | " + LapText(state);
      |tail| <= |t| && t[|t| - |tail|..] == tail
  {
  }

  function DriverText(p: Driver): string
  {
    var diff := if p.delta > 0 then " [+" + Itoa(p.delta) + "]"
      else if p.delta < 0 then " [" + Itoa(p.delta) + "]" else "";
    " | #" + p.number + " " + p.name + " P" + Itoa(p.position) + diff
  }

  /** One priority-1 segment per configured driver (index `i` on in `drivers`) that appears in
      `positions`, static only for the first configured driver. */
  function DriverSegments(positions: seq<Driver>, drivers: seq<int>, i: nat): seq<Segment>
    requires i <= |drivers|
    decreases |drivers| - i
  {
    if i == |drivers| then []
    else
      var found := FirstNumbered(positions, Itoa(drivers[i]));
      (if found.Some? then [Segment(DriverText(positions[found.value]), 1, i == 0)] else [])
      + DriverSegments(positions, drivers, i + 1)
  }

  /** How many of the configured drivers from index `i` on appear in `positions`. */
  function FoundCount(positions: seq<Driver>, drivers: seq<int>, i: nat): nat
    requires i <= |drivers|
    decreases |drivers| - i
  {
    if i == |drivers| then 0
    else
      var here := if FirstNumbered(positions, Itoa(drivers[i])).Some? then 1 else 0;
      here + FoundCount(positions, drivers, i + 1)
  }

  /** Exactly one segment per configured driver that is running, never more than there are
      configured drivers. All have priority 1, and only the first may be static: it is static
      exactly when it is the first configured driver's, and then it shows that driver's row. */
  lemma {:induction false} DriverSegmentsShape(positions: seq<Driver>, drivers: seq<int>, i: nat)
    requires i <= |drivers|
    ensures |DriverSegments(positions, drivers, i)| == FoundCount(positions, drivers, i)
    ensures FoundCount(positions, drivers, i) <= |drivers| - i
    ensures forall s | s in DriverSegments(positions, drivers, i) :: s.priority == 1
    ensures forall k | 0 < k < |DriverSegments(positions, drivers, i)| ::
      !DriverSegments(positions, drivers, i)[k].isStatic
    ensures i > 0 ==> forall s | s in DriverSegments(positions, drivers, i) :: !s.isStatic
    ensures i == 0 && |drivers| > 0 ==> match FirstNumbered(positions, Itoa(drivers[0]))
      case Some(j) => DriverSegments(positions, drivers, 0)[0]
        == Segment(DriverText(positions[j]), 1, true)
      case None => forall s | s in DriverSegments(positions, drivers, 0) :: !s.isStatic
    decreases |drivers| - i
  {
    if i < |drivers| {
      DriverSegmentsShape(positions, drivers, i + 1);
    }
  }

  /** One configured driver's contribution: a segment when the number is found, none otherwise. */
  lemma DriverSegmentsStep(positions: seq<Driver>, drivers: seq<int>, i: nat)
    requires i < |drivers|
    ensures var found := FirstNumbered(positions, Itoa(drivers[i]));
      DriverSegments(positions, drivers, i)
      == (if found.Some? then [Segment(DriverText(positions[found.value]), 1, i == 0)] else [])
        + DriverSegments(positions, drivers, i + 1)
  {
  }

  /** What `liveSegmentsFromState` returns: the core segment, the leader when known, then the
      configured drivers that are running. */
  function LiveSegments(state: LiveState, drivers: seq<int>, multiSeries: bool): seq<Segment>
  {
    [CoreSegment(state, multiSeries)]
    + (if state.leader.number != ""
       then [Segment(" | P1 #" + state.leader.number + " " + state.leader.name, 2, false)] else [])
    + DriverSegments(state.positions, drivers, 0)
  }

  /** The first segment is the static priority-0 core; a leader segment (priority 2, dynamic)
      follows exactly when the leader's number is known; then come exactly one priority-1
      segment per configured driver found in the positions. Only the first driver segment may
      be static, and it is static exactly when the first configured driver is found, showing
      that driver's row. */
  lemma LiveSegmentsShape(state: LiveState, drivers: seq<int>, multiSeries: bool)
    ensures var r := LiveSegments(state, drivers, multiSeries);
      var lead := if state.leader.number != "" then 1 else 0;
      && |r| == 1 + lead + FoundCount(state.positions, drivers, 0)
      && |r| <= 1 + lead + |drivers|
      && r[0].priority == 0 && r[0].isStatic
      && (lead == 1 ==> r[1].priority == 2 && !r[1].isStatic)
      && (forall k | 1 + lead <= k < |r| :: r[k].priority == 1)
      && (forall k | 2 + lead <= k < |r| :: !r[k].isStatic)
      && (|drivers| > 0 ==> match FirstNumbered(state.positions, Itoa(drivers[0]))
        case Some(j) => r[1 + lead] == Segment(DriverText(state.positions[j]), 1, true)
        case None => forall k | 1 + lead <= k < |r| :: !r[k].isStatic)
  {
    var r := LiveSegments(state, drivers, multiSeries);
    var lead := if state.leader.number != "" then 1 else 0;
    var ds := DriverSegments(state.positions, drivers, 0);
    DriverSegmentsShape(state.positions, drivers, 0);
    assert r[1 + lead..] == ds;
    forall k | 1 + lead <= k < |r|
      ensures r[k] == ds[k - 1 - lead]
    {
    }
  }

  /** `liveSegmentsFromState`: the nested loop looks each configured driver up in the positions
      and stops at the first match. */
  method LiveSegmentsFromState(state: LiveState, drivers: seq<int>, multiSeries: bool)
    returns (segs: seq<Segment>)
    ensures segs == LiveSegments(state, drivers, multiSeries)
  {
    segs := [CoreSegment(state, multiSeries)];
    if state.leader.number != "" {
      segs := segs + [Segment(" | P1 #" + state.leader.number + " " + state.leader.name, 2, false)];
    }
    var i := 0;
    assert segs + DriverSegments(state.positions, drivers, 0) == LiveSegments(state, drivers, multiSeries);
    while i < |drivers|
      invariant 0 <= i <= |drivers|
      invariant segs + DriverSegments(state.positions, drivers, i) == LiveSegments(state, drivers, multiSeries)
    {
      segs := AppendDriver(segs, state.positions, drivers, i);
      i := i + 1;
    }
  }

  /** One pass of the outer loop of `liveSegmentsFromState`: appends the segment of the `i`-th
      configured driver when it is running. */
  method AppendDriver(segs: seq<Segment>, positions: seq<Driver>, drivers: seq<int>, i: nat)
    returns (segs': seq<Segment>)
    requires i < |drivers|
    ensures segs' + DriverSegments(positions, drivers, i + 1) == segs + DriverSegments(positions, drivers, i)
  {
    var j := FindNumbered(positions, Itoa(drivers[i]));
    ghost var later := DriverSegments(positions, drivers, i + 1);
    DriverSegmentsStep(positions, drivers, i);
    segs' := segs;
    if j < |positions| {
      var seg := Segment(DriverText(positions[j]), 1, i == 0);
      assert segs + [seg] + later == segs + ([seg] + later);
      segs' := segs + [seg];
    }
  }

  /** The inner loop of `liveSegmentsFromState`: the index of the first driver numbered
      `number`, or `|positions|` when there is none. */
  method FindNumbered(positions: seq<Driver>, number: string) returns (j: nat)
    ensures j <= |positions|
    ensures j < |positions| ==> FirstNumbered(positions, number) == Some(j)
    ensures j == |positions| ==> FirstNumbered(positions, number).None?
  {
    j := 0;
    while j < |positions|
      invariant 0 <= j <= |positions|
      invariant forall m | 0 <= m < j :: positions[m].number != number
    {
      if positions[j].number == number {
        FirstNumberedUnique(positions, number, j);
        return;
      }
      j := j + 1;
    }
  }

  /** The first index holding `number` is the one `FirstNumbered` finds. */
  lemma FirstNumberedUnique(positions: seq<Driver>, number: string, j: nat)
    requires j < |positions| && positions[j].number == number
    requires forall m | 0 <= m < j :: positions[m].number != number
    ensures FirstNumbered(positions, number) == Some(j)
  {
  }

  /** The shape of `scheduleSegmentsFromRace`; `timeText` stands for the formatted local start
      time, which depends on the clock and the time zone. */
  function ScheduleSegments(race: Race, driverNum: int, multiSeries: bool, timeText: string): (r: seq<Segment>)
    ensures |r| >= 1 && r[0].priority == 0 && r[0].isStatic
    ensures IsZero(race.startTime) ==> |r| == 1
    ensures !IsZero(race.startTime) ==>
      && |r| == 2 + (if race.broadcaster != "" then 1 else 0) + (if driverNum > 0 then 1 else 0)
      && r[1] == Segment(" | " + timeText, 0, false)
      && (race.broadcaster != "" ==> r[2] == Segment(" | " + race.broadcaster, 2, false))
      && (driverNum > 0 ==> r[|r| - 1] == Segment(" | #" + Itoa(driverNum), 1, true))
  {
    var prefix := if multiSeries then race.shortName + ": " else "";
    var head := Segment("\U{1F3C1} " + prefix + race.raceName, 0, true);
    if IsZero(race.startTime) then [head]
    else
      [head, Segment(" | " + timeText, 0, false)]
      + (if race.broadcaster != "" then [Segment(" | " + race.broadcaster, 2, false)] else [])
      + (if driverNum > 0 then [Segment(" | #" + Itoa(driverNum), 1, true)] else [])
  }
}
