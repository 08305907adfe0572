/** Display-width primitives of the `ui` package (internal/ui/text.go): padding or ellipsising a
    string to an exact number of terminal columns, and the clock-seeded marquee window. */
module Text {
  import GoInt

  // ---------------------------------------------------------------------------
  // Display width (the role of the runewidth library).

  /** Terminal columns of one code point: 0 for control characters, combining marks and
      variation selectors, 2 for East Asian wide characters and emoji, 1 otherwise. The ranges
      are an abbreviation of the library's tables. The proofs use only the bound 2 and the
      width 1 of printable ASCII (such as ' ', '.' and '|'), which the library gives too. */
  function CharWidth(c: char): (w: nat)
    ensures w <= 2
    ensures 0x20 <= c as int < 0x7F ==> w == 1
  {
    var n := c as int;
    if n < 0x20 || 0x7F <= n < 0xA0 || 0x300 <= n < 0x370 || 0x200B <= n <= 0x200F
       || 0xFE00 <= n <= 0xFE0F then 0
    else if 0x1100 <= n <= 0x115F || 0x231A <= n <= 0x231B || 0x26AA <= n <= 0x26AB
       || 0x26C4 <= n <= 0x26C5 || 0x2E80 <= n <= 0xA4CF || 0xAC00 <= n <= 0xD7A3
       || 0xF900 <= n <= 0xFAFF || 0xFF00 <= n <= 0xFF60 || 0xFFE0 <= n <= 0xFFE6
       || 0x1F300 <= n <= 0x1F64F || 0x1F680 <= n <= 0x1F6FF || 0x1F7E0 <= n <= 0x1F7EB
       || 0x1F900 <= n <= 0x1F9FF || 0x20000 <= n <= 0x3FFFD then 2
    else 1
  }

  /** `runewidth.StringWidth`: the columns of a string, the sum over its code points. */
  function Width(s: string): nat
  {
    if s == [] then 0 else CharWidth(s[0]) + Width(s[1..])
  }

  lemma {:induction false} WidthConcat(a: string, b: string)
    ensures Width(a + b) == Width(a) + Width(b)
  {
    if a != [] {
      assert (a + b)[1..] == a[1..] + b;
      WidthConcat(a[1..], b);
    } else {
      assert a + b == b;
    }
  }

  /** A prefix is never wider than the whole string. */
  lemma WidthPrefix(s: string, k: nat)
    requires k <= |s|
    ensures Width(s[..k]) <= Width(s)
  {
    assert s == s[..k] + s[k..];
    WidthConcat(s[..k], s[k..]);
  }

  /** `strings.Repeat(" ", n)`. */
  function Spaces(n: nat): (r: string)
    ensures |r| == n && Width(r) == n
    ensures forall i :: 0 <= i < n ==> r[i] == ' '
  {
    if n == 0 then [] else [' '] + Spaces(n - 1)
  }

  // ---------------------------------------------------------------------------
  // Truncation: `runewidth.Truncate(s, w, "")`.

  /** Takes code points from the front while they still fit in `w` columns, stopping at the
      first one that does not. */
  function TakeFit(s: string, w: int): (r: string)
    ensures r <= s
    ensures r == [] || Width(r) <= w
    ensures |r| < |s| ==> Width(r) + CharWidth(s[|r|]) > w
    ensures w >= 0 && Width(s) > w ==> |r| < |s|
  {
    if s == [] || CharWidth(s[0]) > w then []
    else [s[0]] + TakeFit(s[1..], w - CharWidth(s[0]))
  }

  /** `runewidth.Truncate(s, w, "")`: `s` itself when it fits, otherwise the prefix that stops
      before the first code point that would overflow `w` columns. */
  function Truncate(s: string, w: int): (r: string)
    ensures r <= s
    ensures w >= 0 ==> Width(r) <= w
    ensures Width(s) <= w ==> r == s
    ensures |r| < |s| ==> Width(r) + CharWidth(s[|r|]) > w
    ensures w >= 0 && Width(s) > w ==> w - 1 <= Width(r)
  {
    if Width(s) <= w then s else TakeFit(s, w)
  }

  /** The truncated text is the LONGEST prefix that fits: every longer prefix is too wide. */
  lemma TruncateLongest(s: string, w: int, k: nat)
    requires |Truncate(s, w)| < k <= |s|
    ensures Width(s[..k]) > w
  {
    var r := Truncate(s, w);
    assert s[..k] == r + s[|r|..k];
    WidthConcat(r, s[|r|..k]);
    assert s[|r|..k] == [s[|r|]] + s[|r| + 1..k];
    WidthConcat([s[|r|]], s[|r| + 1..k]);
  }

  // ---------------------------------------------------------------------------
  // PadToWidth (internal/ui/text.go:14-46).

  const Ellipsis: string := "..."

  /** The columns "..." takes. */
  const EllipsisColumns: nat := 3

  lemma EllipsisWidth()
    ensures Width(Ellipsis) == EllipsisColumns
  {
    assert Ellipsis == ['.'] + ['.'] + ['.'];
  }

  /** Cutting "..." to at most three columns keeps that many dots. */
  lemma EllipsisCut(width: int)
    requires 0 < width <= EllipsisColumns
    ensures Truncate(Ellipsis, width) == Ellipsis[..width]
  {
    EllipsisWidth();
    assert Ellipsis[..width] <= Ellipsis;
    if width == 1 {
      assert Ellipsis[..1] == ['.'] && Width(['.']) == 1;
      TruncateLongest(Ellipsis, 1, 2);
    } else if width == 2 {
      assert Ellipsis[..2] == ['.'] + ['.'];
      WidthConcat(['.'], ['.']);
      TruncateLongest(Ellipsis, 2, 3);
    }
  }

  /** Pads with spaces or cuts with "..." so that the result is exactly `width` columns wide;
      a non-positive width disables it. */
  function PadToWidth(text: string, width: int): (r: string)
    ensures width <= 0 ==> r == text
    ensures width > 0 ==> Width(r) == width
    ensures 0 < width && Width(text) <= width ==> r == text + Spaces(width - Width(text))
    ensures 0 < width <= 3 && Width(text) > width ==> r == Ellipsis[..width]
  {
    EllipsisWidth();
    if width <= 0 then text
    else
      var currentWidth := Width(text);
      if currentWidth > width then
        if width <= EllipsisColumns then
          EllipsisCut(width);
          Truncate(Ellipsis, width)
        else
          var truncated := Truncate(text, width - EllipsisColumns);
          var result := truncated + Ellipsis;
          WidthConcat(truncated, Ellipsis);
          var resultWidth := Width(result);
          if resultWidth < width then
            WidthConcat(result, Spaces(width - resultWidth));
            result + Spaces(width - resultWidth)
          else if resultWidth > width then
            assert false; Truncate(result, width)
          else result
      else if currentWidth < width then
        WidthConcat(text, Spaces(width - currentWidth));
        text + Spaces(width - currentWidth)
      else text
  }

  /** Text wider than `width` (and `width` above 3) becomes its longest prefix of at most
      `width - 3` columns, then "...", then at most one space to fill a gap a wide glyph left. */
  lemma PadToWidthEllipsis(text: string, width: int)
    requires 3 < width < Width(text)
    ensures var t := Truncate(text, width - 3);
      && t <= text
      && (forall k :: |t| < k <= |text| ==> Width(text[..k]) > width - 3)
      && width - 4 <= Width(t) <= width - 3
      && PadToWidth(text, width) == t + Ellipsis + Spaces(width - 3 - Width(t))
  {
    var t := Truncate(text, width - 3);
    WidthConcat(t, Ellipsis);
    forall k | |t| < k <= |text|
      ensures Width(text[..k]) > width - 3
    {
      TruncateLongest(text, width - 3, k);
    }
    if Width(t) == width - 3 {
      assert PadToWidth(text, width) == t + Ellipsis;
      assert Spaces(0) == [];
    }
  }

  /** Text that fits is padded with spaces; a zero width leaves it alone. */
  lemma PadToWidthFitExamples()
    ensures PadToWidth("Hello", 0) == "Hello"
    ensures PadToWidth("Hello", 5) == "Hello"
  {
    assert Width("Hello") == 5;
  }

  /** Short text is padded with spaces to the width. */
  lemma PadToWidthPadExample()
    ensures PadToWidth("Hi", 10) == "Hi        "
  {
    assert Width("Hi") == 2;
    assert Spaces(8) == "        ";
  }

  /** Empty text becomes all spaces; text wider than three columns cut to three is "...". */
  lemma PadToWidthEdgeExamples()
    ensures PadToWidth("", 5) == "     "
    ensures PadToWidth("Hello", 3) == "..."
  {
    assert Width("Hello") == 5;
    assert Spaces(5) == "     ";
  }

  // ---------------------------------------------------------------------------
  // MarqueeText (internal/ui/text.go:48-93).

  /** The start position exactly as written: Go's int64 product wraps, and Go's `%` keeps the
      sign of the dividend, so a negative product gives a negative position. */
  function GoPosition(now: int, speed: int, total: int): int
    requires total > 0
  {
    GoInt.Rem(GoInt.Wrap64(now * speed), total)
  }

  /** With now = 1700000001 and speed = -1 over a 10-character ring the written code starts at
      position -1, and its first index `(position + 0) % totalChars` is -1: the rune lookup
      is out of range, which panics in Go. */
  lemma GoPositionNegative()
    ensures GoPosition(1700000001, -1, 10) == -1
    ensures GoInt.Rem(GoPosition(1700000001, -1, 10) + 0, 10) < 0
  {
    GoInt.ModOf(1700000001, 10, 170000000, 1);
  }

  /** The start position as intended: the product reduced into the ring, [0, total). */
  function Position(now: int, speed: int, total: int): (p: int)
    requires total > 0
    ensures 0 <= p < total
  {
    GoInt.Mod(GoInt.Wrap64(now * speed), total)
  }

  /** Where the (wrapped) product is not negative, the intended position is the written one. */
  lemma PositionAgrees(now: int, speed: int, total: int)
    requires total > 0 && GoInt.Wrap64(now * speed) >= 0
    ensures Position(now, speed, total) == GoPosition(now, speed, total)
  {
  }

  /** `s` read circularly from index `k`. */
  function Rotate(s: string, k: int): (r: string)
    requires 0 <= k <= |s|
    ensures |r| == |s|
  {
    s[k..] + s[..k]
  }

  /** Reading the rotation at `i` reads `s` at `(k + i) % |s|`, the index the marquee loop
      computes. */
  lemma RotateAt(s: string, k: int, i: int)
    requires 0 <= k < |s| && 0 <= i < |s|
    ensures Rotate(s, k)[i] == s[(k + i) % |s|]
  {
    if k + i < |s| {
      ModBelow(k + i, |s|);
    } else {
      ModOnce(k + i, |s|);
    }
  }

  /** One step of the fill: the next code point is taken when it fits the budget, and the fill
      ends when it does not. */
  lemma FillStep(s: string, i: int, budget: int)
    requires 0 <= i < |s| && budget > 0
    ensures CharWidth(s[i]) <= budget ==>
      Fill(s[i..], budget) == [s[i]] + Fill(s[i + 1..], budget - CharWidth(s[i]))
    ensures CharWidth(s[i]) > budget ==> Fill(s[i..], budget) == []
  {
    assert s[i..][0] == s[i] && s[i..][1..] == s[i + 1..];
  }

  lemma ModBelow(a: int, n: int)
    requires 0 <= a < n
    ensures a % n == a
  {
  }

  lemma ModOnce(a: int, n: int)
    requires n <= a < 2 * n
    ensures a % n == a - n
  {
    var q, m := a / n, a % n;
    assert q * n + m == a && 0 <= m < n;
  }

  /** The marquee's greedy fill: takes code points while columns remain, stopping at the first
      that would overflow or once the budget is used up. */
  function Fill(s: string, budget: int): string
  {
    if s == [] || budget <= 0 || CharWidth(s[0]) > budget then []
    else [s[0]] + Fill(s[1..], budget - CharWidth(s[0]))
  }

  /** The fill never exceeds its budget. */
  lemma {:induction false} FillWithin(s: string, budget: int)
    ensures Width(Fill(s, budget)) <= if budget < 0 then 0 else budget
  {
    if s != [] && budget > 0 && CharWidth(s[0]) <= budget {
      FillWithin(s[1..], budget - CharWidth(s[0]));
    }
  }

  /** The fill is a prefix, and it stops early only when the budget is used up or the next
      code point would overflow it: it never splits a glyph and never skips one that fits. */
  lemma {:induction false} FillPrefix(s: string, budget: int)
    ensures Fill(s, budget) <= s
    ensures |Fill(s, budget)| < |s| ==>
      Width(Fill(s, budget)) >= budget || Width(Fill(s, budget)) + CharWidth(s[|Fill(s, budget)|]) > budget
  {
    if s != [] && budget > 0 && CharWidth(s[0]) <= budget {
      FillPrefix(s[1..], budget - CharWidth(s[0]));
    }
  }

  /** What the status line shows: the text as it is for a non-positive width, padded when it
      fits, otherwise a window on `text + separator + text` read circularly from the position
      the clock gives, filled greedily and padded to exactly `width` columns. */
  function MarqueeView(text: string, width: int, speed: int, separator: string, now: int): string
  {
    if width <= 0 then text
    else if Width(text) <= width then PadToWidth(text, width)
    else
      var ext := text + separator + text;
      var win := Fill(Rotate(ext, Position(now, speed, |ext|)), width);
      FillWithin(Rotate(ext, Position(now, speed, |ext|)), width);
      win + Spaces(width - Width(win))
  }

  /** The marquee is exactly `width` columns wide; a non-positive width shows the text as it
      is, and text that fits is only padded. */
  lemma MarqueeViewWidth(text: string, width: int, speed: int, separator: string, now: int)
    ensures width <= 0 ==> MarqueeView(text, width, speed, separator, now) == text
    ensures width > 0 ==> Width(MarqueeView(text, width, speed, separator, now)) == width
    ensures 0 < width && Width(text) <= width ==>
      MarqueeView(text, width, speed, separator, now) == PadToWidth(text, width)
  {
    if width > 0 && Width(text) > width {
      var ext := text + separator + text;
      var win := Fill(Rotate(ext, Position(now, speed, |ext|)), width);
      FillWithin(Rotate(ext, Position(now, speed, |ext|)), width);
      WidthConcat(win, Spaces(width - Width(win)));
    }
  }

  /** An overflowing text shows a run of consecutive code points of the ring, read from the
      clock's position: the run stops only when the ring is used up, the width is filled or
      the next code point would overflow; the rest of the line is spaces. */
  lemma MarqueeWindow(text: string, width: int, speed: int, separator: string, now: int)
    requires 0 < width < Width(text)
    ensures
      var ext := text + separator + text;
      var ring := Rotate(ext, Position(now, speed, |ext|));
      var v := MarqueeView(text, width, speed, separator, now);
      var n := |Fill(ring, width)|;
      && n <= |v| && n <= |ring|
      && v[..n] == ring[..n]
      && (forall k | n <= k < |v| :: v[k] == ' ')
      && (n == |ring| || Width(ring[..n]) >= width || Width(ring[..n]) + CharWidth(ring[n]) > width)
  {
    var ext := text + separator + text;
    var ring := Rotate(ext, Position(now, speed, |ext|));
    FillPrefix(ring, width);
    FillWithin(ring, width);
    var win := Fill(ring, width);
    assert win == ring[..|win|];
  }

  /** The marquee renderer: the clock gives the start position on the ring
      `text + separator + text`, the loop takes code points from there, then the rest is padded. */
  method MarqueeText(text: string, width: int, speed: int, separator: string, now: int)
    returns (out: string)
    ensures out == MarqueeView(text, width, speed, separator, now)
  {
    if width <= 0 {
      return text;
    }
    var textWidth := Width(text);
    if textWidth <= width {
      return PadToWidth(text, width);
    }
    var extended := text + separator + text;
    var position := Position(now, speed, |extended|);
    var result := RingWindow(extended, position, width);
    FillWithin(Rotate(extended, position), width);
    out := result;
    var actual := Width(out);
    if actual < width {
      out := out + Spaces(width - actual);
    } else {
      assert Spaces(width - actual) == [];
    }
  }

  /** The loop of `MarqueeText`: reads the ring circularly from `position`, appending each code
      point while it fits and columns remain. */
  method RingWindow(extended: string, position: int, width: int) returns (result: string)
    requires 0 <= position < |extended| && width > 0
    ensures result == Fill(Rotate(extended, position), width)
  {
    var totalChars := |extended|;
    ghost var ring := Rotate(extended, position);
    result := [];
    var resultWidth := 0;
    var i := 0;
    assert ring[0..] == ring;
    while i < totalChars && resultWidth < width
      invariant 0 <= i <= totalChars
      invariant resultWidth == Width(result)
      invariant result + Fill(ring[i..], width - resultWidth) == Fill(ring, width)
    {
      var idx := (position + i) % totalChars;
      var r := extended[idx];
      var rw := CharWidth(r);
      RotateAt(extended, position, i);
      FillStep(ring, i, width - resultWidth);
      if resultWidth + rw <= width {
        ghost var rest := Fill(ring[i + 1..], width - resultWidth - rw);
        assert result + ([r] + rest) == (result + [r]) + rest;
        WidthConcat(result, [r]);
        result := result + [r];
        resultWidth := resultWidth + rw;
      } else {
        break;
      }
      i := i + 1;
    }
    if i == totalChars {
      assert ring[i..] == [];
    } else if resultWidth >= width {
      assert Fill(ring[i..], width - resultWidth) == [];
    }
  }
}
