/** Per-line vertical origin, glyph runs and cursor rectangles of a frame
    (src/main.rs:383-500). Glyph positions and advances come from the font
    layout engine and enter the model as a parameter. */
module Layout {
  import Protocol
  import Viewport

  /** The font's vertical metrics at the layout scale. */
  datatype VMetrics = VMetrics(ascent: real, descent: real)

  /** A laid-out glyph: its id, pen position and horizontal advance. */
  datatype Glyph = Glyph(id: nat, x: real, y: real, advance: real)

  /** A glyph as handed to the renderer. */
  datatype GlyphInstance = GlyphInstance(index: nat, x: real, y: real)

  datatype Rect = Rect(x: real, y: real, width: real, height: real)

  /** What one line contributes to a frame: its baseline, its glyph run and
      its cursor rectangles in the order they are pushed. */
  datatype LineLayout = LineLayout(baseline: real, glyphs: seq<GlyphInstance>, cursorRects: seq<Rect>)

  /** The font layout engine: the glyphs of a text laid out from an origin
      at x = 0 and the given baseline y. */
  type GlyphLayout = (string, real) -> seq<Glyph>

  /** The gap subtracted from every baseline (src/main.rs:383-385). */
  const TopGapPx: real := 5.0

  /** A cursor is one pixel wide. */
  const CursorWidthPx: real := 1.0

  // ---------------------------------------------------------------------------
  // Geometry of one line

  /** Top of a cursor drawn on baseline `y`: half a line above the middle
      of the glyph box (src/main.rs:413-414, 476-477). */
  function CursorTop(y: real, vm: VMetrics, lh: real): real {
    y - vm.ascent - vm.descent + (vm.ascent + vm.descent) / 2.0 - lh / 2.0
  }

  function CursorRect(x: real, y: real, vm: VMetrics, lh: real): Rect {
    Rect(x, CursorTop(y, vm, lh), CursorWidthPx, lh)
  }

  /** Where the line ends: after the last glyph's advance, or 0 for an
      empty line (src/main.rs:392, 404). */
  function LineEnd(glyphs: seq<Glyph>): real {
    if |glyphs| == 0 then 0.0 else glyphs[|glyphs| - 1].x + glyphs[|glyphs| - 1].advance
  }

  function Instance(g: Glyph): GlyphInstance {
    GlyphInstance(g.id, g.x, g.y)
  }

  function GlyphRun(glyphs: seq<Glyph>): (r: seq<GlyphInstance>)
    ensures |r| == |glyphs|
  {
    seq(|glyphs|, i requires 0 <= i < |glyphs| => Instance(glyphs[i]))
  }

  /** One copy of `rect` per cursor equal to `col`, in cursor order: the
      inner loop over `line.cursors` (src/main.rs:411-426, 474-489). */
  function CursorsAt(cursors: seq<nat>, col: nat, rect: Rect): seq<Rect>
    decreases |cursors|
  {
    if |cursors| == 0 then []
    else CursorsAt(cursors[..|cursors| - 1], col, rect) + (if cursors[|cursors| - 1] == col then [rect] else [])
  }

  /** The rects pushed while the glyphs are laid out: for each glyph in
      order, one at its x for every cursor on its index. */
  function GlyphRects(glyphs: seq<Glyph>, cursors: seq<nat>, vm: VMetrics, lh: real): seq<Rect>
    decreases |glyphs|
  {
    if |glyphs| == 0 then []
    else
      var i := |glyphs| - 1;
      GlyphRects(glyphs[..i], cursors, vm, lh) + CursorsAt(cursors, i, CursorRect(glyphs[i].x, glyphs[i].y, vm, lh))
  }

  /** All cursor rects of a line on baseline `y`: those pushed during glyph
      layout, then one at the line end for every cursor equal to the glyph
      count. */
  function LineCursorRects(glyphs: seq<Glyph>, cursors: seq<nat>, y: real, vm: VMetrics, lh: real): seq<Rect> {
    GlyphRects(glyphs, cursors, vm, lh) + CursorsAt(cursors, |glyphs|, CursorRect(LineEnd(glyphs), y, vm, lh))
  }

  function LayoutLine(line: Protocol.LineContents, layout: GlyphLayout, y: real, vm: VMetrics, lh: real): LineLayout {
    var glyphs := layout(line.text, y);
    LineLayout(y, GlyphRun(glyphs), LineCursorRects(glyphs, line.cursors, y, vm, lh))
  }

  // ---------------------------------------------------------------------------
  // Reference: the rect each cursor asks for, on its own

  /** A column inside the line is drawn at its glyph, the column just past
      the last glyph at the line end, and any later column not at all. */
  function RectFor(glyphs: seq<Glyph>, y: real, vm: VMetrics, lh: real, c: nat): seq<Rect> {
    if c < |glyphs| then [CursorRect(glyphs[c].x, glyphs[c].y, vm, lh)]
    else if c == |glyphs| then [CursorRect(LineEnd(glyphs), y, vm, lh)]
    else []
  }

  function RectsByCursor(glyphs: seq<Glyph>, cursors: seq<nat>, y: real, vm: VMetrics, lh: real): seq<Rect>
    decreases |cursors|
  {
    if |cursors| == 0 then []
    else RectsByCursor(glyphs, cursors[..|cursors| - 1], y, vm, lh) + RectFor(glyphs, y, vm, lh, cursors[|cursors| - 1])
  }

  /** How many cursors sit at a column no greater than `n`, duplicates
      included. */
  function CountAtMost(cursors: seq<nat>, n: nat): nat
    decreases |cursors|
  {
    if |cursors| == 0 then 0
    else CountAtMost(cursors[..|cursors| - 1], n) + (if cursors[|cursors| - 1] <= n then 1 else 0)
  }

  // ---------------------------------------------------------------------------
  // Frame

  /** Baseline of line `k` of the window: line `first_line + k` of the
      document, one line height down per line, minus the scroll offset and
      the top gap (src/main.rs:385-388). */
  function Baseline(e: Viewport.EditorState, k: nat, lh: real): real {
    (e.firstLine + k + 1) as real * lh - e.scrollOffset - TopGapPx
  }

  function Frame(e: Viewport.EditorState, layout: GlyphLayout, vm: VMetrics, lh: real): (f: seq<LineLayout>)
    ensures |f| == |e.lines|
  {
    seq(|e.lines|, k requires 0 <= k < |e.lines| => LayoutLine(e.lines[k], layout, Baseline(e, k, lh), vm, lh))
  }

  // ---------------------------------------------------------------------------
  // Lemmas

  lemma CursorsAtAppend(cursors: seq<nat>, c: nat, col: nat, rect: Rect)
    ensures CursorsAt(cursors + [c], col, rect) == CursorsAt(cursors, col, rect) + (if c == col then [rect] else [])
  {
  }

  lemma {:induction false} GlyphRectsNoCursors(glyphs: seq<Glyph>, vm: VMetrics, lh: real)
    ensures GlyphRects(glyphs, [], vm, lh) == []
    decreases |glyphs|
  {
    if |glyphs| > 0 {
      GlyphRectsNoCursors(glyphs[..|glyphs| - 1], vm, lh);
    }
  }

  lemma {:induction false} GlyphRectsAddCursor(glyphs: seq<Glyph>, cursors: seq<nat>, c: nat, vm: VMetrics, lh: real)
    ensures multiset(GlyphRects(glyphs, cursors + [c], vm, lh)) ==
      multiset(GlyphRects(glyphs, cursors, vm, lh)) +
      (if c < |glyphs| then multiset{CursorRect(glyphs[c].x, glyphs[c].y, vm, lh)} else multiset{})
    decreases |glyphs|
  {
    if |glyphs| > 0 {
      var i := |glyphs| - 1;
      var r := CursorRect(glyphs[i].x, glyphs[i].y, vm, lh);
      var front, front' := GlyphRects(glyphs[..i], cursors, vm, lh), GlyphRects(glyphs[..i], cursors + [c], vm, lh);
      GlyphRectsAddCursor(glyphs[..i], cursors, c, vm, lh);
      CursorsAtAppend(cursors, c, i, r);
      assert multiset(GlyphRects(glyphs, cursors + [c], vm, lh)) == multiset(front') + multiset(CursorsAt(cursors + [c], i, r));
      assert multiset(GlyphRects(glyphs, cursors, vm, lh)) == multiset(front) + multiset(CursorsAt(cursors, i, r));
      assert multiset(CursorsAt(cursors + [c], i, r)) == multiset(CursorsAt(cursors, i, r)) + (if c == i then multiset{r} else multiset{});
      if c < i {
        assert glyphs[..i][c] == glyphs[c];
      }
    }
  }

  /** Up to the order in which they are pushed, a line's cursor rects are
      exactly one per cursor with column at most the glyph count: at that
      glyph's x for a column inside the line, at the line end for the
      column just past it, and none for a column further out. */
  lemma {:induction false} CursorRectsPerCursor(glyphs: seq<Glyph>, cursors: seq<nat>, y: real, vm: VMetrics, lh: real)
    ensures multiset(LineCursorRects(glyphs, cursors, y, vm, lh)) == multiset(RectsByCursor(glyphs, cursors, y, vm, lh))
    decreases |cursors|
  {
    if |cursors| == 0 {
      GlyphRectsNoCursors(glyphs, vm, lh);
    } else {
      var cs, c := cursors[..|cursors| - 1], cursors[|cursors| - 1];
      assert cursors == cs + [c];
      CursorRectsPerCursor(glyphs, cs, y, vm, lh);
      GlyphRectsAddCursor(glyphs, cs, c, vm, lh);
      CursorsAtAppend(cs, c, |glyphs|, CursorRect(LineEnd(glyphs), y, vm, lh));
      var endRect := CursorRect(LineEnd(glyphs), y, vm, lh);
      calc {
        multiset(LineCursorRects(glyphs, cursors, y, vm, lh));
        multiset(GlyphRects(glyphs, cursors, vm, lh)) + multiset(CursorsAt(cursors, |glyphs|, endRect));
        multiset(GlyphRects(glyphs, cs, vm, lh)) + multiset(CursorsAt(cs, |glyphs|, endRect)) + multiset(RectFor(glyphs, y, vm, lh, c));
        multiset(LineCursorRects(glyphs, cs, y, vm, lh)) + multiset(RectFor(glyphs, y, vm, lh, c));
        multiset(RectsByCursor(glyphs, cs, y, vm, lh)) + multiset(RectFor(glyphs, y, vm, lh, c));
        multiset(RectsByCursor(glyphs, cursors, y, vm, lh));
      }
    }
  }

  lemma {:induction false} RectsByCursorCount(glyphs: seq<Glyph>, cursors: seq<nat>, y: real, vm: VMetrics, lh: real)
    ensures |RectsByCursor(glyphs, cursors, y, vm, lh)| == CountAtMost(cursors, |glyphs|)
    decreases |cursors|
  {
    if |cursors| > 0 {
      RectsByCursorCount(glyphs, cursors[..|cursors| - 1], y, vm, lh);
    }
  }

  /** A line gets as many cursor rects as it has cursor entries with a
      column no greater than its glyph count, duplicates included. */
  lemma CursorRectCount(glyphs: seq<Glyph>, cursors: seq<nat>, y: real, vm: VMetrics, lh: real)
    ensures |LineCursorRects(glyphs, cursors, y, vm, lh)| == CountAtMost(cursors, |glyphs|)
  {
    CursorRectsPerCursor(glyphs, cursors, y, vm, lh);
    RectsByCursorCount(glyphs, cursors, y, vm, lh);
    assert |multiset(LineCursorRects(glyphs, cursors, y, vm, lh))| == |multiset(RectsByCursor(glyphs, cursors, y, vm, lh))|;
  }

  /** A single cursor at the end of a line yields exactly one rect, one
      pixel wide and a line tall, right after the last glyph's advance, or
      at 0 for an empty line. */
  lemma EndOfLineCursor(glyphs: seq<Glyph>, y: real, vm: VMetrics, lh: real)
    ensures LineCursorRects(glyphs, [|glyphs|], y, vm, lh) == [Rect(LineEnd(glyphs), CursorTop(y, vm, lh), 1.0, lh)]
    ensures |glyphs| == 0 ==> LineEnd(glyphs) == 0.0
    ensures |glyphs| > 0 ==> LineEnd(glyphs) == glyphs[|glyphs| - 1].x + glyphs[|glyphs| - 1].advance
  {
    CursorRectsPerCursor(glyphs, [|glyphs|], y, vm, lh);
    CursorRectCount(glyphs, [|glyphs|], y, vm, lh);
    var rs := LineCursorRects(glyphs, [|glyphs|], y, vm, lh);
    assert [|glyphs|][..0] == [];
    assert RectsByCursor(glyphs, [|glyphs|], y, vm, lh) == [CursorRect(LineEnd(glyphs), y, vm, lh)];
    assert |rs| == 1;
    assert rs[0] in multiset(rs);
  }

  /** A single cursor inside a line yields exactly one rect, at that
      glyph's x. */
  lemma InLineCursor(glyphs: seq<Glyph>, c: nat, y: real, vm: VMetrics, lh: real)
    requires c < |glyphs|
    ensures LineCursorRects(glyphs, [c], y, vm, lh) == [Rect(glyphs[c].x, CursorTop(glyphs[c].y, vm, lh), 1.0, lh)]
  {
    CursorRectsPerCursor(glyphs, [c], y, vm, lh);
    CursorRectCount(glyphs, [c], y, vm, lh);
    var rs := LineCursorRects(glyphs, [c], y, vm, lh);
    assert [c][..0] == [];
    assert RectsByCursor(glyphs, [c], y, vm, lh) == [CursorRect(glyphs[c].x, glyphs[c].y, vm, lh)];
    assert |rs| == 1;
    assert rs[0] in multiset(rs);
  }

  /** A cursor beyond the end of a line draws nothing. */
  lemma CursorPastEndDrawsNothing(glyphs: seq<Glyph>, c: nat, y: real, vm: VMetrics, lh: real)
    requires c > |glyphs|
    ensures LineCursorRects(glyphs, [c], y, vm, lh) == []
  {
    CursorRectCount(glyphs, [c], y, vm, lh);
    assert [c][..0] == [];
  }

  /** Line `k` of a frame sits one line height below line `k - 1`, and the
      first line one line height below `first_line * lh - offset - 5`. */
  lemma BaselineSpacing(e: Viewport.EditorState, k: nat, lh: real)
    ensures Baseline(e, 0, lh) == e.firstLine as real * lh - e.scrollOffset - TopGapPx + lh
    ensures Baseline(e, k + 1, lh) == Baseline(e, k, lh) + lh
  {
  }

  /** A window of lines without cursors draws one glyph run per line and no
      cursor rect. */
  lemma NoCursorsNoRects(e: Viewport.EditorState, layout: GlyphLayout, vm: VMetrics, lh: real)
    requires forall k | 0 <= k < |e.lines| :: e.lines[k].cursors == []
    ensures |Frame(e, layout, vm, lh)| == |e.lines|
    ensures forall k | 0 <= k < |e.lines| :: Frame(e, layout, vm, lh)[k].cursorRects == []
  {
    forall k | 0 <= k < |e.lines|
      ensures Frame(e, layout, vm, lh)[k].cursorRects == []
    {
      var y := Baseline(e, k, lh);
      CursorRectCount(layout(e.lines[k].text, y), [], y, vm, lh);
    }
  }

  // ---------------------------------------------------------------------------
  // The layout loops as the source runs them

  /** One line: walk the glyphs, tracking the line end and pushing a rect
      for every cursor on the current glyph; then push a rect at the line end
      for every cursor on the glyph count (src/main.rs:387-489). */
  method LayoutLineLoop(glyphs: seq<Glyph>, cursors: seq<nat>, y: real, vm: VMetrics, lh: real)
    returns (run: seq<GlyphInstance>, rects: seq<Rect>, lineEnd: real, lastIndex: nat)
    ensures run == GlyphRun(glyphs)
    ensures lastIndex == |glyphs| && lineEnd == LineEnd(glyphs)
    ensures rects == LineCursorRects(glyphs, cursors, y, vm, lh)
    ensures |rects| == CountAtMost(cursors, |glyphs|)
  {
    run, rects, lineEnd, lastIndex := [], [], 0.0, 0;
    var i := 0;
    while i < |glyphs|
      invariant 0 <= i <= |glyphs|
      invariant lastIndex == i
      invariant lineEnd == LineEnd(glyphs[..i])
      invariant run == GlyphRun(glyphs[..i])
      invariant rects == GlyphRects(glyphs[..i], cursors, vm, lh)
    {
      var g := glyphs[i];
      lineEnd := g.x + g.advance;
      lastIndex := i + 1;
      var rect := CursorRect(g.x, g.y, vm, lh);
      ghost var before := rects;
      var j := 0;
      while j < |cursors|
        invariant 0 <= j <= |cursors|
        invariant rects == before + CursorsAt(cursors[..j], i, rect)
      {
        if cursors[j] == i {
          rects := rects + [rect];
        }
        assert cursors[..j + 1][..j] == cursors[..j];
        j := j + 1;
      }
      assert cursors[..j] == cursors;
      run := run + [Instance(g)];
      assert glyphs[..i + 1][..i] == glyphs[..i];
      i := i + 1;
    }
    assert glyphs[..i] == glyphs;
    var endRect := CursorRect(lineEnd, y, vm, lh);
    ghost var before := rects;
    var j := 0;
    while j < |cursors|
      invariant 0 <= j <= |cursors|
      invariant rects == before + CursorsAt(cursors[..j], lastIndex, endRect)
    {
      if cursors[j] == lastIndex {
        rects := rects + [endRect];
      }
      assert cursors[..j + 1][..j] == cursors[..j];
      j := j + 1;
    }
    assert cursors[..j] == cursors;
    CursorRectCount(glyphs, cursors, y, vm, lh);
  }

  /** The whole window: the origin starts at `first_line * lh - offset - 5`
      and moves down one line height before each line is laid out. */
  method LayoutFrame(e: Viewport.EditorState, layout: GlyphLayout, vm: VMetrics, lh: real)
    returns (frame: seq<LineLayout>)
    ensures frame == Frame(e, layout, vm, lh)
    ensures forall k | 0 <= k < |frame| :: frame[k].baseline == (e.firstLine + k + 1) as real * lh - e.scrollOffset - TopGapPx
  {
    var origin := e.firstLine as real * lh - e.scrollOffset - TopGapPx;
    BaselineSpacing(e, 0, lh);
    frame := [];
    var k := 0;
    while k < |e.lines|
      invariant 0 <= k <= |e.lines|
      invariant origin + lh == Baseline(e, k, lh)
      invariant |frame| == k
      invariant forall m | 0 <= m < k :: frame[m] == Frame(e, layout, vm, lh)[m]
    {
      origin := origin + lh;
      BaselineSpacing(e, k, lh);
      var line := e.lines[k];
      var run, rects, _, _ := LayoutLineLoop(layout(line.text, origin), line.cursors, origin, vm, lh);
      frame := frame + [LineLayout(origin, run, rects)];
      k := k + 1;
    }
    assert frame == Frame(e, layout, vm, lh);
  }
}
