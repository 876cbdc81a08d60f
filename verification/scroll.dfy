/** The scroll-to-line step at the start of a frame (src/main.rs:359-381).
    Pixel quantities are `real`; f32 rounding is not modelled. */
module Scroll {
  import opened Wrappers
  import Viewport

  /** The font size in pixels and the line height as a multiple of it
      (src/main.rs:25-29). */
  const FontSizePx: real := 15.0
  const LineHeightFactor: real := 1.5

  /** The height of one line in pixels, 15 × 1.5 = 22.5 (src/main.rs:359). */
  const LineHeightPx: real := FontSizePx * LineHeightFactor

  /** The look-ahead kept between the target line and the view's edges. */
  function Margin(lh: real): real {
    lh * 2.0
  }

  function LineTop(line: nat, lh: real): real {
    line as real * lh
  }

  function LineBottom(line: nat, lh: real): real {
    line as real * lh + lh
  }

  /** The top and bottom of the comfortable zone of the view. */
  function ViewTop(offset: real, lh: real): real {
    offset + Margin(lh)
  }

  function ViewBottom(offset: real, viewHeight: nat, lh: real): real {
    offset + viewHeight as real - Margin(lh)
  }

  /** The target line lies inside the comfortable zone. */
  predicate Comfortable(offset: real, viewHeight: nat, lh: real, line: nat) {
    ViewTop(offset, lh) <= LineTop(line, lh) && LineBottom(line, lh) <= ViewBottom(offset, viewHeight, lh)
  }

  /** The new scroll offset for a target line: scroll up if the line is
      above the zone, else down if it is below it, else stay; then clamp at
      0. There is no upper clamp. */
  function ScrollToLine(offset: real, viewHeight: nat, lh: real, line: nat): (r: real)
    ensures r >= 0.0
  {
    var next :=
      if ViewTop(offset, lh) > LineTop(line, lh) then LineTop(line, lh) - Margin(lh)
      else if ViewBottom(offset, viewHeight, lh) < LineBottom(line, lh) then LineBottom(line, lh) - viewHeight as real + Margin(lh)
      else offset;
    if next < 0.0 then 0.0 else next
  }

  /** The frame's use of a pending target: none leaves the state as it is;
      one changes the scroll offset and nothing else (src/main.rs:361). */
  function ApplyPendingScroll(e: Viewport.EditorState, target: Option<nat>, lh: real): (r: Viewport.EditorState)
    ensures target.None? ==> r == e
    ensures r == e.(scrollOffset := r.scrollOffset)
    ensures e.scrollOffset >= 0.0 ==> r.scrollOffset >= 0.0
  {
    match target
    case None => e
    case Some(line) => e.(scrollOffset := ScrollToLine(e.scrollOffset, e.viewHeight, lh, line))
  }

  // ---------------------------------------------------------------------------
  // Lemmas

  /** Each branch puts the line exactly at the edge of the zone it crossed,
      unless that would scroll above the document top, where the offset is
      clamped to 0; in the remaining case the offset stays (clamped). */
  lemma ScrollBranches(offset: real, viewHeight: nat, lh: real, line: nat)
    ensures var r := ScrollToLine(offset, viewHeight, lh, line);
      if ViewTop(offset, lh) > LineTop(line, lh) then
        ViewTop(r, lh) == LineTop(line, lh) || (r == 0.0 && LineTop(line, lh) < Margin(lh))
      else if ViewBottom(offset, viewHeight, lh) < LineBottom(line, lh) then
        ViewBottom(r, viewHeight, lh) == LineBottom(line, lh) || (r == 0.0 && LineBottom(line, lh) < viewHeight as real - Margin(lh))
      else
        r == offset || (r == 0.0 && offset < 0.0)
  {
  }

  /** A line already in the comfortable zone does not move the view. */
  lemma ScrollKeepsComfortableLine(offset: real, viewHeight: nat, lh: real, line: nat)
    requires offset >= 0.0
    requires Comfortable(offset, viewHeight, lh, line)
    ensures ScrollToLine(offset, viewHeight, lh, line) == offset
  {
  }

  /** With a view of at least five lines, the target ends up comfortably
      visible, except that near the top of the document the view cannot
      scroll above 0 and the line then only has to lie above the bottom of
      the zone. */
  lemma ScrollShowsTarget(offset: real, viewHeight: nat, lh: real, line: nat)
    requires lh > 0.0 && viewHeight as real >= 5.0 * lh
    ensures var r := ScrollToLine(offset, viewHeight, lh, line);
      && LineBottom(line, lh) <= ViewBottom(r, viewHeight, lh)
      && (ViewTop(r, lh) <= LineTop(line, lh) || r == 0.0)
  {
  }

  /** Scrolling twice to the same line is the same as scrolling once,
      provided the view holds at least five lines. */
  lemma ScrollIdempotent(offset: real, viewHeight: nat, lh: real, line: nat)
    requires lh > 0.0 && viewHeight as real >= 5.0 * lh
    ensures var r := ScrollToLine(offset, viewHeight, lh, line);
      ScrollToLine(r, viewHeight, lh, line) == r
  {
  }

  /** The view moves towards the target: up when the line is above the
      zone, down when it is below it. */
  lemma ScrollMovesTowardTarget(offset: real, viewHeight: nat, lh: real, line: nat)
    requires offset >= 0.0
    ensures ViewTop(offset, lh) > LineTop(line, lh) ==> ScrollToLine(offset, viewHeight, lh, line) <= offset
    ensures ViewTop(offset, lh) <= LineTop(line, lh) && ViewBottom(offset, viewHeight, lh) < LineBottom(line, lh) ==>
      ScrollToLine(offset, viewHeight, lh, line) > offset
  {
  }

  /** A view shorter than five lines need not settle: with 22.5 px lines
      and a 100 px view, repeated requests for line 10 alternate between
      scrolling down and scrolling up. */
  lemma ShortViewOscillates()
    ensures ScrollToLine(0.0, 100, LineHeightPx, 10) == 192.5
    ensures ScrollToLine(192.5, 100, LineHeightPx, 10) == 180.0
    ensures ScrollToLine(180.0, 100, LineHeightPx, 10) == 192.5
  {
  }

  /** Scrolling down to line 20 of 20 px lines in a 200 px view from the
      top ends at 420 - 200 + 40. */
  lemma ScrollDownScenario()
    ensures ScrollToLine(0.0, 200, 20.0, 20) == 260.0
  {
  }
}
