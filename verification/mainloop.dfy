/** One pass of the main event loop (src/main.rs:166-301): handle the window
    event, drain the queued messages from the editing core, and rebuild the
    frame when something changed. Rendering and the pipes are left to the
    environment: the pass returns the command to send and the frame to
    submit. */
module MainLoop {
  import opened Wrappers
  import opened Protocol
  import Viewport
  import Scroll
  import Layout
  import Input

  datatype Event =
    | Closed
    | KeyboardInput(pressed: bool, key: Option<Input.Key>)
    | Resized(width: nat, height: nat)
    | ReceivedCharacter(ch: char)
    | OtherEvent

  /** The editor state and the dirty flag carried between passes. */
  datatype LoopState = LoopState(editor: Viewport.EditorState, dirty: bool)

  /** The window was closed, or the loop goes on with a new state, maybe a
      command for the editing core and maybe a new frame. */
  datatype Pass =
    | Exit
    | Continue(state: LoopState, sent: Option<Input.EditCommand>, frame: Option<seq<Layout.LineLayout>>)

  /** The state at start-up and the first frame, built with no scroll target
      (src/main.rs:141-164). */
  function Start(width: nat, height: nat, layout: Layout.GlyphLayout, vm: Layout.VMetrics): (LoopState, seq<Layout.LineLayout>) {
    var e := Viewport.Initial(width, height);
    (LoopState(e, false), Layout.Frame(e, layout, vm, Scroll.LineHeightPx))
  }

  /** Everything an event does besides closing the window (src/main.rs:172-206). */
  function HandleEvent(st: LoopState, ev: Event): (LoopState, Option<Input.EditCommand>)
    requires !ev.Closed?
  {
    match ev
    case KeyboardInput(pressed, key) =>
      (st, if pressed && key.Some? then Input.KeyCommand(key.value) else None)
    case Resized(w, h) =>
      var (e, dirty) := Viewport.Resize(st.editor, w, h);
      (LoopState(e, dirty), None)
    case ReceivedCharacter(c) => (st, Input.CharCommand(c))
    case OtherEvent => (st, None)
  }

  /** One pass. A malformed message aborts (the source panics). */
  function Iterate(st: LoopState, ev: Event, msgs: seq<Payload>, layout: Layout.GlyphLayout, vm: Layout.VMetrics): Result<Pass, DecodeError> {
    if ev.Closed? then Ok(Exit)
    else
      var (st1, sent) := HandleEvent(st, ev);
      var d :- Viewport.Drain(st1.editor, st1.dirty, msgs);
      if d.dirty then
        var e := Scroll.ApplyPendingScroll(d.editor, d.scrollTo, Scroll.LineHeightPx);
        Ok(Continue(LoopState(e, false), sent, Some(Layout.Frame(e, layout, vm, Scroll.LineHeightPx))))
      else
        Ok(Continue(LoopState(d.editor, false), sent, None))
  }

  /** What every reachable loop state satisfies: the scroll offset is never
      negative, and the dirty flag is clear between passes. */
  predicate Good(st: LoopState) {
    st.editor.scrollOffset >= 0.0 && !st.dirty
  }

  /** A sequence of passes; `Ok(None)` once the window is closed. */
  function Run(st: LoopState, steps: seq<(Event, seq<Payload>)>, layout: Layout.GlyphLayout, vm: Layout.VMetrics): Result<Option<LoopState>, DecodeError>
    decreases |steps|
  {
    if |steps| == 0 then Ok(Some(st))
    else
      var p :- Iterate(st, steps[0].0, steps[0].1, layout, vm);
      match p
      case Exit => Ok(None)
      case Continue(st', _, _) => Run(st', steps[1..], layout, vm)
  }

  // ---------------------------------------------------------------------------
  // Lemmas

  /** One pass keeps the loop invariant. */
  lemma IterateKeepsGood(st: LoopState, ev: Event, msgs: seq<Payload>, layout: Layout.GlyphLayout, vm: Layout.VMetrics)
    requires Good(st)
    ensures Iterate(st, ev, msgs, layout, vm).Ok? && Iterate(st, ev, msgs, layout, vm).value.Continue? ==>
      Good(Iterate(st, ev, msgs, layout, vm).value.state)
  {
    if !ev.Closed? {
      var (st1, _) := HandleEvent(st, ev);
      Viewport.DrainSpec(Viewport.Drained(st1.editor, st1.dirty, None), msgs);
    }
  }

  /** A run of passes keeps the invariant. */
  lemma {:induction false} RunKeepsGood(st: LoopState, steps: seq<(Event, seq<Payload>)>, layout: Layout.GlyphLayout, vm: Layout.VMetrics)
    requires Good(st)
    ensures var r := Run(st, steps, layout, vm);
      r.Ok? && r.value.Some? ==> Good(r.value.value)
    decreases |steps|
  {
    if |steps| > 0 {
      IterateKeepsGood(st, steps[0].0, steps[0].1, layout, vm);
      var p := Iterate(st, steps[0].0, steps[0].1, layout, vm);
      if p.Ok? && p.value.Continue? {
        RunKeepsGood(p.value.state, steps[1..], layout, vm);
      }
    }
  }

  /** The start-up state has no lines, so the first frame is empty; it
      satisfies the invariant, and so does every state reached from it by a
      run of passes. */
  lemma StartIsGood(width: nat, height: nat, layout: Layout.GlyphLayout, vm: Layout.VMetrics, steps: seq<(Event, seq<Payload>)>)
    ensures Good(Start(width, height, layout, vm).0)
    ensures Start(width, height, layout, vm).0.editor.lines == [] && Start(width, height, layout, vm).1 == []
    ensures var r := Run(Start(width, height, layout, vm).0, steps, layout, vm);
      r.Ok? && r.value.Some? ==> Good(r.value.value)
  {
    RunKeepsGood(Start(width, height, layout, vm).0, steps, layout, vm);
  }

  /** A pass other than a close aborts exactly when a queued message is
      malformed. When it goes on, a frame is built exactly when the view was
      dirty, the window was resized or a message arrived; without a frame
      the editor state is unchanged. A resize takes the new size, and with
      no message the lines and first line stay. */
  lemma FrameOnlyOnChange(st: LoopState, ev: Event, msgs: seq<Payload>, layout: Layout.GlyphLayout, vm: Layout.VMetrics)
    requires !ev.Closed?
    ensures Iterate(st, ev, msgs, layout, vm).Ok? <==> forall k | 0 <= k < |msgs| :: ValidPayload(msgs[k])
    ensures Iterate(st, ev, msgs, layout, vm).Ok? ==>
      var p := Iterate(st, ev, msgs, layout, vm).value;
      && p.Continue?
      && (p.frame.Some? <==> st.dirty || ev.Resized? || |msgs| > 0)
      && (p.frame.None? ==> p.state.editor == st.editor)
      && (p.frame.Some? ==> p.frame.value == Layout.Frame(p.state.editor, layout, vm, Scroll.LineHeightPx))
      && (ev.Resized? ==> p.state.editor.viewWidth == ev.width && p.state.editor.viewHeight == ev.height)
      && (|msgs| == 0 ==> p.state.editor.lines == st.editor.lines && p.state.editor.firstLine == st.editor.firstLine)
  {
    var (st1, _) := HandleEvent(st, ev);
    Viewport.DrainSpec(Viewport.Drained(st1.editor, st1.dirty, None), msgs);
  }

  /** Within one pass the last `scrollto` wins: the new scroll offset is the
      scroll-to-line result for the last target received, and without any
      target the offset does not move. */
  lemma LastScrollToWins(st: LoopState, ev: Event, msgs: seq<Payload>, layout: Layout.GlyphLayout, vm: Layout.VMetrics)
    requires !ev.Closed?
    requires Iterate(st, ev, msgs, layout, vm).Ok?
    ensures Viewport.DecodeAll(msgs).Ok?
    ensures var p := Iterate(st, ev, msgs, layout, vm).value;
      var targets := Viewport.ScrollTosOf(Viewport.DecodeAll(msgs).value);
      && (Viewport.LastSome(targets).None? ==> p.state.editor.scrollOffset == st.editor.scrollOffset)
      && (Viewport.LastSome(targets).Some? ==>
            p.state.editor.scrollOffset ==
            Scroll.ScrollToLine(st.editor.scrollOffset, p.state.editor.viewHeight, Scroll.LineHeightPx, Viewport.LastSome(targets).value))
  {
    var (st1, _) := HandleEvent(st, ev);
    Viewport.DrainSpec(Viewport.Drained(st1.editor, st1.dirty, None), msgs);
  }
}
