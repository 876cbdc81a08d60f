/** The editor's view state (`EditorState`, src/main.rs:507-540) and how the
    main loop feeds it: draining the queued messages from the editing core
    (src/main.rs:209-276) and window resizes (src/main.rs:192-196). */
module Viewport {
  import opened Wrappers
  import opened Protocol

  /** The window of lines last reported by the core, the index of its first
      line, the view size in pixels and the vertical scroll offset (0 is the
      top of the document). */
  datatype EditorState = EditorState(
    firstLine: nat,
    lines: seq<LineContents>,
    viewWidth: nat,
    viewHeight: nat,
    scrollOffset: real)

  /** The state built at start-up (src/main.rs:141-148). */
  function Initial(width: nat, height: nat): EditorState {
    EditorState(0, [], width, height, 0.0)
  }

  /** A decoded message applied to the state: `lines` replaces the whole
      window, `first_line` replaces the index, nothing else moves. */
  function ApplyUpdate(s: EditorState, u: Update): EditorState {
    s.(lines := u.lines.GetOr(s.lines), firstLine := u.firstLine.GetOr(s.firstLine))
  }

  /** A window resize: new dimensions, and the view must be redrawn. */
  function Resize(s: EditorState, width: nat, height: nat): (EditorState, bool) {
    (s.(viewWidth := width, viewHeight := height), true)
  }

  /** Where one pass of the drain loop stands: the state, the dirty flag and
      the loop-local pending scroll target. */
  datatype Drained = Drained(editor: EditorState, dirty: bool, scrollTo: Option<nat>)

  /** One message: decode it (aborting on failure), apply it, remember its
      `scrollto` if it has one, and mark the view dirty. */
  function DrainOne(d: Drained, p: Payload): Result<Drained, DecodeError> {
    var u :- DecodePayload(p);
    Ok(Drained(ApplyUpdate(d.editor, u), true, if u.scrollTo.Some? then u.scrollTo else d.scrollTo))
  }

  /** Every message in arrival order, starting from `d`. */
  function DrainFrom(d: Drained, msgs: seq<Payload>): Result<Drained, DecodeError>
    decreases |msgs|
  {
    if |msgs| == 0 then Ok(d)
    else
      var d' :- DrainFrom(d, msgs[..|msgs| - 1]);
      DrainOne(d', msgs[|msgs| - 1])
  }

  /** One drain of the queue: the pending scroll target starts out empty on
      every pass of the main loop (src/main.rs:209). */
  function Drain(s: EditorState, dirty: bool, msgs: seq<Payload>): Result<Drained, DecodeError> {
    DrainFrom(Drained(s, dirty, None), msgs)
  }

  // ---------------------------------------------------------------------------
  // Reference definitions

  /** All messages decoded, independently of any state. */
  function DecodeAll(msgs: seq<Payload>): (r: Result<seq<Update>, DecodeError>)
    ensures r.Ok? <==> forall k | 0 <= k < |msgs| :: ValidPayload(msgs[k])
    ensures r.Ok? ==> |r.value| == |msgs|
    ensures r.Ok? ==> forall k | 0 <= k < |msgs| :: DecodePayload(msgs[k]) == Ok(r.value[k])
    decreases |msgs|
  {
    if |msgs| == 0 then Ok([])
    else
      var front :- DecodeAll(msgs[..|msgs| - 1]);
      var last :- DecodePayload(msgs[|msgs| - 1]);
      Ok(front + [last])
  }

  /** The last present value of a sequence of optional values. */
  function LastSome<T>(xs: seq<Option<T>>): Option<T>
    decreases |xs|
  {
    if |xs| == 0 then None
    else if xs[|xs| - 1].Some? then xs[|xs| - 1]
    else LastSome(xs[..|xs| - 1])
  }

  function LinesOf(us: seq<Update>): (r: seq<Option<seq<LineContents>>>)
    ensures |r| == |us|
  {
    seq(|us|, k requires 0 <= k < |us| => us[k].lines)
  }

  function FirstLinesOf(us: seq<Update>): (r: seq<Option<nat>>)
    ensures |r| == |us|
  {
    seq(|us|, k requires 0 <= k < |us| => us[k].firstLine)
  }

  function ScrollTosOf(us: seq<Update>): (r: seq<Option<nat>>)
    ensures |r| == |us|
  {
    seq(|us|, k requires 0 <= k < |us| => us[k].scrollTo)
  }

  // ---------------------------------------------------------------------------
  // Lemmas

  /** `LastSome` is "the last one wins": nothing exactly when no entry is
      present, and otherwise an entry with nothing present after it. */
  lemma {:induction false} LastSomeIsLast<T>(xs: seq<Option<T>>)
    ensures LastSome(xs).None? <==> forall k | 0 <= k < |xs| :: xs[k].None?
    ensures LastSome(xs).Some? ==>
      exists k | 0 <= k < |xs| :: xs[k] == LastSome(xs) && forall j | k < j < |xs| :: xs[j].None?
    decreases |xs|
  {
    if |xs| > 0 {
      var n := |xs| - 1;
      if xs[n].Some? {
        assert xs[n] == LastSome(xs);
      } else {
        LastSomeIsLast(xs[..n]);
        assert forall k | 0 <= k < n :: xs[..n][k] == xs[k];
        if LastSome(xs).Some? {
          var k :| 0 <= k < n && xs[..n][k] == LastSome(xs) && forall j | k < j < n :: xs[..n][j].None?;
          assert xs[k] == LastSome(xs);
        }
      }
    }
  }

  /** Draining aborts exactly when some message is malformed. When it
      succeeds, `lines` is the last `lines` payload received (nothing
      accumulates across updates), `first_line` the last one received, the
      pending scroll target the last `scrollto` of this drain, the view is
      dirty iff it was or a message arrived, and the view size and scroll
      offset are untouched. */
  lemma {:induction false} DrainSpec(d: Drained, msgs: seq<Payload>)
    ensures DrainFrom(d, msgs).Ok? <==> DecodeAll(msgs).Ok?
    ensures DrainFrom(d, msgs).Ok? ==>
      var r, us := DrainFrom(d, msgs).value, DecodeAll(msgs).value;
      && r.editor.lines == LastSome(LinesOf(us)).GetOr(d.editor.lines)
      && r.editor.firstLine == LastSome(FirstLinesOf(us)).GetOr(d.editor.firstLine)
      && r.scrollTo == (if LastSome(ScrollTosOf(us)).Some? then LastSome(ScrollTosOf(us)) else d.scrollTo)
      && r.dirty == (d.dirty || |msgs| > 0)
      && r.editor.viewWidth == d.editor.viewWidth
      && r.editor.viewHeight == d.editor.viewHeight
      && r.editor.scrollOffset == d.editor.scrollOffset
    decreases |msgs|
  {
    if |msgs| > 0 {
      var n := |msgs| - 1;
      DrainSpec(d, msgs[..n]);
      if DecodeAll(msgs).Ok? {
        var us := DecodeAll(msgs).value;
        var us' := DecodeAll(msgs[..n]).value;
        assert us' == us[..n];
        assert LinesOf(us)[..n] == LinesOf(us');
        assert FirstLinesOf(us)[..n] == FirstLinesOf(us');
        assert ScrollTosOf(us)[..n] == ScrollTosOf(us');
        var d' := DrainFrom(d, msgs[..n]).value;
        DrainOneStep(d', msgs[n], us[n]);
        assert LastSome(LinesOf(us)) == if us[n].lines.Some? then us[n].lines else LastSome(LinesOf(us'));
        assert LastSome(FirstLinesOf(us)) == if us[n].firstLine.Some? then us[n].firstLine else LastSome(FirstLinesOf(us'));
        assert LastSome(ScrollTosOf(us)) == if us[n].scrollTo.Some? then us[n].scrollTo else LastSome(ScrollTosOf(us'));
      }
    }
  }

  /** One well-formed message applied after a drain prefix. */
  lemma DrainOneStep(d: Drained, p: Payload, u: Update)
    requires DecodePayload(p) == Ok(u)
    ensures DrainOne(d, p) == Ok(Drained(ApplyUpdate(d.editor, u), true, if u.scrollTo.Some? then u.scrollTo else d.scrollTo))
  {
  }

  /** A `lines` update replaces the window wholesale: afterwards it has
      exactly as many lines as the payload array, each decoded from the
      entry at the same position, with nothing kept from before. */
  lemma LinesReplacedWholesale(s: EditorState, dirty: bool, p: Payload)
    requires p.lines.Some? && ValidPayload(p)
    ensures Drain(s, dirty, [p]).Ok?
    ensures |Drain(s, dirty, [p]).value.editor.lines| == |p.lines.value.items|
    ensures forall k | 0 <= k < |p.lines.value.items| ::
      DecodeLine(p.lines.value.items[k]) == Ok(Drain(s, dirty, [p]).value.editor.lines[k])
  {
    var d := Drained(s, dirty, None);
    assert [p][..0] == [];
    assert DrainFrom(d, [p][..0]) == Ok(d);
    assert DecodePayload(p).Ok?;
  }

  /** A message without `first_line` leaves it as it was, and one without
      `scrollto` leaves the pending target as it was. */
  lemma AbsentFieldsUntouched(d: Drained, p: Payload)
    requires ValidPayload(p)
    ensures DrainOne(d, p).Ok?
    ensures p.firstLine.None? ==> DrainOne(d, p).value.editor.firstLine == d.editor.firstLine
    ensures p.scrollTo.None? ==> DrainOne(d, p).value.scrollTo == d.scrollTo
    ensures p.lines.None? ==> DrainOne(d, p).value.editor.lines == d.editor.lines
    ensures DrainOne(d, p).value.dirty
  {
  }
}
