# text-edit view core, modelled in Dafny

text-edit is a small front end for the xi editing core. The core process owns
the document and sends the front end JSON view updates. The front end keeps a
window of visible lines (`EditorState`, `LineContents`), scrolls the view when
the core asks it to show a line, and lays out each visible line's glyphs and
cursor rectangles for the renderer. All of this lives in `src/main.rs`.

This project models the pure logic of that file:

- `json.dfy` — the JSON value tree and the accessors the decoder uses
  (`as_array`, `as_str`, `as_u64`).
- `protocol.dfy` — decoding one inbound message: the `lines`, `first_line` and
  `scrollto` fields, with one `DecodeError` per way the source panics. It also
  has an encoder in the core's wire shape and round-trip lemmas.
- `viewport.dfy` — `EditorState`, applying updates, window resizes, and the
  drain of all queued messages in one loop pass, with its dirty flag and
  pending scroll target.
- `scroll.dfy` — the scroll-to-line algorithm, over `real`.
- `layout.dfy` — per-line baselines, glyph runs and cursor rectangles. The
  font layout engine is a function parameter. Two methods follow the source's
  loops and are proved equal to the functional definitions.
- `input.dfy` — the key-to-command mapping and the filter on received
  characters.
- `mainloop.dfy` — one pass of the event loop, and the invariant that every
  pass preserves: the scroll offset stays non-negative and the dirty flag is
  clear between passes.

Points where the code behaves differently from what a reader might assume, and which the model follows:

- Cursors and selections are ordered vectors, and duplicates are kept. They are
  not sets.
- Controls may carry extra trailing elements, which are ignored.
- Scroll-to-line is idempotent only when the view is at least five lines tall.
  With a shorter view, repeated requests alternate between scrolling down and
  scrolling up (`Scroll.ShortViewOscillates`).
- Cursor rectangles are pushed in glyph order, not cursor order. The
  rectangles at the line end come last.

## Model

| member | source | states |
|---|---|---|
| `Protocol.DecodeControl` | src/main.rs:238-258 | a control is accepted iff it is an array tagged "cursor" with an unsigned 64-bit column, or tagged "sel" with two such columns; the decoded column(s) are those elements |
| `Protocol.DecodeControls` | src/main.rs:237-259 | a line's controls decode iff every one is valid, and each yields exactly one cursor or one selection |
| `Protocol.DecodeLine` | src/main.rs:220-260 | a line entry decodes iff it is a non-empty array with string text and valid controls; the text is element 0, and the cursors and selections are exactly what its controls decode to |
| `Protocol.DecodeEntries` | src/main.rs:220-261 | line entries decode iff all are valid; the result has one line per entry, in payload order |
| `Protocol.DecodeLines` | src/main.rs:218-261 | `lines` must be an array; the decoded window has its length, and entry k decodes to line k |
| `Protocol.DecodeFirstLine` | src/main.rs:264-266 | `first_line` must be an unsigned 64-bit integer and is taken as is |
| `Protocol.DecodeScrollTo` | src/main.rs:269-273 | `scrollto` must be an array whose element 0 is an unsigned 64-bit integer; that element is the target |
| `Protocol.DecodePayload` | src/main.rs:218-273 | a message decodes iff every field present is well formed; each decoded field is present exactly when its key was found |
| `Protocol.CursorColumns` | src/main.rs:241-247 | definition: the columns of the "cursor" controls, front to back; used by `Protocol.ControlsInOrder` |
| `Protocol.SelectionPairs` | src/main.rs:248-255 | definition: the (start, end) pairs of the "sel" controls, front to back; used by `Protocol.ControlsInOrder` |
| `Protocol.ControlsInOrder` | src/main.rs:237-259 | valid controls give the "cursor" columns as cursors and the "sel" pairs as selections, each in control order, however the two are interleaved |
| `Protocol.DecodedLineContents` | src/main.rs:227-260 | a decoded line is element 0 as text, the "cursor" columns in order as cursors, and the "sel" pairs in order as selections |
| `Protocol.DecodeControlsAppend` | src/main.rs:237-259 | controls are decoded in order: the cursors and selections of `a + b` are those of `a` followed by those of `b`, and an error in `a` wins |
| `Protocol.FirstBadControlDecides` | src/main.rs:237-258 | the first malformed control decides the line's error; no control is skipped |
| `Protocol.UnknownTagAborts` | src/main.rs:256-257 | a control tagged anything other than "cursor" or "sel" fails the line: "fg" as unimplemented, others as unknown |
| `Protocol.LineRoundTrip` | src/main.rs:221-260 | decoding an encoded line returns its text, cursors and selections unchanged and in order |
| `Protocol.LinesRoundTrip` | src/main.rs:218-261 | decoding an encoded `lines` array returns the same lines in the same order |
| `Protocol.PayloadRoundTrip` | src/main.rs:218-273 | decoding an encoded message returns the same update |
| `Viewport.Initial` | src/main.rs:141-148 | definition; characterised by `MainLoop.StartIsGood` |
| `Viewport.ApplyUpdate` | src/main.rs:218-266 | definition; characterised by `Viewport.DrainSpec` and `Viewport.AbsentFieldsUntouched` |
| `Viewport.Resize` | src/main.rs:192-196 | definition; characterised by `MainLoop.FrameOnlyOnChange` |
| `Viewport.DrainOne` | src/main.rs:212-276 | definition; characterised by `Viewport.AbsentFieldsUntouched` and `Viewport.DrainSpec` |
| `Viewport.DrainFrom` | src/main.rs:212-276 | definition; characterised by `Viewport.DrainSpec` |
| `Viewport.Drain` | src/main.rs:209-276 | definition; characterised by `Viewport.LinesReplacedWholesale` and, through `DrainFrom`, `Viewport.DrainSpec` |
| `Viewport.LastSome` | src/main.rs:209-273 | definition of the last present entry; characterised by `Viewport.LastSomeIsLast` |
| `Viewport.LastSomeIsLast` | src/main.rs:209-273 | "last one wins": nothing iff no entry is present, else an entry with nothing present after it |
| `Viewport.DrainSpec` | src/main.rs:209-276 | a drain aborts iff some message is malformed; otherwise lines, first line and pending target are the last ones received (earlier state if none), the view is dirty iff it was or a message arrived, and size and offset are unchanged |
| `Viewport.LinesReplacedWholesale` | src/main.rs:218-261 | after a `lines` message the window has exactly the payload's length, line k decoded from entry k, with nothing kept from before |
| `Viewport.AbsentFieldsUntouched` | src/main.rs:264-275 | a message without `first_line`, `scrollto` or `lines` leaves that part alone, and every message marks the view dirty |
| `Scroll.ScrollToLine` | src/main.rs:361-381 | the scroll offset is never negative, for any target, line height and view height |
| `Scroll.ApplyPendingScroll` | src/main.rs:361-381 | with no pending target the state is untouched; a target changes only the scroll offset and keeps it non-negative |
| `Scroll.ScrollBranches` | src/main.rs:365-380 | scrolling up puts the line top on the top margin, scrolling down puts the line bottom on the bottom margin, each clamped at 0; otherwise the offset stays |
| `Scroll.ScrollKeepsComfortableLine` | src/main.rs:369-375 | a line already inside the margins does not move the view |
| `Scroll.ScrollShowsTarget` | src/main.rs:365-380 | with a view of at least five lines the target ends inside the margins, except near the top of the document |
| `Scroll.ScrollIdempotent` | src/main.rs:365-380 | with a view of at least five lines, scrolling twice to the same line gives the same offset as once |
| `Scroll.ScrollMovesTowardTarget` | src/main.rs:369-375 | the view moves up for a line above the margins and down for one below them |
| `Scroll.ShortViewOscillates` | src/main.rs:365-375 | with a 100 px view and 22.5 px lines, requests for line 10 alternate between offsets 192.5 and 180 |
| `Scroll.ScrollDownScenario` | src/main.rs:372-374 | scrolling from 0 to line 20 of 20 px lines in a 200 px view gives 260 |
| `Layout.GlyphRects` | src/main.rs:395-426 | definition; characterised by `Layout.CursorRectsPerCursor` and `Layout.LayoutLineLoop` |
| `Layout.LineCursorRects` | src/main.rs:392-489 | definition; characterised by `Layout.CursorRectsPerCursor`, `Layout.CursorRectCount` and `Layout.LayoutLineLoop` |
| `Layout.LayoutLine` | src/main.rs:387-500 | definition; characterised by `Layout.LayoutLineLoop` |
| `Layout.Baseline` | src/main.rs:385-388 | definition; characterised by `Layout.BaselineSpacing` and `Layout.LayoutFrame` |
| `Layout.Frame` | src/main.rs:385-500 | one line layout per line of the window; characterised by `Layout.LayoutFrame` and `Layout.NoCursorsNoRects` |
| `Layout.CursorRectsPerCursor` | src/main.rs:392-489 | up to order, a line's cursor rects are one per cursor: at that glyph's x for a column inside the line, at the line end for the column just past it, none further out |
| `Layout.CursorRectCount` | src/main.rs:411-489 | a line has as many cursor rects as cursor entries with a column no greater than its glyph count, duplicates included |
| `Layout.EndOfLineCursor` | src/main.rs:392-405 | a cursor at the glyph count gives one 1-px rect, a line tall, after the last glyph's advance, or at 0 for an empty line |
| `Layout.InLineCursor` | src/main.rs:411-426 | a cursor inside the line gives one 1-px rect, a line tall, at that glyph's x |
| `Layout.CursorPastEndDrawsNothing` | src/main.rs:474-489 | a cursor past the line end gives no rect |
| `Layout.BaselineSpacing` | src/main.rs:385-388 | the first baseline is one line height below `first_line·lh − offset − 5`, and each next baseline is one line height lower |
| `Layout.NoCursorsNoRects` | src/main.rs:387-489 | a window without cursors gives one glyph run per line and no cursor rect |
| `Layout.LayoutLineLoop` | src/main.rs:387-489 | the source's glyph loop computes the glyph run, line end (0 if empty) and cursor rects of the functional model, with the expected rect count |
| `Layout.LayoutFrame` | src/main.rs:385-500 | the source's origin accumulation places line k on baseline `(first_line + k + 1)·lh − offset − 5` |
| `Input.KeyCommand` | src/main.rs:175-184 | definition; characterised by `Input.KeyCommandRoundTrip` |
| `Input.MethodName` | src/main.rs:176-182 | definition; characterised by `Input.MethodNamesDistinct` |
| `Input.CharCommand` | src/main.rs:197-204 | definition; characterised by `Input.CharFilterRanges` |
| `Input.KeyCommandRoundTrip` | src/main.rs:175-184 | the seven mapped keys and their commands determine each other, other keys send nothing, and no key sends an insertion |
| `Input.MethodNamesDistinct` | src/main.rs:176-182 | distinct kinds of command are sent under distinct method names |
| `Input.CharFilterRanges` | src/main.rs:200-202 | a received character is sent iff it lies outside U+0000–U+001F, U+007F–U+009F and U+E000–U+F8FF, and the same character is sent |
| `MainLoop.Start` | src/main.rs:141-164 | definition; characterised by `MainLoop.StartIsGood` |
| `MainLoop.HandleEvent` | src/main.rs:172-206 | definition; characterised by `MainLoop.FrameOnlyOnChange` |
| `MainLoop.Iterate` | src/main.rs:169-301 | definition; characterised by `MainLoop.IterateKeepsGood`, `MainLoop.FrameOnlyOnChange` and `MainLoop.LastScrollToWins` |
| `MainLoop.Run` | src/main.rs:169-301 | definition; characterised by `MainLoop.RunKeepsGood` |
| `MainLoop.IterateKeepsGood` | src/main.rs:166-301 | one pass keeps the scroll offset non-negative and leaves the dirty flag clear |
| `MainLoop.RunKeepsGood` | src/main.rs:169-301 | any run of passes keeps that invariant |
| `MainLoop.StartIsGood` | src/main.rs:141-168 | the start-up state has no lines and an empty first frame; it satisfies the invariant, and so does every state reached from it |
| `MainLoop.FrameOnlyOnChange` | src/main.rs:192-295 | a pass aborts iff a message is malformed; a frame is rebuilt iff the view was dirty, resized or got a message; without a frame the state is unchanged; a resize takes the new size |
| `MainLoop.LastScrollToWins` | src/main.rs:209-287 | the new offset is scroll-to-line for the last `scrollto` of the pass, and without one the offset does not move |

## Left out

- Window, OpenGL and webrender setup, display-list building and frame submission (src/main.rs:56-98, 297-300, 314-349, 491-504, `Notifier`): these are foreign rendering APIs. A frame is returned as a value.
- Spawning xi-core, the pipe writes and the reader thread with its channel (src/main.rs:104-139): these are process I/O and concurrency. A pass takes the messages already received, in order.
- The text of outbound messages, including the initial `new_tab`, `scroll` and `open` requests (src/main.rs:117-126, 176-182, 202): they are built with `format!` and no escaping. So there is no encode/decode round trip for `insert`. Only the chosen command and its method name are modelled.
- JSON text parsing and the recursive `Value::search` lookup (src/main.rs:214, 218, 264, 269): these are library calls. A message is given as what the search found for each of the three keys.
- Glyph layout, kerning and vertical metrics from rusttype (src/main.rs:357-358, 395-400): these are a font library. Glyphs come from a layout function parameter, and ascent and descent are inputs.
- The disabled debug borders around glyphs (src/main.rs:37, 430-462).
- f32 arithmetic: pixel quantities are `real`, so rounding is not modelled.
- `usize` is taken to be 64 bits wide, so the `as usize` casts of decoded columns lose nothing.
- Selections are decoded and kept, but never drawn by the source, so they are not laid out.
- The unused `height_in_lines` field.
