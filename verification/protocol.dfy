/** Decoding of one inbound update from the editing core: the `lines`,
    `first_line` and `scrollto` fields, each as the source reads it
    (src/main.rs:218-273). Every shape the source would panic on is an `Err`. */
module Protocol {
  import opened Wrappers
  import Json

  /** One line of the visible window: its text, cursor columns and
      selection ranges, each in the order the core listed them. */
  datatype LineContents = LineContents(text: string, cursors: seq<nat>, selections: seq<(nat, nat)>)

  /** A per-line control entry: `["cursor", col]` or `["sel", start, end]`. */
  datatype Control = Cursor(col: nat) | Sel(start: nat, end: nat)

  /** The cursors and selections gathered from a line's controls. */
  datatype Marks = Marks(cursors: seq<nat>, selections: seq<(nat, nat)>) {
    function Add(c: Control): Marks {
      match c
      case Cursor(col) => Marks(cursors + [col], selections)
      case Sel(s, e) => Marks(cursors, selections + [(s, e)])
    }

    function Concat(other: Marks): Marks {
      Marks(cursors + other.cursors, selections + other.selections)
    }
  }

  /** Each way the source aborts while reading an update. Variants named
      `...Missing` / `...Empty` are vector indexing out of bounds; the others
      are failed `expect`s, `unimplemented!` or `panic!`. */
  datatype DecodeError =
    | LinesNotArray
    | LineNotArray
    | LineEmpty
    | TextNotString
    | ControlNotArray
    | ControlEmpty
    | TagNotString
    | CursorMissing
    | CursorNotInteger
    | SelStartMissing
    | SelStartNotInteger
    | SelEndMissing
    | SelEndNotInteger
    | FgUnimplemented
    | UnknownControl(tag: string)
    | FirstLineNotInteger
    | ScrollToNotArray
    | ScrollToEmpty
    | ScrollToNotInteger

  /** What `Value::search` found for each of the three keys of a message. */
  datatype Payload = Payload(lines: Option<Json.Value>, firstLine: Option<Json.Value>, scrollTo: Option<Json.Value>)

  /** A fully decoded message: each field present exactly when the key was. */
  datatype Update = Update(lines: Option<seq<LineContents>>, firstLine: Option<nat>, scrollTo: Option<nat>)

  // ---------------------------------------------------------------------------
  // Well-formedness, stated independently of the decoder

  predicate IsU64(v: Json.Value) {
    v.Num? && v.n.Int? && 0 <= v.n.i < Json.U64Limit
  }

  /** A control the source accepts: an array whose first element is the tag
      "cursor" followed by an integer, or "sel" followed by two integers.
      Extra trailing elements are ignored. */
  predicate ValidControl(v: Json.Value) {
    && v.Array?
    && |v.items| >= 1
    && v.items[0].Str?
    && (|| (v.items[0].s == "cursor" && |v.items| >= 2 && IsU64(v.items[1]))
        || (v.items[0].s == "sel" && |v.items| >= 3 && IsU64(v.items[1]) && IsU64(v.items[2])))
  }

  /** A line entry the source accepts: a non-empty array whose first element
      is a string and whose remaining elements are all valid controls. */
  predicate ValidLine(v: Json.Value) {
    && v.Array?
    && |v.items| >= 1
    && v.items[0].Str?
    && forall i | 1 <= i < |v.items| :: ValidControl(v.items[i])
  }

  /** The columns of the "cursor"-tagged controls, front to back. */
  function CursorColumns(cs: seq<Json.Value>): seq<nat>
    requires forall i | 0 <= i < |cs| :: ValidControl(cs[i])
    decreases |cs|
  {
    if |cs| == 0 then []
    else
      assert ValidControl(cs[0]);
      var c := cs[0].items;
      (if c[0].s == "cursor" then [c[1].n.i as nat] else []) + CursorColumns(cs[1..])
  }

  /** The (start, end) pairs of the "sel"-tagged controls, front to back. */
  function SelectionPairs(cs: seq<Json.Value>): seq<(nat, nat)>
    requires forall i | 0 <= i < |cs| :: ValidControl(cs[i])
    decreases |cs|
  {
    if |cs| == 0 then []
    else
      assert ValidControl(cs[0]);
      var c := cs[0].items;
      (if c[0].s == "sel" then [(c[1].n.i as nat, c[2].n.i as nat)] else []) + SelectionPairs(cs[1..])
  }

  predicate ValidLines(v: Json.Value) {
    v.Array? && forall k | 0 <= k < |v.items| :: ValidLine(v.items[k])
  }

  predicate ValidScrollTo(v: Json.Value) {
    v.Array? && |v.items| >= 1 && IsU64(v.items[0])
  }

  predicate ValidPayload(p: Payload) {
    && (p.lines.Some? ==> ValidLines(p.lines.value))
    && (p.firstLine.Some? ==> IsU64(p.firstLine.value))
    && (p.scrollTo.Some? ==> ValidScrollTo(p.scrollTo.value))
  }

  // ---------------------------------------------------------------------------
  // The decoder

  /** One control array (src/main.rs:238-258). */
  function DecodeControl(v: Json.Value): (r: Result<Control, DecodeError>)
    ensures r.Ok? <==> ValidControl(v)
    ensures r.Ok? && r.value.Cursor? ==> v.items[0].s == "cursor" && Json.AsU64(v.items[1]) == Some(r.value.col)
    ensures r.Ok? && r.value.Sel? ==>
      v.items[0].s == "sel" && Json.AsU64(v.items[1]) == Some(r.value.start) && Json.AsU64(v.items[2]) == Some(r.value.end)
  {
    match Json.AsArray(v)
    case None => Err(ControlNotArray)
    case Some(items) =>
      if |items| == 0 then Err(ControlEmpty)
      else
        match Json.AsStr(items[0])
        case None => Err(TagNotString)
        case Some(tag) =>
          if tag == "cursor" then
            if |items| < 2 then Err(CursorMissing)
            else
              match Json.AsU64(items[1])
              case None => Err(CursorNotInteger)
              case Some(col) => Ok(Cursor(col))
          else if tag == "sel" then
            if |items| < 2 then Err(SelStartMissing)
            else
              match Json.AsU64(items[1])
              case None => Err(SelStartNotInteger)
              case Some(start) =>
                if |items| < 3 then Err(SelEndMissing)
                else
                  match Json.AsU64(items[2])
                  case None => Err(SelEndNotInteger)
                  case Some(end) => Ok(Sel(start, end))
          else if tag == "fg" then Err(FgUnimplemented)
          else Err(UnknownControl(tag))
  }

  /** The controls of a line, in order, stopping at the first bad one
      (src/main.rs:237-259). */
  function DecodeControls(cs: seq<Json.Value>): (r: Result<Marks, DecodeError>)
    ensures r.Ok? <==> forall i | 0 <= i < |cs| :: ValidControl(cs[i])
    ensures r.Ok? ==> |r.value.cursors| + |r.value.selections| == |cs|
    decreases |cs|
  {
    if |cs| == 0 then Ok(Marks([], []))
    else
      var m :- DecodeControls(cs[..|cs| - 1]);
      var c :- DecodeControl(cs[|cs| - 1]);
      Ok(m.Add(c))
  }

  /** One line entry (src/main.rs:221-260). */
  function DecodeLine(v: Json.Value): (r: Result<LineContents, DecodeError>)
    ensures r.Ok? <==> ValidLine(v)
    ensures r.Ok? ==> r.value.text == v.items[0].s
    ensures r.Ok? ==> |r.value.cursors| + |r.value.selections| == |v.items| - 1
    ensures r.Ok? ==> DecodeControls(v.items[1..]) == Ok(Marks(r.value.cursors, r.value.selections))
  {
    match Json.AsArray(v)
    case None => Err(LineNotArray)
    case Some(items) =>
      if |items| == 0 then Err(LineEmpty)
      else
        match Json.AsStr(items[0])
        case None => Err(TextNotString)
        case Some(text) =>
          var m :- DecodeControls(items[1..]);
          assert forall i | 1 <= i < |items| :: items[1..][i - 1] == items[i];
          Ok(LineContents(text, m.cursors, m.selections))
  }

  /** The line entries, in order, stopping at the first bad one. */
  function DecodeEntries(entries: seq<Json.Value>): (r: Result<seq<LineContents>, DecodeError>)
    ensures r.Ok? <==> forall k | 0 <= k < |entries| :: ValidLine(entries[k])
    ensures r.Ok? ==> |r.value| == |entries|
    ensures r.Ok? ==> forall k | 0 <= k < |entries| :: DecodeLine(entries[k]) == Ok(r.value[k])
    decreases |entries|
  {
    if |entries| == 0 then Ok([])
    else
      var front :- DecodeEntries(entries[..|entries| - 1]);
      var last :- DecodeLine(entries[|entries| - 1]);
      Ok(front + [last])
  }

  /** The `lines` field (src/main.rs:218-261). */
  function DecodeLines(v: Json.Value): (r: Result<seq<LineContents>, DecodeError>)
    ensures r.Ok? <==> ValidLines(v)
    ensures r.Ok? ==> |r.value| == |v.items|
    ensures r.Ok? ==> forall k | 0 <= k < |v.items| :: DecodeLine(v.items[k]) == Ok(r.value[k])
  {
    match Json.AsArray(v)
    case None => Err(LinesNotArray)
    case Some(entries) => DecodeEntries(entries)
  }

  /** The `first_line` field (src/main.rs:264-266). */
  function DecodeFirstLine(v: Json.Value): (r: Result<nat, DecodeError>)
    ensures r.Ok? <==> IsU64(v)
    ensures r.Ok? ==> Json.AsU64(v) == Some(r.value)
  {
    match Json.AsU64(v)
    case None => Err(FirstLineNotInteger)
    case Some(n) => Ok(n)
  }

  /** The `scrollto` field: only its element 0 is read (src/main.rs:269-273). */
  function DecodeScrollTo(v: Json.Value): (r: Result<nat, DecodeError>)
    ensures r.Ok? <==> ValidScrollTo(v)
    ensures r.Ok? ==> Json.AsU64(v.items[0]) == Some(r.value)
  {
    match Json.AsArray(v)
    case None => Err(ScrollToNotArray)
    case Some(items) =>
      if |items| == 0 then Err(ScrollToEmpty)
      else
        match Json.AsU64(items[0])
        case None => Err(ScrollToNotInteger)
        case Some(n) => Ok(n)
  }

  /** A field that is absent decodes to `None`; a present one must decode. */
  function DecodeField<T>(f: Option<Json.Value>, dec: Json.Value -> Result<T, DecodeError>): Result<Option<T>, DecodeError> {
    match f
    case None => Ok(None)
    case Some(v) =>
      var x :- dec(v);
      Ok(Some(x))
  }

  /** A whole message: `lines` first, then `first_line`, then `scrollto`,
      the order in which the source inspects them (src/main.rs:218-273). */
  function DecodePayload(p: Payload): (r: Result<Update, DecodeError>)
    ensures r.Ok? <==> ValidPayload(p)
    ensures r.Ok? ==> (r.value.lines.Some? <==> p.lines.Some?)
    ensures r.Ok? ==> (r.value.firstLine.Some? <==> p.firstLine.Some?)
    ensures r.Ok? ==> (r.value.scrollTo.Some? <==> p.scrollTo.Some?)
    ensures r.Ok? && p.lines.Some? ==> |r.value.lines.value| == |p.lines.value.items|
    ensures r.Ok? && p.lines.Some? ==>
      forall k | 0 <= k < |p.lines.value.items| :: DecodeLine(p.lines.value.items[k]) == Ok(r.value.lines.value[k])
    ensures r.Ok? && p.firstLine.Some? ==> Json.AsU64(p.firstLine.value) == r.value.firstLine
    ensures r.Ok? && p.scrollTo.Some? ==> Json.AsU64(p.scrollTo.value.items[0]) == r.value.scrollTo
  {
    var lines :- DecodeField(p.lines, DecodeLines);
    var firstLine :- DecodeField(p.firstLine, DecodeFirstLine);
    var scrollTo :- DecodeField(p.scrollTo, DecodeScrollTo);
    Ok(Update(lines, firstLine, scrollTo))
  }

  // ---------------------------------------------------------------------------
  // An encoder in the core's wire shape, the decoder's partner

  function EncodeControl(c: Control): Json.Value {
    match c
    case Cursor(col) => Json.Array([Json.Str("cursor"), Json.FromNat(col)])
    case Sel(s, e) => Json.Array([Json.Str("sel"), Json.FromNat(s), Json.FromNat(e)])
  }

  function CursorControls(cols: seq<nat>): (r: seq<Json.Value>)
    ensures |r| == |cols|
  {
    seq(|cols|, i requires 0 <= i < |cols| => EncodeControl(Cursor(cols[i])))
  }

  function SelControls(sels: seq<(nat, nat)>): (r: seq<Json.Value>)
    ensures |r| == |sels|
  {
    seq(|sels|, i requires 0 <= i < |sels| => EncodeControl(Sel(sels[i].0, sels[i].1)))
  }

  /** A line entry: the text, then one control per cursor, then one per
      selection. */
  function EncodeLine(l: LineContents): Json.Value {
    Json.Array([Json.Str(l.text)] + CursorControls(l.cursors) + SelControls(l.selections))
  }

  function EncodeLines(ls: seq<LineContents>): Json.Value {
    Json.Array(seq(|ls|, k requires 0 <= k < |ls| => EncodeLine(ls[k])))
  }

  function EncodePayload(u: Update): Payload {
    Payload(
      if u.lines.Some? then Some(EncodeLines(u.lines.value)) else None,
      if u.firstLine.Some? then Some(Json.FromNat(u.firstLine.value)) else None,
      if u.scrollTo.Some? then Some(Json.Array([Json.FromNat(u.scrollTo.value)])) else None)
  }

  /** Every column of a line fits the core's 64-bit representation. */
  predicate LineInRange(l: LineContents) {
    && (forall i | 0 <= i < |l.cursors| :: l.cursors[i] < Json.U64Limit)
    && (forall i | 0 <= i < |l.selections| :: l.selections[i].0 < Json.U64Limit && l.selections[i].1 < Json.U64Limit)
  }

  predicate UpdateInRange(u: Update) {
    && (u.lines.Some? ==> forall k | 0 <= k < |u.lines.value| :: LineInRange(u.lines.value[k]))
    && (u.firstLine.Some? ==> u.firstLine.value < Json.U64Limit)
    && (u.scrollTo.Some? ==> u.scrollTo.value < Json.U64Limit)
  }

  // ---------------------------------------------------------------------------
  // Lemmas

  /** Decoding controls distributes over concatenation: the cursors of
      `a + b` are those of `a` followed by those of `b`, and likewise the
      selections; an error in `a` wins over one in `b`. */
  lemma {:induction false} DecodeControlsAppend(a: seq<Json.Value>, b: seq<Json.Value>)
    ensures DecodeControls(a + b) ==
      match DecodeControls(a)
      case Err(e) => Err(e)
      case Ok(ma) =>
        match DecodeControls(b)
        case Err(e) => Err(e)
        case Ok(mb) => Ok(ma.Concat(mb))
    decreases |b|
  {
    if |b| == 0 {
      assert a + b == a;
      if DecodeControls(a).Ok? {
        var ma := DecodeControls(a).value;
        assert ma.Concat(Marks([], [])) == ma;
      }
    } else {
      var b' := b[..|b| - 1];
      assert (a + b)[..|a + b| - 1] == a + b';
      assert (a + b)[|a + b| - 1] == b[|b| - 1];
      DecodeControlsAppend(a, b');
      if DecodeControls(a).Ok? && DecodeControls(b').Ok? && DecodeControl(b[|b| - 1]).Ok? {
        var ma, mb', c := DecodeControls(a).value, DecodeControls(b').value, DecodeControl(b[|b| - 1]).value;
        assert ma.Concat(mb'.Add(c)) == ma.Concat(mb').Add(c);
      }
    }
  }

  /** The first invalid control decides the error: all controls before it
      are accepted, and the error is the one that control alone produces. */
  lemma {:induction false} FirstBadControlDecides(cs: seq<Json.Value>, i: nat)
    requires i < |cs|
    requires forall j | 0 <= j < i :: ValidControl(cs[j])
    requires !ValidControl(cs[i])
    ensures DecodeControls(cs) == Err(DecodeControl(cs[i]).error)
  {
    assert cs == cs[..i] + ([cs[i]] + cs[i + 1..]);
    DecodeControlsAppend(cs[..i], [cs[i]] + cs[i + 1..]);
    DecodeControlsAppend([cs[i]], cs[i + 1..]);
    assert [cs[i]][..0] == [];
  }

  /** Valid controls decode to the columns of the "cursor" controls and the
      pairs of the "sel" controls, each in control order, however the two
      kinds are interleaved. */
  lemma {:induction false} ControlsInOrder(cs: seq<Json.Value>)
    requires forall i | 0 <= i < |cs| :: ValidControl(cs[i])
    ensures DecodeControls(cs) == Ok(Marks(CursorColumns(cs), SelectionPairs(cs)))
    decreases |cs|
  {
    if |cs| > 0 {
      assert cs == [cs[0]] + cs[1..];
      DecodeControlsAppend([cs[0]], cs[1..]);
      ControlsInOrder(cs[1..]);
      SingleControlInOrder(cs[0]);
      assert [cs[0]][1..] == [];
      assert CursorColumns(cs) == CursorColumns([cs[0]]) + CursorColumns(cs[1..]);
      assert SelectionPairs(cs) == SelectionPairs([cs[0]]) + SelectionPairs(cs[1..]);
    }
  }

  lemma SingleControlInOrder(v: Json.Value)
    requires ValidControl(v)
    ensures DecodeControls([v]) == Ok(Marks(CursorColumns([v]), SelectionPairs([v])))
  {
    assert [v][..0] == [];
    assert [v][1..] == [];
    assert [v][0] == v;
    var c := DecodeControl(v).value;
    assert DecodeControls([v]) == Ok(Marks([], []).Add(c));
    if v.items[0].s == "cursor" {
      assert "cursor"[1] != "sel"[1];
      assert c == Cursor(v.items[1].n.i);
      assert Marks([], []).Add(c) == Marks([v.items[1].n.i as nat], []);
      assert CursorColumns([v]) == [v.items[1].n.i as nat];
      assert SelectionPairs([v]) == [];
    } else {
      assert c == Sel(v.items[1].n.i, v.items[2].n.i);
      assert Marks([], []).Add(c) == Marks([], [(v.items[1].n.i as nat, v.items[2].n.i as nat)]);
      assert CursorColumns([v]) == [];
      assert SelectionPairs([v]) == [(v.items[1].n.i as nat, v.items[2].n.i as nat)];
    }
  }

  /** A decoded line's text is element 0 of its entry, its cursors are the
      columns of the entry's "cursor" controls and its selections the pairs
      of its "sel" controls, each in the order the controls appear. */
  lemma DecodedLineContents(v: Json.Value)
    requires ValidLine(v)
    ensures DecodeLine(v).Ok?
    ensures DecodeLine(v).value ==
      LineContents(v.items[0].s, CursorColumns(v.items[1..]), SelectionPairs(v.items[1..]))
  {
    assert forall i | 0 <= i < |v.items[1..]| :: v.items[1..][i] == v.items[i + 1];
    ControlsInOrder(v.items[1..]);
  }

  /** A control with a tag other than "cursor" or "sel" always aborts the
      line, wherever it sits: "fg" as unimplemented, anything else as an
      unknown control. Nothing is skipped. */
  lemma UnknownTagAborts(v: Json.Value, i: nat)
    requires v.Array? && 1 <= i < |v.items|
    requires v.items[i].Array? && |v.items[i].items| >= 1 && v.items[i].items[0].Str?
    requires v.items[i].items[0].s != "cursor" && v.items[i].items[0].s != "sel"
    ensures DecodeLine(v).Err?
    ensures v.items[i].items[0].s == "fg" ==> DecodeControl(v.items[i]) == Err(FgUnimplemented)
    ensures v.items[i].items[0].s != "fg" ==> DecodeControl(v.items[i]) == Err(UnknownControl(v.items[i].items[0].s))
  {
  }

  lemma {:induction false} DecodeCursorControls(cols: seq<nat>)
    requires forall i | 0 <= i < |cols| :: cols[i] < Json.U64Limit
    ensures DecodeControls(CursorControls(cols)) == Ok(Marks(cols, []))
    decreases |cols|
  {
    if |cols| > 0 {
      var n := |cols| - 1;
      assert CursorControls(cols)[..n] == CursorControls(cols[..n]);
      DecodeCursorControls(cols[..n]);
      assert cols[..n] + [cols[n]] == cols;
    }
  }

  lemma {:induction false} DecodeSelControls(sels: seq<(nat, nat)>)
    requires forall i | 0 <= i < |sels| :: sels[i].0 < Json.U64Limit && sels[i].1 < Json.U64Limit
    ensures DecodeControls(SelControls(sels)) == Ok(Marks([], sels))
    decreases |sels|
  {
    if |sels| > 0 {
      var n := |sels| - 1;
      assert SelControls(sels)[..n] == SelControls(sels[..n]);
      DecodeSelControls(sels[..n]);
      assert sels[..n] + [sels[n]] == sels;
    }
  }

  /** Decoding an encoded line gives the line back: the text, every cursor
      and every selection, in order. */
  lemma LineRoundTrip(l: LineContents)
    requires LineInRange(l)
    ensures DecodeLine(EncodeLine(l)) == Ok(l)
  {
    var items := [Json.Str(l.text)] + CursorControls(l.cursors) + SelControls(l.selections);
    assert items[1..] == CursorControls(l.cursors) + SelControls(l.selections);
    DecodeControlsAppend(CursorControls(l.cursors), SelControls(l.selections));
    DecodeCursorControls(l.cursors);
    DecodeSelControls(l.selections);
    assert l.cursors + [] == l.cursors;
    assert [] + l.selections == l.selections;
  }

  lemma LinesRoundTrip(ls: seq<LineContents>)
    requires forall k | 0 <= k < |ls| :: LineInRange(ls[k])
    ensures DecodeLines(EncodeLines(ls)) == Ok(ls)
  {
    var v := EncodeLines(ls);
    forall k | 0 <= k < |ls|
      ensures DecodeLine(v.items[k]) == Ok(ls[k])
    {
      LineRoundTrip(ls[k]);
    }
    assert ValidLines(v);
    var r := DecodeLines(v).value;
    assert |r| == |ls|;
    assert forall k | 0 <= k < |ls| :: r[k] == ls[k];
    assert r == ls;
  }

  /** Decoding an encoded message gives the update back. */
  lemma PayloadRoundTrip(u: Update)
    requires UpdateInRange(u)
    ensures DecodePayload(EncodePayload(u)) == Ok(u)
  {
    if u.lines.Some? {
      LinesRoundTrip(u.lines.value);
    }
  }
}
