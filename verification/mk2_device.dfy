/** The mk2 device (`LaunchpadMk2`'s `Device`): grid notes `(y + 1) * 10 + (x + 1)`,
    palette colours 0..127, table-driven decoding with a grid fallback, sysex
    builders for pulsing, flashing, scrolling and bulk lighting, and the
    input/output handles that `close` releases. */
module Mk2Device {
  import opened Wrappers
  import opened MidiCodes
  import opened Launchpad
  import opened Port
  import opened Mk2Sysex

  /** `CODE_NOTE_TO_DATA_TYPE`: the (status, note) pairs of the named buttons. */
  const CodeNoteToType: map<(int, int), Name> := map[
    (ON, SCENE1) := Scene1, (ON, SCENE2) := Scene2, (ON, SCENE3) := Scene3, (ON, SCENE4) := Scene4,
    (ON, SCENE5) := Scene5, (ON, SCENE6) := Scene6, (ON, SCENE7) := Scene7, (ON, SCENE8) := Scene8,
    (CC, UP) := Up, (CC, DOWN) := Down, (CC, LEFT) := Left, (CC, RIGHT) := Right,
    (CC, SESSION) := Session, (CC, USER1) := User1, (CC, USER2) := User2, (CC, MIXER) := Mixer]

  /** The options hash of `change`. `mode` is accepted and ignored. */
  datatype Opts = Opts(x: Option<int>, y: Option<int>, color: Value, mode: Value)

  // ---------------------------------------------------------------------
  // Handles

  /** A freshly opened device: the requested handles, nothing written yet
      (unlike the classic device, mk2 does not reset on opening). */
  function New(input: bool, output: bool): (d: Device)
    ensures InputEnabled(d) == input && OutputEnabled(d) == output
    ensures Closed(d) <==> !input && !output
    ensures d.log == []
  {
    Device(input, output, [])
  }

  predicate InputEnabled(d: Device) {
    d.input
  }

  predicate OutputEnabled(d: Device) {
    d.output
  }

  /** `closed?`: neither handle is held. */
  predicate Closed(d: Device) {
    !(InputEnabled(d) || OutputEnabled(d))
  }

  /** `close`: drops both handles; what was written stays written. */
  function Close(d: Device): (r: Device)
    ensures Closed(r) && !InputEnabled(r) && !OutputEnabled(r)
    ensures r.log == d.log
  {
    d.(input := false, output := false)
  }

  /** Closing twice is closing once, and a closed device stays as it is. */
  lemma CloseIdempotent(d: Device)
    ensures Close(Close(d)) == Close(d)
    ensures Closed(d) ==> Close(d) == d
  {
  }

  // ---------------------------------------------------------------------
  // Notes and colours

  /** The grid note of (x, y), or NoValidGridCoordinates. A valid note has
      tens digit y + 1 and units digit x + 1, both in 1..8. */
  function GridNote(x: Option<int>, y: Option<int>): (r: Result<int, Error>)
    ensures r.Ok? <==> ValidCoords(x, y)
    ensures r.Err? ==> r.error == NoValidGridCoordinates
    ensures r.Ok? ==> 11 <= r.value <= 88 && 1 <= r.value % 10 <= 8 && 1 <= r.value / 10 <= 8
    ensures r.Ok? ==> x.Some? && y.Some? && r.value % 10 - 1 == x.value && r.value / 10 - 1 == y.value
  {
    var cx := CoordOr(x);
    var cy := CoordOr(y);
    if cx < 0 || cx > 7 || cy < 0 || cy > 7 then Err(NoValidGridCoordinates)
    else Ok((cy + 1) * 10 + (cx + 1))
  }

  /** `note`: the table note of a named button; every other type is a grid
      cell. A note exists exactly when the button is named or its
      coordinates are valid, and sent with `change`'s status it decodes back
      to the button it came from. */
  function Note(t: ButtonType, opts: Opts): (r: Result<int, Error>)
    ensures r.Ok? <==> t.Named? || ValidCoords(opts.x, opts.y)
    ensures r.Err? ==> r.error == NoValidGridCoordinates
    ensures r.Ok? ==> 11 <= r.value <= 0x6F
    ensures r.Ok? ==> DecodeType(ChangeStatus(t), r.value) == Target(t, opts)
  {
    if t.Named? then
      NamedRoundTrip(t.name);
      Ok(NamedNote(t.name))
    else
      var r := GridNote(opts.x, opts.y);
      if r.Ok? then GridRoundTrip(opts.x.value, opts.y.value); r else r
  }

  /** An acceptable `:color`: absent, or an Integer 0..127. */
  predicate ValidColor(v: Value) {
    v.Nil? || (v.Int? && 0 <= v.i <= 127)
  }

  /** `color`: nil is off (0), an Integer 0..127 is itself, anything else is NoValidColorError. */
  function Color(v: Value): (r: Result<int, Error>)
    ensures r.Ok? <==> ValidColor(v)
    ensures r.Err? ==> r.error == NoValidColor
    ensures r.Ok? ==> 0 <= r.value <= 127
    ensures r.Ok? && v.Int? ==> r.value == v.i
    ensures v.Nil? ==> r == Ok(0)
  {
    match v
    case Nil => Ok(0)
    case Int(i) => if i < 0 || i > 127 then Err(NoValidColor) else Ok(i)
    case Sym(_) => Err(NoValidColor)
  }

  /** `velocity` of an options hash: the colour alone, 0 when absent. */
  function Velocity(opts: Opts): (r: Result<int, Error>)
    ensures r.Ok? <==> ValidColor(opts.color)
    ensures r.Err? ==> r.error == NoValidColor
    ensures r.Ok? ==> r.value == (if opts.color.Int? then opts.color.i else 0)
  {
    Color(opts.color)
  }

  /** The mode option never changes the velocity. */
  lemma VelocityIgnoresMode(opts: Opts, mode: Value)
    ensures Velocity(opts.(mode := mode)) == Velocity(opts)
  {
  }

  // ---------------------------------------------------------------------
  // Decoding

  /** The type of a raw (status, note) pair: the table's named button, or
      else a grid button whose coordinates are read off the note's digits
      with no range check. Every named result is the pair `change` sends for
      that name; every grid result re-encodes to the note it came from. */
  function DecodeType(status: int, note: int): (r: ActionType)
    ensures !r.Untyped?
    ensures r.NamedButton? <==> (status, note) in CodeNoteToType
    ensures r.NamedButton? ==> NamedNote(r.name) == note && ChangeStatus(Named(r.name)) == status
    ensures r.GridButton? ==> (r.y + 1) * 10 + (r.x + 1) == note && -1 <= r.x <= 8
  {
    TablesInverse();
    if (status, note) in CodeNoteToType then NamedButton(CodeNoteToType[(status, note)])
    else GridButton(note % 10 - 1, note / 10 - 1)
  }

  /** The two tables are inverse: each name's `change` pair maps back to the
      name, and each pair of the decoding table is the `change` pair of the
      name it maps to. */
  lemma TablesInverse()
    ensures forall n: Name ::
      && (ChangeStatus(Named(n)), NamedNote(n)) in CodeNoteToType
      && CodeNoteToType[(ChangeStatus(Named(n)), NamedNote(n))] == n
    ensures forall key :: key in CodeNoteToType ==>
      key == (ChangeStatus(Named(CodeNoteToType[key])), NamedNote(CodeNoteToType[key]))
  {
    forall n: Name
      ensures (ChangeStatus(Named(n)), NamedNote(n)) in CodeNoteToType
      ensures CodeNoteToType[(ChangeStatus(Named(n)), NamedNote(n))] == n
    {
      TableEntry(n);
    }
    forall key | key in CodeNoteToType
      ensures key == (ChangeStatus(Named(CodeNoteToType[key])), NamedNote(CodeNoteToType[key]))
    {
      TableKey(key);
    }
  }

  /** Each name's `change` pair is a key of the decoding table that maps back to it. */
  lemma TableEntry(n: Name)
    ensures (ChangeStatus(Named(n)), NamedNote(n)) in CodeNoteToType
    ensures CodeNoteToType[(ChangeStatus(Named(n)), NamedNote(n))] == n
  {
    if n.IsControl() { ControlEntry(n); } else { SceneEntry(n); }
  }

  /** `TableEntry` for the eight control buttons. */
  lemma ControlEntry(n: Name)
    requires n.IsControl()
    ensures (CC, NamedNote(n)) in CodeNoteToType && CodeNoteToType[(CC, NamedNote(n))] == n
  {
    match n
    case Up => case Down => case Left => case Right =>
    case Session => case User1 => case User2 => case Mixer =>
  }

  /** `TableEntry` for the eight scene buttons. */
  lemma SceneEntry(n: Name)
    requires !n.IsControl()
    ensures (ON, NamedNote(n)) in CodeNoteToType && CodeNoteToType[(ON, NamedNote(n))] == n
  {
    match n
    case Scene1 => case Scene2 => case Scene3 => case Scene4 =>
    case Scene5 => case Scene6 => case Scene7 => case Scene8 =>
  }

  /** Each key of the decoding table is the `change` pair of the name it maps to. */
  lemma TableKey(key: (int, int))
    requires key in CodeNoteToType
    ensures key == (ChangeStatus(Named(CodeNoteToType[key])), NamedNote(CodeNoteToType[key]))
  {
    TableEntry(CodeNoteToType[key]);
  }

  /** `read_pending_actions`: one action per pending message, in order. */
  function ReadPendingActions(d: Device, pending: seq<RawMessage>): (r: Result<seq<Action>, Error>)
    ensures r.Err? <==> !InputEnabled(d)
    ensures r.Err? ==> r.error == NoInputAllowed
    ensures r.Ok? ==> |r.value| == |pending|
    ensures r.Ok? ==> forall i :: 0 <= i < |pending| ==>
      && r.value[i].timestamp == pending[i].timestamp
      && (r.value[i].state == Pressed <==> pending[i].velocity == 127)
      && r.value[i].kind == DecodeType(pending[i].status, pending[i].note)
  {
    var batch :- Input(d, pending);
    Ok(DecodeBatch(batch, DecodeType))
  }

  /** Every grid cell's note decodes back to that cell. */
  lemma GridRoundTrip(x: int, y: int)
    requires 0 <= x <= 7 && 0 <= y <= 7
    ensures GridNote(Some(x), Some(y)).Ok?
    ensures DecodeType(ON, GridNote(Some(x), Some(y)).value) == GridButton(x, y)
  {
    var n := GridNote(Some(x), Some(y)).value;
    GridNoteIsNoSceneNote(x, y);
    assert (ON, n) !in CodeNoteToType;
  }

  /** Every named button's `change` pair decodes back to that button. */
  lemma NamedRoundTrip(n: Name)
    ensures DecodeType(ChangeStatus(Named(n)), NamedNote(n)) == NamedButton(n)
  {
    TablesInverse();
  }

  /** No scene note is a grid note: scene notes end in 9, grid notes in 1..8. */
  lemma GridNoteIsNoSceneNote(x: int, y: int)
    requires 0 <= x <= 7 && 0 <= y <= 7
    ensures forall i :: 0 <= i < 8 ==> SceneNotes[i] != (y + 1) * 10 + (x + 1)
  {
    SceneNotesFormula();
    var n := (y + 1) * 10 + (x + 1);
    assert n % 10 == x + 1;
  }

  /** Pairs outside the table decode as grid buttons whatever their status,
      and the recovered coordinates are not range-checked. */
  lemma FallbackIsUnchecked()
    ensures DecodeType(ON, 10) == GridButton(-1, 0)
    ensures DecodeType(ON, 99) == GridButton(8, 8)
    ensures DecodeType(ON, 5) == GridButton(4, -1)
    ensures DecodeType(OFF, 11) == GridButton(0, 0)
    ensures DecodeType(CC, 11) == GridButton(0, 0)
    ensures DecodeType(CC, SCENE1) == GridButton(8, 7)
  {
  }

  // ---------------------------------------------------------------------
  // change

  /** What a `change` call addresses, as a decoded action would name it. */
  function Target(t: ButtonType, opts: Opts): ActionType {
    if t.Named? then NamedButton(t.name) else GridButton(CoordOr(opts.x), CoordOr(opts.y))
  }

  /** `change`: the note is worked out first, then the colour, then the
      output handle is checked, and only then is one message written. The
      message uses CC exactly for control buttons, carries the colour as its
      velocity, and decodes back to the button that was changed. */
  function Change(d: Device, t: ButtonType, opts: Opts): (r: Effect)
    ensures r.dev.input == d.input && r.dev.output == d.output
    ensures r.raised.Some? ==> r.dev == d
    ensures !t.Named? && !ValidCoords(opts.x, opts.y) ==> r.raised == Some(NoValidGridCoordinates)
    ensures (t.Named? || ValidCoords(opts.x, opts.y)) && !ValidColor(opts.color) ==>
      r.raised == Some(NoValidColor)
    ensures (t.Named? || ValidCoords(opts.x, opts.y)) && ValidColor(opts.color) && !OutputEnabled(d) ==>
      r.raised == Some(NoOutputAllowed)
    ensures (t.Named? || ValidCoords(opts.x, opts.y)) && ValidColor(opts.color) && OutputEnabled(d) ==>
      && r.raised.None?
      && |r.dev.log| == |d.log| + 1
      && r.dev.log[..|d.log|] == d.log
      && r.dev.log[|d.log|].Short?
      && r.dev.log[|d.log|].status == ChangeStatus(t)
      && (r.dev.log[|d.log|].status == CC <==> t.Named? && t.name.IsControl())
      && r.dev.log[|d.log|].data1 == Note(t, opts).value
      && DecodeType(r.dev.log[|d.log|].status, r.dev.log[|d.log|].data1) == Target(t, opts)
      && r.dev.log[|d.log|].data2 == (if opts.color.Int? then opts.color.i else 0)
  {
    var status := ChangeStatus(t);
    match Note(t, opts)
    case Err(e) => Effect(d, Some(e))
    case Ok(note) =>
      match Velocity(opts)
      case Err(e) => Effect(d, Some(e))
      case Ok(velocity) => Output(d, status, note, velocity)
  }

  /** A named button with no options is switched off: CC and its note for a
      control button, ON and its note for a scene button, velocity 0. */
  lemma ChangeNamedWithoutOptions(d: Device, n: Name)
    requires d.output
    ensures Change(d, Named(n), Opts(None, None, Nil, Nil)) ==
      Effect(d.(log := d.log + [Short(if n.IsControl() then 0xB0 else 0x90, NamedNote(n), 0)]), None)
  {
  }

  /** A batch of a grid press and an up release decodes to the two actions, in order. */
  lemma SampleBatch()
    ensures ReadPendingActions(New(true, false), [RawMessage(1, 0x90, 11, 127), RawMessage(2, 0xB0, 0x68, 0)])
         == Ok([Action(1, Pressed, GridButton(0, 0)), Action(2, Released, NamedButton(Up))])
  {
    GridRoundTrip(0, 0);
    NamedRoundTrip(Up);
    var result := ReadPendingActions(New(true, false), [RawMessage(1, 0x90, 11, 127), RawMessage(2, 0xB0, 0x68, 0)]);
    assert result.Ok?;
    var r := result.value;
    assert |r| == 2;
    assert r[0] == Action(1, Pressed, GridButton(0, 0));
    assert r[1] == Action(2, Released, NamedButton(Up));
    assert r == [Action(1, Pressed, GridButton(0, 0)), Action(2, Released, NamedButton(Up))];
  }

  /** After `close`, reads raise NoInputAllowed and every valid `change`
      raises NoOutputAllowed without writing. */
  lemma ClosedDeviceRefuses(d: Device, t: ButtonType, opts: Opts, pending: seq<RawMessage>)
    requires t.Named? || ValidCoords(opts.x, opts.y)
    requires ValidColor(opts.color)
    ensures ReadPendingActions(Close(d), pending) == Err(NoInputAllowed)
    ensures Change(Close(d), t, opts) == Effect(Close(d), Some(NoOutputAllowed))
  {
  }

  /** `input_enabled?` and `output_enabled?` say exactly whether reading and
      writing succeed, and `closed?` exactly that both fail. */
  lemma CapabilitiesGuardIo(d: Device, t: ButtonType, opts: Opts, pending: seq<RawMessage>)
    requires t.Named? || ValidCoords(opts.x, opts.y)
    requires ValidColor(opts.color)
    ensures InputEnabled(d) <==> ReadPendingActions(d, pending).Ok?
    ensures OutputEnabled(d) <==> Change(d, t, opts).raised.None?
    ensures Closed(d) <==> ReadPendingActions(d, pending).Err? && Change(d, t, opts).raised == Some(NoOutputAllowed)
  {
  }

  // ---------------------------------------------------------------------
  // Sysex

  /** `r` is what sending one frame carrying `c` does to `d`: with output, a
      single frame that reads back as `c` is appended; without, nothing is
      written and NoOutputAllowed is raised. */
  predicate SentCommand(d: Device, r: Effect, c: Command) {
    if d.output then
      && r.raised.None?
      && r.dev.input == d.input && r.dev.output
      && |r.dev.log| == |d.log| + 1
      && r.dev.log[..|d.log|] == d.log
      && r.dev.log[|d.log|].Sysex?
      && DecodeFrame(r.dev.log[|d.log|].bytes) == Some(c)
    else
      r == Effect(d, Some(NoOutputAllowed))
  }

  /** `output_sysex` of a command's frame. */
  function SendCommand(d: Device, c: Command): (r: Effect)
    ensures SentCommand(d, r, c)
  {
    DecodeEncode(c);
    OutputSysex(d, Encode(c))
  }

  /** `pulse1`: the cell's note first (NoValidGridCoordinates, nothing
      written), then one pulse frame for that note. */
  function Pulse1(d: Device, x: Option<int>, y: Option<int>, color: int): (r: Effect)
    ensures !ValidCoords(x, y) ==> r == Effect(d, Some(NoValidGridCoordinates))
    ensures ValidCoords(x, y) ==> SentCommand(d, r, PulseAt(GridNote(x, y).value, color))
  {
    match GridNote(x, y)
    case Err(e) => Effect(d, Some(e))
    case Ok(n) => SendCommand(d, PulseAt(n, color))
  }

  /** `flash1`: as `pulse1`, with a flash frame. */
  function Flash1(d: Device, x: Option<int>, y: Option<int>, color: int): (r: Effect)
    ensures !ValidCoords(x, y) ==> r == Effect(d, Some(NoValidGridCoordinates))
    ensures ValidCoords(x, y) ==> SentCommand(d, r, FlashAt(GridNote(x, y).value, color))
  {
    match GridNote(x, y)
    case Err(e) => Effect(d, Some(e))
    case Ok(n) => SendCommand(d, FlashAt(n, color))
  }

  /** The note of a coordinate pair from a bulk list. */
  function CoordNote(c: Coord): Result<int, Error> {
    GridNote(c.x, c.y)
  }

  /** The index of the first invalid pair in a bulk list, or its length. */
  function FirstInvalid(coords: seq<Coord>): (k: nat)
    ensures k <= |coords|
    ensures forall i :: 0 <= i < k ==> ValidCoords(coords[i].x, coords[i].y)
    ensures k < |coords| ==> !ValidCoords(coords[k].x, coords[k].y)
  {
    FirstFailure(coords, CoordNote)
  }

  /** The frame a bulk builder sends for one pair: the command `cmd` makes
      of the pair's note, or the pair's coordinate error. */
  function CellFrame(cmd: int -> Command, c: Coord): Result<seq<int>, Error> {
    match CoordNote(c)
    case Err(e) => Err(e)
    case Ok(n) => Ok(Encode(cmd(n)))
  }

  /** What `notes.each { note(...); output_sysex(...) }` does, for a frame
      builder whose only failure is an invalid pair: with output, one frame
      per pair up to the first invalid one, in order, each the frame of the
      command for that pair's note; without output, nothing. */
  predicate SentPerCell(d: Device, coords: seq<Coord>, r: Effect, cmd: int -> Command) {
    var k := FirstInvalid(coords);
    && r.dev.input == d.input && r.dev.output == d.output
    && (d.output ==>
      && |r.dev.log| == |d.log| + k
      && r.dev.log[..|d.log|] == d.log
      && (forall i :: 0 <= i < k ==>
            r.dev.log[|d.log| + i] == Sysex(Encode(cmd(GridNote(coords[i].x, coords[i].y).value))))
      && r.raised == (if k < |coords| then Some(NoValidGridCoordinates) else None))
    && (!d.output ==>
      && r.dev == d
      && r.raised == (if |coords| == 0 then None
                      else if !ValidCoords(coords[0].x, coords[0].y) then Some(NoValidGridCoordinates)
                      else Some(NoOutputAllowed)))
  }

  /** Each frame a per-pair write leaves reads back as the command for its
      pair's note, and as no other command. */
  lemma SentPerCellReadsBack(d: Device, coords: seq<Coord>, r: Effect, cmd: int -> Command, i: int)
    requires d.output && SentPerCell(d, coords, r, cmd)
    requires 0 <= i < FirstInvalid(coords)
    ensures r.dev.log[|d.log| + i].Sysex?
    ensures DecodeFrame(r.dev.log[|d.log| + i].bytes) == Some(cmd(GridNote(coords[i].x, coords[i].y).value))
  {
    var c := cmd(GridNote(coords[i].x, coords[i].y).value);
    assert r.dev.log[|d.log| + i] == Sysex(Encode(c));
    DecodeEncode(c);
  }

  /** A frame builder of that kind fails on an invalid pair with
      NoValidGridCoordinates, and frames a valid pair's command. */
  lemma FrameOfCell(c: Coord, frame: Coord -> Result<seq<int>, Error>, cmd: int -> Command)
    requires forall c {:trigger frame(c)} :: frame(c) == CellFrame(cmd, c)
    ensures !ValidCoords(c.x, c.y) ==> frame(c) == Err(NoValidGridCoordinates)
    ensures ValidCoords(c.x, c.y) ==> frame(c) == Ok(Encode(cmd(GridNote(c.x, c.y).value)))
  {
  }

  /** Writing one frame per pair, for a frame builder that fails exactly on
      invalid pairs and otherwise frames a command for the pair's note. */
  lemma WriteEachPerCell(d: Device, coords: seq<Coord>, frame: Coord -> Result<seq<int>, Error>, cmd: int -> Command)
    requires forall c {:trigger frame(c)} :: frame(c) == CellFrame(cmd, c)
    ensures SentPerCell(d, coords, WriteEach(d, coords, frame), cmd)
  {
    var k := FirstInvalid(coords);
    forall i | 0 <= i < |coords|
      ensures !ValidCoords(coords[i].x, coords[i].y) ==> frame(coords[i]) == Err(NoValidGridCoordinates)
      ensures ValidCoords(coords[i].x, coords[i].y) ==> frame(coords[i]) == Ok(Encode(cmd(GridNote(coords[i].x, coords[i].y).value)))
    {
      FrameOfCell(coords[i], frame, cmd);
    }
    FirstFailureUnique(coords, frame, k);
  }

  /** `pulsen`: one pulse frame per pair, in list order, stopping at the first
      invalid pair with the frames before it already written. */
  function PulseN(d: Device, coords: seq<Coord>, color: int): (r: Effect)
    ensures SentPerCell(d, coords, r, n => PulseAt(n, color))
  {
    var frame := (c: Coord) => CellFrame(n => PulseAt(n, color), c);
    WriteEachPerCell(d, coords, frame, n => PulseAt(n, color));
    WriteEach(d, coords, frame)
  }

  /** `flashn`: as `pulsen`, with padded flash frames. */
  function FlashN(d: Device, coords: seq<Coord>, color: int): (r: Effect)
    ensures SentPerCell(d, coords, r, n => FlashAtPadded(n, color))
  {
    var frame := (c: Coord) => CellFrame(n => FlashAtPadded(n, color), c);
    WriteEachPerCell(d, coords, frame, n => FlashAtPadded(n, color));
    WriteEach(d, coords, frame)
  }

  /** `pulsen` on a list is `pulse1` on its head followed, if that raised
      nothing, by `pulsen` on the rest. */
  lemma PulseNIsRepeatedPulse1(d: Device, c: Coord, rest: seq<Coord>, color: int)
    ensures var e := Pulse1(d, c.x, c.y, color);
      PulseN(d, [c] + rest, color) == (if e.raised.Some? then e else PulseN(e.dev, rest, color))
  {
    assert ([c] + rest)[0] == c;
    assert ([c] + rest)[1..] == rest;
  }

  /** `flashn` on a list is `flash1`'s steps, each frame carrying the padded body. */
  lemma FlashNIsRepeatedPaddedFlash(d: Device, c: Coord, rest: seq<Coord>, color: int)
    ensures ValidCoords(c.x, c.y) ==>
      var e := SendCommand(d, FlashAtPadded(GridNote(c.x, c.y).value, color));
      FlashN(d, [c] + rest, color) == (if e.raised.Some? then e else FlashN(e.dev, rest, color))
    ensures !ValidCoords(c.x, c.y) ==>
      FlashN(d, [c] + rest, color) == Flash1(d, c.x, c.y, color)
  {
    assert ([c] + rest)[0] == c;
    assert ([c] + rest)[1..] == rest;
  }

  /** `scroll`: text scrolling in `color`; mode 1 repeats, 0 scrolls once. */
  function Scroll(d: Device, color: int, text: string, mode: int): (r: Effect)
    ensures SentCommand(d, r, ScrollText(color, mode, text))
  {
    SendCommand(d, ScrollText(color, mode, text))
  }

  function ScrollForever(d: Device, color: int, text: string): (r: Effect)
    ensures SentCommand(d, r, ScrollText(color, 1, text))
  {
    Scroll(d, color, text, 1)
  }

  function ScrollOnce(d: Device, color: int, text: string): (r: Effect)
    ensures SentCommand(d, r, ScrollText(color, 0, text))
  {
    Scroll(d, color, text, 0)
  }

  /** `scroll_stop`: the bare scroll command. */
  function ScrollStop(d: Device): (r: Effect)
    ensures SentCommand(d, r, StopScroll)
  {
    SendCommand(d, StopScroll)
  }

  /** `light_all`: every LED in one colour. */
  function LightAll(d: Device, color: int): (r: Effect)
    ensures SentCommand(d, r, AllLeds(color))
  {
    SendCommand(d, AllLeds(color))
  }

  /** `reset_all`: every LED off. */
  function ResetAll(d: Device): (r: Effect)
    ensures SentCommand(d, r, AllLeds(0))
    ensures r == LightAll(d, 0)
  {
    LightAll(d, 0)
  }

  function Light1Column(d: Device, column: int, color: int): (r: Effect)
    ensures SentCommand(d, r, Column(column, color))
  {
    SendCommand(d, Column(column, color))
  }

  function Light1Row(d: Device, row: int, color: int): (r: Effect)
    ensures SentCommand(d, r, Row(row, color))
  {
    SendCommand(d, Row(row, color))
  }

  /** What a bulk builder with no validation does: with output, one frame
      per element in list order, each the frame of the element's command,
      and nothing raised; without, nothing written, and NoOutputAllowed
      unless the list is empty. */
  predicate SentPerElement(d: Device, keys: seq<int>, r: Effect, cmd: int -> Command) {
    && r.dev.input == d.input && r.dev.output == d.output
    && (d.output ==>
      && r.raised.None?
      && |r.dev.log| == |d.log| + |keys|
      && r.dev.log[..|d.log|] == d.log
      && (forall i :: 0 <= i < |keys| ==> r.dev.log[|d.log| + i] == Sysex(Encode(cmd(keys[i])))))
    && (!d.output ==>
      r == Effect(d, if |keys| == 0 then None else Some(NoOutputAllowed)))
  }

  /** Each frame a per-element write leaves reads back as that element's
      command, and as no other command. */
  lemma SentPerElementReadsBack(d: Device, keys: seq<int>, r: Effect, cmd: int -> Command, i: int)
    requires d.output && SentPerElement(d, keys, r, cmd)
    requires 0 <= i < |keys|
    ensures r.dev.log[|d.log| + i].Sysex?
    ensures DecodeFrame(r.dev.log[|d.log| + i].bytes) == Some(cmd(keys[i]))
  {
    assert r.dev.log[|d.log| + i] == Sysex(Encode(cmd(keys[i])));
    DecodeEncode(cmd(keys[i]));
  }

  /** Writing one frame per element, for a frame builder that never fails. */
  lemma WriteEachPerElement(d: Device, keys: seq<int>, frame: int -> Result<seq<int>, Error>, cmd: int -> Command)
    requires forall k {:trigger frame(k)} :: frame(k) == Ok(Encode(cmd(k)))
    ensures SentPerElement(d, keys, WriteEach(d, keys, frame), cmd)
  {
    forall i | 0 <= i < |keys|
      ensures frame(keys[i]) == Ok(Encode(cmd(keys[i])))
    {
      var key := keys[i];
      var expected: Result<seq<int>, Error> := Ok(Encode(cmd(key)));
      assert frame(key) == expected;
    }
    FirstFailureUnique(keys, frame, |keys|);
  }

  /** `lightn_column`: one column frame per column key, in order. */
  function LightNColumn(d: Device, columns: seq<int>, color: int): (r: Effect)
    ensures SentPerElement(d, columns, r, c => Column(c, color))
  {
    var frame := (c: int) => Ok(Encode(Column(c, color)));
    WriteEachPerElement(d, columns, frame, c => Column(c, color));
    WriteEach(d, columns, frame)
  }

  /** `lightn_row`: one row frame per row key, in order. */
  function LightNRow(d: Device, rows: seq<int>, color: int): (r: Effect)
    ensures SentPerElement(d, rows, r, c => Row(c, color))
  {
    var frame := (c: int) => Ok(Encode(Row(c, color)));
    WriteEachPerElement(d, rows, frame, c => Row(c, color));
    WriteEach(d, rows, frame)
  }
}
