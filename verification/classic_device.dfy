/** The classic device (`Launchpad`'s `Device`): grid notes `16 * y + x`,
    red/green brightness packed into the velocity with a mode flag, decoding
    by status with scene notes tried before the grid, and the fixed reset
    message. */
module ClassicDevice {
  import opened Wrappers
  import opened MidiCodes
  import opened Launchpad
  import opened Port

  /** The options hash of `change`. */
  datatype Opts = Opts(x: Option<int>, y: Option<int>, red: Value, green: Value, mode: Value)

  /** The grid cells whose notes are also scene notes: (5, 4), (1, 3), (7, 2), (3, 1). */
  const CollidingCells: set<(int, int)> := {(5, 4), (1, 3), (7, 2), (3, 1)}

  // ---------------------------------------------------------------------
  // Handles and fixed messages

  /** A freshly opened device: the requested handles; opening with output
      resets the device, so the reset message is the first thing written. */
  function New(input: bool, output: bool): (d: Device)
    ensures d.input == input && d.output == output
    ensures output ==> d.log == [Short(0xB0, 0x00, 0x00)]
    ensures !output ==> d.log == []
  {
    var d := Device(input, output, []);
    if output then Reset(d).dev else d
  }

  /** `reset`: the single message `(0xB0, 0x00, 0x00)`, which switches every LED off. */
  function Reset(d: Device): (r: Effect)
    ensures r.raised.None? <==> d.output
    ensures r.raised.Some? ==> r == Effect(d, Some(NoOutputAllowed))
    ensures r.raised.None? ==> r.dev == d.(log := d.log + [Short(0xB0, 0x00, 0x00)])
  {
    Output(d, CC, NIL, NIL)
  }

  // ---------------------------------------------------------------------
  // Notes

  /** The grid note of (x, y), or NoValidGridCoordinates. A valid note
      holds x in its low four bits and y above them. */
  function GridNote(x: Option<int>, y: Option<int>): (r: Result<int, Error>)
    ensures r.Ok? <==> ValidCoords(x, y)
    ensures r.Err? ==> r.error == NoValidGridCoordinates
    ensures r.Ok? ==> 0 <= r.value <= 119
    ensures r.Ok? ==> x.Some? && y.Some? && r.value % 16 == x.value && r.value / 16 == y.value
  {
    var cx := CoordOr(x);
    var cy := CoordOr(y);
    if cx < 0 || cx > 7 || cy < 0 || cy > 7 then Err(NoValidGridCoordinates)
    else Ok(cy * 16 + cx)
  }

  /** `note`: the constant of a named button; every other type is a grid
      cell. A note exists exactly when the button is named or its
      coordinates are valid; a named button's note decodes back to it with
      `change`'s status, and a grid note holds the cell's coordinates. */
  function Note(t: ButtonType, opts: Opts): (r: Result<int, Error>)
    ensures r.Ok? <==> t.Named? || ValidCoords(opts.x, opts.y)
    ensures r.Err? ==> r.error == NoValidGridCoordinates
    ensures r.Ok? ==> 0 <= r.value <= 119
    ensures r.Ok? && t.Named? ==> DecodeType(ChangeStatus(t), r.value) == NamedButton(t.name)
    ensures r.Ok? && !t.Named? ==> r.value % 16 == opts.x.value && r.value / 16 == opts.y.value
  {
    if t.Named? then
      NamedRoundTrip(t.name);
      Ok(NamedNote(t.name))
    else GridNote(opts.x, opts.y)
  }

  // ---------------------------------------------------------------------
  // Brightness and velocity

  /** The values `brightness` accepts for each level 0..3. */
  function Aliases(level: int): set<Value> {
    if level == 0 then {Int(0), Sym("off")}
    else if level == 1 then {Int(1), Sym("low"), Sym("lo")}
    else if level == 2 then {Int(2), Sym("medium"), Sym("med")}
    else if level == 3 then {Int(3), Sym("high"), Sym("hi")}
    else {}
  }

  /** `brightness`: one of the four levels, by number or by name, or NoValidBrightnessError. */
  function Brightness(v: Value): (r: Result<int, Error>)
    ensures r.Ok? ==> 0 <= r.value <= 3 && v in Aliases(r.value)
    ensures r.Err? ==> r.error == NoValidBrightness
    ensures r.Err? <==> forall level :: 0 <= level <= 3 ==> v !in Aliases(level)
  {
    match v
    case Int(i) => if 0 <= i <= 3 then Ok(i) else Err(NoValidBrightness)
    case Sym(s) =>
      if s == "off" then Ok(0)
      else if s == "low" || s == "lo" then Ok(1)
      else if s == "medium" || s == "med" then Ok(2)
      else if s == "high" || s == "hi" then Ok(3)
      else Err(NoValidBrightness)
    case Nil => Err(NoValidBrightness)
  }

  /** `opts[:red] || 0`: an absent brightness is level 0. */
  function OrZero(v: Value): Value {
    if v.Nil? then Int(0) else v
  }

  /** The mode flag: 8 for `:flashing`, 0 for `:buffering`, 12 for anything else. */
  function ModeFlag(mode: Value): (flag: int)
    ensures flag == 0 || flag == 8 || flag == 12
    ensures flag == 8 <==> mode == Sym("flashing")
    ensures flag == 0 <==> mode == Sym("buffering")
  {
    if mode == Sym("flashing") then 8
    else if mode == Sym("buffering") then 0
    else 12
  }

  /** `velocity` of an options hash: `16 * green + red + flag`. Red is
      checked before green. The result's high bits are the green level and
      its low four bits the red level plus the flag. */
  function Velocity(opts: Opts): (r: Result<int, Error>)
    ensures r.Ok? <==> Brightness(OrZero(opts.red)).Ok? && Brightness(OrZero(opts.green)).Ok?
    ensures r.Err? ==> r.error == NoValidBrightness
    ensures r.Ok? ==> 0 <= r.value <= 63
    ensures r.Ok? ==> r.value / 16 == Brightness(OrZero(opts.green)).value
    ensures r.Ok? ==> r.value % 16 == Brightness(OrZero(opts.red)).value + ModeFlag(opts.mode)
  {
    var red :- Brightness(OrZero(opts.red));
    var green :- Brightness(OrZero(opts.green));
    Ok(16 * green + red + ModeFlag(opts.mode))
  }

  /** Two option hashes with the same velocity have the same red level, the
      same green level and the same mode flag: the packing is injective over
      the 4 x 4 x 3 domain. */
  lemma VelocityInjective(a: Opts, b: Opts)
    requires Velocity(a).Ok? && Velocity(b).Ok? && Velocity(a) == Velocity(b)
    ensures Brightness(OrZero(a.red)) == Brightness(OrZero(b.red))
    ensures Brightness(OrZero(a.green)) == Brightness(OrZero(b.green))
    ensures ModeFlag(a.mode) == ModeFlag(b.mode)
  {
    var v := Velocity(a).value;
    var ra, rb := Brightness(OrZero(a.red)).value, Brightness(OrZero(b.red)).value;
    var fa, fb := ModeFlag(a.mode), ModeFlag(b.mode);
    assert ra + fa == rb + fb == v % 16;
  }

  // ---------------------------------------------------------------------
  // Decoding

  /** The type of a raw (status, note) pair. With ON, the scene notes are
      tried before the grid; with CC, only the control notes have a type;
      any other status has none. Every named result is the pair `change`
      sends for that name; every grid result re-encodes to its note. */
  function DecodeType(status: int, note: int): (r: ActionType)
    ensures r.GridButton? <==> status == ON && note !in SceneNotes
    ensures r.GridButton? ==> 16 * r.y + r.x == note && 0 <= r.x <= 15
    ensures r.NamedButton? ==> NamedNote(r.name) == note && ChangeStatus(Named(r.name)) == status
    ensures r.Untyped? <==> status != ON && (status != CC || note !in ControlNotes)
  {
    if status == ON then
      if note == SCENE1 then NamedButton(Scene1)
      else if note == SCENE2 then NamedButton(Scene2)
      else if note == SCENE3 then NamedButton(Scene3)
      else if note == SCENE4 then NamedButton(Scene4)
      else if note == SCENE5 then NamedButton(Scene5)
      else if note == SCENE6 then NamedButton(Scene6)
      else if note == SCENE7 then NamedButton(Scene7)
      else if note == SCENE8 then NamedButton(Scene8)
      else GridButton(note % 16, note / 16)
    else if status == CC then
      if note == UP then NamedButton(Up)
      else if note == DOWN then NamedButton(Down)
      else if note == LEFT then NamedButton(Left)
      else if note == RIGHT then NamedButton(Right)
      else if note == SESSION then NamedButton(Session)
      else if note == USER1 then NamedButton(User1)
      else if note == USER2 then NamedButton(User2)
      else if note == MIXER then NamedButton(Mixer)
      else Untyped
    else Untyped
  }

  /** `read_pending_actions`: one action per pending message, in order. */
  function ReadPendingActions(d: Device, pending: seq<RawMessage>): (r: Result<seq<Action>, Error>)
    ensures r.Err? <==> !d.input
    ensures r.Err? ==> r.error == NoInputAllowed
    ensures r.Ok? ==> |r.value| == |pending|
    ensures r.Ok? ==> forall i :: 0 <= i < |pending| ==>
      && r.value[i].timestamp == pending[i].timestamp
      && (r.value[i].state == Pressed <==> pending[i].velocity == 127)
      && r.value[i].kind == DecodeType(pending[i].status, pending[i].note)
  {
    var batch :- Input(d, pending);
    Ok(DecodeBatch(batch, DecodeType))
  }

  /** Every named button's `change` pair decodes back to that button. */
  lemma NamedRoundTrip(n: Name)
    ensures DecodeType(ChangeStatus(Named(n)), NamedNote(n)) == NamedButton(n)
  {
  }

  /** A grid cell's note is a scene note exactly for the four colliding cells. */
  lemma GridNoteIsSceneNote(x: int, y: int)
    requires 0 <= x <= 7 && 0 <= y <= 7
    ensures 16 * y + x in SceneNotes <==> (x, y) in CollidingCells
  {
    if 16 * y + x in SceneNotes {
      var i :| 0 <= i < 8 && SceneNotes[i] == 16 * y + x;
    }
  }

  /** The grid round trip: a cell's note decodes back to that cell exactly
      when the cell is not one of the four whose note is a scene note. */
  lemma GridRoundTrip(x: int, y: int)
    requires 0 <= x <= 7 && 0 <= y <= 7
    ensures GridNote(Some(x), Some(y)).Ok?
    ensures DecodeType(ON, GridNote(Some(x), Some(y)).value) == GridButton(x, y) <==> (x, y) !in CollidingCells
  {
    GridNoteIsSceneNote(x, y);
  }

  /** The four colliding cells decode as scene buttons 3, 5, 6 and 8. */
  lemma CollidingCellsDecodeAsScenes()
    ensures DecodeType(ON, GridNote(Some(5), Some(4)).value) == NamedButton(Scene3)
    ensures DecodeType(ON, GridNote(Some(1), Some(3)).value) == NamedButton(Scene5)
    ensures DecodeType(ON, GridNote(Some(7), Some(2)).value) == NamedButton(Scene6)
    ensures DecodeType(ON, GridNote(Some(3), Some(1)).value) == NamedButton(Scene8)
  {
  }

  // ---------------------------------------------------------------------
  // change, test_leds, change_all

  /** What a `change` call addresses, as a decoded action would name it. */
  function Target(t: ButtonType, opts: Opts): ActionType {
    if t.Named? then NamedButton(t.name) else GridButton(CoordOr(opts.x), CoordOr(opts.y))
  }

  /** `change`: the note is worked out first, then the velocity, then the
      output handle is checked, and only then is one message written. The
      message uses CC exactly for control buttons and carries the packed
      velocity; it decodes back to the button that was changed unless that
      button is one of the four colliding grid cells. */
  function Change(d: Device, t: ButtonType, opts: Opts): (r: Effect)
    ensures r.dev.input == d.input && r.dev.output == d.output
    ensures r.raised.Some? ==> r.dev == d
    ensures !t.Named? && !ValidCoords(opts.x, opts.y) ==> r.raised == Some(NoValidGridCoordinates)
    ensures (t.Named? || ValidCoords(opts.x, opts.y)) && Velocity(opts).Err? ==>
      r.raised == Some(NoValidBrightness)
    ensures (t.Named? || ValidCoords(opts.x, opts.y)) && Velocity(opts).Ok? && !d.output ==>
      r.raised == Some(NoOutputAllowed)
    ensures (t.Named? || ValidCoords(opts.x, opts.y)) && Velocity(opts).Ok? && d.output ==>
      && r.raised.None?
      && |r.dev.log| == |d.log| + 1
      && r.dev.log[..|d.log|] == d.log
      && r.dev.log[|d.log|].Short?
      && r.dev.log[|d.log|].status == ChangeStatus(t)
      && (r.dev.log[|d.log|].status == CC <==> t.Named? && t.name.IsControl())
      && r.dev.log[|d.log|].data1 == Note(t, opts).value
      && r.dev.log[|d.log|].data2 == Velocity(opts).value
      && (DecodeType(r.dev.log[|d.log|].status, r.dev.log[|d.log|].data1) == Target(t, opts) <==>
          t.Named? || (CoordOr(opts.x), CoordOr(opts.y)) !in CollidingCells)
  {
    var status := ChangeStatus(t);
    match Note(t, opts)
    case Err(e) => Effect(d, Some(e))
    case Ok(note) =>
      match Velocity(opts)
      case Err(e) => Effect(d, Some(e))
      case Ok(velocity) =>
        if t.Named? then NamedRoundTrip(t.name); Output(d, status, note, velocity)
        else GridRoundTrip(opts.x.value, opts.y.value); Output(d, status, note, velocity)
  }

  /** `change(:up)` with no options writes velocity 12: off, with the normal flag. */
  lemma ChangeUpWithoutOptions(d: Device)
    requires d.output
    ensures Change(d, Named(Up), Opts(None, None, Nil, Nil, Nil)) == Effect(d.(log := d.log + [Short(0xB0, 0x68, 12)]), None)
  {
  }

  /** `test_leds`: the brightness is checked first; level 0 is a reset. The
      other levels write a message built from constants this model does not
      have, and are marked NotModelled without a write. */
  function TestLeds(d: Device, brightness: Value): (r: Effect)
    ensures Brightness(brightness).Err? ==> r == Effect(d, Some(NoValidBrightness))
    ensures Brightness(brightness) == Ok(0) ==> r == Reset(d)
    ensures brightness in Aliases(0) ==> r == Reset(d)
  {
    match Brightness(brightness)
    case Err(e) => Effect(d, Some(e))
    case Ok(level) => if level == 0 then Reset(d) else Effect(d, Some(NotModelled))
  }

  /** The colour list `change_all` sends: the first 80 values, padded with
      zeros to exactly 80. */
  function Normalise(colors: seq<int>): (r: seq<int>)
    ensures |r| == 80
    ensures forall i :: 0 <= i < 80 ==> r[i] == (if i < |colors| then colors[i] else 0)
  {
    if |colors| >= 80 then colors[..80] else colors + seq(80 - |colors|, _ => 0)
  }

  /** Normalising a normalised list changes nothing, and a list of exactly
      80 values is already normal. */
  lemma NormaliseIdempotent(colors: seq<int>)
    ensures Normalise(Normalise(colors)) == Normalise(colors)
    ensures |colors| == 80 ==> Normalise(colors) == colors
  {
  }

  /** The 40 pairs `change_all` iterates over, in order. */
  function Slices(colors: seq<int>): (pairs: seq<(int, int)>)
    ensures |pairs| == 40
    ensures forall j :: 0 <= j < 40 ==> pairs[j] == (Normalise(colors)[2 * j], Normalise(colors)[2 * j + 1])
  {
    var n := Normalise(colors);
    seq(40, j requires 0 <= j < 40 => (n[2 * j], n[2 * j + 1]))
  }

  /** Flattening the pairs gives back the normalised list. */
  function Unslice(pairs: seq<(int, int)>): (r: seq<int>)
    ensures |r| == 2 * |pairs|
    ensures forall j :: 0 <= j < |pairs| ==> r[2 * j] == pairs[j].0 && r[2 * j + 1] == pairs[j].1
    decreases |pairs|
  {
    if |pairs| == 0 then [] else [pairs[0].0, pairs[0].1] + Unslice(pairs[1..])
  }

  lemma SlicesCoverNormalised(colors: seq<int>)
    ensures Unslice(Slices(colors)) == Normalise(colors)
  {
    var u := Unslice(Slices(colors));
    var n := Normalise(colors);
    var p := Slices(colors);
    forall i | 0 <= i < 80
      ensures u[i] == n[i]
    {
      var j := i / 2;
      assert u[2 * j] == p[j].0 == n[2 * j];
      assert u[2 * j + 1] == p[j].1 == n[2 * j + 1];
      assert i == 2 * j || i == 2 * j + 1;
    }
  }

  // ---------------------------------------------------------------------
  // Finding: scene notes collide with the grid

  /** Scene notes in the right-hand column x = 8 of the 16-wide note layout,
      which the grid formula `16 * y + x` with x <= 7 never reaches. */
  const CorrectedSceneNotes: seq<int> := [0x08, 0x18, 0x28, 0x38, 0x48, 0x58, 0x68, 0x78]

  /** The scene buttons, in order. */
  const Scenes: seq<Name> := [Scene1, Scene2, Scene3, Scene4, Scene5, Scene6, Scene7, Scene8]

  /** The index of `note` in `notes`, or `|notes|` if it is not there. */
  function IndexOf(notes: seq<int>, note: int): (k: nat)
    ensures k <= |notes|
    ensures k < |notes| ==> notes[k] == note
    ensures k == |notes| <==> note !in notes
    ensures forall i :: 0 <= i < k ==> notes[i] != note
    decreases |notes|
  {
    if |notes| == 0 then 0
    else if notes[0] == note then 0
    else 1 + IndexOf(notes[1..], note)
  }

  /** Decoding with the scene notes moved out of the grid's range: the same
      shape as `DecodeType`, with the corrected scene notes. */
  function CorrectedDecodeType(status: int, note: int): (r: ActionType)
    ensures r.GridButton? <==> status == ON && note !in CorrectedSceneNotes
    ensures r.GridButton? ==> 16 * r.y + r.x == note && 0 <= r.x <= 15
  {
    if status == ON then
      var k := IndexOf(CorrectedSceneNotes, note);
      if k < 8 then NamedButton(Scenes[k]) else GridButton(note % 16, note / 16)
    else DecodeType(status, note)
  }

  /** With the corrected scene notes every grid cell decodes back to itself. */
  lemma CorrectedGridRoundTrip(x: int, y: int)
    requires 0 <= x <= 7 && 0 <= y <= 7
    ensures CorrectedDecodeType(ON, GridNote(Some(x), Some(y)).value) == GridButton(x, y)
  {
    var n := 16 * y + x;
    assert n != 0x08 && n != 0x18 && n != 0x28 && n != 0x38;
    assert n != 0x48 && n != 0x58 && n != 0x68 && n != 0x78;
    assert n !in CorrectedSceneNotes;
  }

  /** With the corrected scene notes every scene note still decodes to its scene. */
  lemma CorrectedSceneRoundTrip(k: int)
    requires 0 <= k < 8
    ensures CorrectedDecodeType(ON, CorrectedSceneNotes[k]) == NamedButton(Scenes[k])
  {
    assert forall i, j :: 0 <= i < j < 8 ==> CorrectedSceneNotes[i] != CorrectedSceneNotes[j];
  }
}
