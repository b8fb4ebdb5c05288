/** The vocabulary both device generations share: button types, button
    states, the loosely typed option values callers pass, and the grid
    coordinate checks. */
module Launchpad {
  import opened Wrappers
  import opened MidiCodes

  /** The sixteen named buttons (`:up` .. `:mixer`, `:scene1` .. `:scene8`). */
  datatype Name =
    | Up | Down | Left | Right | Session | User1 | User2 | Mixer
    | Scene1 | Scene2 | Scene3 | Scene4 | Scene5 | Scene6 | Scene7 | Scene8
  {
    /** One of the eight control buttons around the grid. */
    predicate IsControl() {
      Up? || Down? || Left? || Right? || Session? || User1? || User2? || Mixer?
    }
  }

  /** The `type` argument of `change`: `:grid`, a named button, or any other
      symbol (which the devices treat like `:grid`). */
  datatype ButtonType = Grid | Named(name: Name) | Unlisted

  /** The state of a button after an action: `:down` or `:up`. */
  datatype ButtonState = Pressed | Released

  /** An option value as a caller passes it: `nil`, an Integer, or a Symbol. */
  datatype Value = Nil | Int(i: int) | Sym(name: string)

  /** A grid coordinate pair as passed to the bulk sysex builders,
      either half possibly missing. */
  datatype Coord = Coord(x: Option<int>, y: Option<int>)

  /** `(opt || -1).to_i`: a missing coordinate reads as -1. */
  function CoordOr(o: Option<int>): int {
    o.GetOr(-1)
  }

  /** Both coordinates are present and within 0..7. */
  predicate ValidCoords(x: Option<int>, y: Option<int>) {
    0 <= CoordOr(x) <= 7 && 0 <= CoordOr(y) <= 7
  }

  /** The status byte `change` sends: CC for the eight control buttons, ON for
      every other type (grid, scene, unlisted). */
  function ChangeStatus(t: ButtonType): (s: int)
    ensures s == CC || s == ON
    ensures s == CC <==> t.Named? && t.name.IsControl()
  {
    if t.Named? && t.name.IsControl() then CC else ON
  }

  /** The note of each named button, the same on both generations (the mk2
      `TYPE_TO_NOTE` hash and the cases of the classic `note`): a control
      note for the eight control buttons and a scene note for the eight
      scene buttons. */
  function NamedNote(n: Name): (note: int)
    ensures n.IsControl() ==> note in ControlNotes
    ensures !n.IsControl() ==> note in SceneNotes
  {
    match n
    case Up => UP
    case Down => DOWN
    case Left => LEFT
    case Right => RIGHT
    case Session => SESSION
    case User1 => USER1
    case User2 => USER2
    case Mixer => MIXER
    case Scene1 => SCENE1
    case Scene2 => SCENE2
    case Scene3 => SCENE3
    case Scene4 => SCENE4
    case Scene5 => SCENE5
    case Scene6 => SCENE6
    case Scene7 => SCENE7
    case Scene8 => SCENE8
  }
}
