/** The MIDI status bytes and the note bytes of the named buttons, shared by
    both device generations, and the facts about them that the codecs rely on. */
module MidiCodes {

  // MIDI status codes.
  const NIL: int := 0x00
  const OFF: int := 0x80
  const ON: int := 0x90
  const CC: int := 0xB0

  // Note codes of the eight control buttons.
  const UP: int := 0x68
  const DOWN: int := 0x69
  const LEFT: int := 0x6A
  const RIGHT: int := 0x6B
  const SESSION: int := 0x6C
  const USER1: int := 0x6D
  const USER2: int := 0x6E
  const MIXER: int := 0x6F

  // Note codes of the eight scene buttons.
  const SCENE1: int := 0x59
  const SCENE2: int := 0x4F
  const SCENE3: int := 0x45
  const SCENE4: int := 0x3B
  const SCENE5: int := 0x31
  const SCENE6: int := 0x27
  const SCENE7: int := 0x1D
  const SCENE8: int := 0x13

  /** The status codes, in declaration order. */
  const StatusCodes: seq<int> := [NIL, OFF, ON, CC]

  /** The control notes, in declaration order (up, down, left, right, session, user1, user2, mixer). */
  const ControlNotes: seq<int> := [UP, DOWN, LEFT, RIGHT, SESSION, USER1, USER2, MIXER]

  /** The scene notes, in declaration order: `SceneNotes[k - 1]` is scene k. */
  const SceneNotes: seq<int> := [SCENE1, SCENE2, SCENE3, SCENE4, SCENE5, SCENE6, SCENE7, SCENE8]

  /** All entries of `s` differ from each other. */
  predicate Distinct(s: seq<int>) {
    forall i, j :: 0 <= i < j < |s| ==> s[i] != s[j]
  }

  /** The four status codes are pairwise distinct. */
  lemma StatusCodesDistinct()
    ensures |StatusCodes| == 4 && Distinct(StatusCodes)
  {
  }

  /** The control notes are the eight consecutive values 0x68..0x6F. */
  lemma ControlNotesConsecutive()
    ensures |ControlNotes| == 8 && Distinct(ControlNotes)
    ensures forall i :: 0 <= i < 8 ==> ControlNotes[i] == 0x68 + i
  {
  }

  /** Scene k is `10 * (9 - k) + 9` (below, `i = k - 1`): the scene notes run
      from 89 down to 19 in steps of ten, so every one of them ends in the digit 9. */
  lemma SceneNotesFormula()
    ensures |SceneNotes| == 8 && Distinct(SceneNotes)
    ensures forall i :: 0 <= i < 8 ==> SceneNotes[i] == 10 * (9 - (i + 1)) + 9
    ensures forall i :: 0 <= i < 8 ==> SceneNotes[i] % 10 == 9
  {
  }

  /** No scene note is a control note, and every note constant is a MIDI data byte. */
  lemma NotesDisjointAndBounded()
    ensures forall i, j :: 0 <= i < 8 && 0 <= j < 8 ==> SceneNotes[i] != ControlNotes[j]
    ensures forall i :: 0 <= i < 8 ==> 0 <= SceneNotes[i] <= 127 && 0 <= ControlNotes[i] <= 127
  {
  }
}
