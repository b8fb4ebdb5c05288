# Launchpad wire codec in Dafny

This project models the wire codec of the `launchpad` Ruby library for two
generations of Novation Launchpad grid controllers. The library turns
semantic button and LED operations into raw MIDI messages and back:

- The **mk2 device** (`lib/launchpad_mk2/device.rb`):
  - grid note `(y + 1) * 10 + (x + 1)`;
  - palette colours 0..127;
  - a `(status, note)` table for the sixteen named buttons, with a grid fallback when decoding;
  - system-exclusive ("sysex") frames for pulsing, flashing, scrolling text and lighting all LEDs, a column or a row;
  - input and output handles that `close` releases.
- The **classic device** (`lib/launchpad/device.rb`):
  - grid note `16 * y + x`;
  - red and green brightness levels 0..3 packed into the velocity byte with a mode flag;
  - decoding that tries the scene notes before the grid;
  - the fixed `reset` message;
  - the 80-entry colour list of `change_all`.
- The **MIDI constants** (`lib/launchpad/midi_codes.rb`), which both devices share.

The MIDI port is a record, `Port.Device`. It holds two flags, one for the input
handle and one for the output handle, and a log of every message written
through the output. Every operation that writes returns an `Effect`: the device
afterwards, plus the exception raised, if any. The model never raises halfway
through a single message, so an error leaves the log as it was. The bulk sysex
builders (`pulsen`, `flashn`, `lightn_column`, `lightn_row`) are different.
They write one frame per element, so the frames written before a failing element
stay in the log. The pending input is a batch passed as a parameter.

Ruby's loosely typed arguments become small datatypes:
- An option value is `Nil`, `Int(i)` or `Sym(name)`.
- A coordinate is `Option<int>`; a missing one reads as -1, as `(opts[:x] || -1).to_i` does.
- A button type is `Grid`, `Named(name)` or `Unlisted`. `Unlisted` is any other symbol, which the code handles like `:grid`.

Ruby evaluates the arguments of `output(status, note(...), velocity(...))`
from left to right. So `change` checks the coordinates first, then the
colour or brightness, and only then the output handle. On a device without
output, a bad coordinate raises NoValidGridCoordinatesError, not
NoOutputAllowedError. The model keeps this order.

Notes, statuses and velocities are unbounded `int`s. Ruby's `%` and `/` floor
and Dafny's are Euclidean. For the positive divisors used here (10 and 16)
the two agree, so the decoders use Dafny's operators directly.

The model follows the code where it differs from what the library's comments
or tests suggest:
- On the classic device, `change(:up)` with no options sends velocity 12 (off, normal flag), not 0 (`ClassicDevice.ChangeUpWithoutOptions`).
- The mk2 decoder applies no range check to the grid fallback.
- The classic decoder's grid fallback gives x = note % 16, which can be up to 15, although the comment at lib/launchpad/device.rb:133-134 promises x in 0-7 (`ClassicDevice.DecodeType` states `0 <= r.x <= 15`).
- The bulk sysex builders validate nothing but the coordinates.
- An out-of-range or non-Integer mk2 colour raises NoValidColorError (lib/launchpad_mk2/device.rb:429-437), while test/test_device.rb:299-315 expects NoValidBrightnessError (`Mk2Device.Color`).
- The mk2 `velocity` ignores `:mode`, so `:mode => :flashing` sends velocity 0 (lib/launchpad_mk2/device.rb:417-423), while test/test_device.rb:331-334 expects 8 (`Mk2Device.VelocityIgnoresMode`).
- The mk2 constructor never resets the device (lib/launchpad_mk2/device.rb:89-110), although its comment at lines 68-69 says it will when output is requested (`Mk2Device.New` writes nothing).

## Model

| member | source | states |
|---|---|---|
| `MidiCodes.StatusCodesDistinct` | lib/launchpad/midi_codes.rb:7-12 | The four status codes NIL, OFF, ON and CC are pairwise distinct. |
| `MidiCodes.ControlNotesConsecutive` | lib/launchpad/midi_codes.rb:15-24 | The eight control notes are distinct and are exactly 0x68..0x6F, in declaration order. |
| `MidiCodes.SceneNotesFormula` | lib/launchpad/midi_codes.rb:27-36 | The scene notes are distinct, scene k is `10 * (9 - k) + 9` (89 down to 19), and every scene note ends in the digit 9. |
| `MidiCodes.NotesDisjointAndBounded` | lib/launchpad/midi_codes.rb:15-36 | No scene note is a control note, and every note constant lies in 0..127. |
| `Port.Output` | lib/launchpad_mk2/device.rb:341-363 | Writing a short message raises NoOutputAllowed with nothing written exactly when there is no output handle; otherwise exactly that triple is appended. |
| `Port.OutputSysex` | lib/launchpad_mk2/device.rb:365-373 | Writing a sysex frame raises NoOutputAllowed with nothing written exactly when there is no output handle; otherwise exactly that frame is appended. |
| `Port.Input` | lib/launchpad_mk2/device.rb:322-328 | Reading raises NoInputAllowed exactly when there is no input handle; otherwise it yields the pending batch. |
| `Port.DecodeBatch` | lib/launchpad_mk2/device.rb:248-260 | Decoding a batch yields one action per raw message, in arrival order. Each action keeps its message's timestamp, is pressed exactly when the velocity is 127, and has the type the generation's decoder gives its (status, note). |
| `Port.WriteEach` | lib/launchpad_mk2/device.rb:168-173 | A per-element sysex loop with output writes the frames of all elements before the first failing one, in order, and raises that failure. Without output it writes nothing and raises the first element's own failure, or NoOutputAllowed; an empty list raises nothing. |
| `Mk2Sysex.Ords` | lib/launchpad_mk2/device.rb:188 | The scroll text becomes one character code per character, in order. |
| `Mk2Sysex.CharsOfOrds` | lib/launchpad_mk2/device.rb:188 | Character codes read back as the text they came from. |
| `Mk2Sysex.OrdsOfChars` | lib/launchpad_mk2/device.rb:188 | Codes that read back as a text are exactly that text's codes. |
| `Mk2Sysex.UnframeFrame` | lib/launchpad_mk2/device.rb:160-161 | Every frame is the six header bytes `240 0 32 41 2 24`, the body, and the footer `247`, and the body can be recovered from it. |
| `Mk2Sysex.FrameUnframe` | lib/launchpad_mk2/device.rb:160-161 | A byte sequence that unframes is exactly the frame of its body. |
| `Mk2Sysex.DecodeEncode` | lib/launchpad_mk2/device.rb:163-229 | The frame of every command (pulse, flash, padded flash, scroll, scroll stop, light all, column, row) parses back to that command, so no two commands share a frame. |
| `Mk2Sysex.EncodeDecode` | lib/launchpad_mk2/device.rb:163-229 | Every byte sequence that parses as a command is exactly that command's frame. |
| `Mk2Sysex.FlashManyPadsFlash` | lib/launchpad_mk2/device.rb:175-185 | `flashn`'s body is `flash1`'s with one extra 0 after the colour, so the two frames differ. |
| `Launchpad.ChangeStatus` | lib/launchpad_mk2/device.rb:156 | `change` uses CC exactly for the eight control buttons and ON for everything else; the classic `change` (lib/launchpad/device.rb:77) decides the same way. |
| `Launchpad.NamedNote` | lib/launchpad_mk2/device.rb:49-66 | Each control button's note is a control note and each scene button's note is a scene note. The classic `note` (lib/launchpad/device.rb:190-206) maps the names to the same constants. |
| `Mk2Device.New` | lib/launchpad_mk2/device.rb:89-110 | A new device holds exactly the requested handles, is closed exactly when it has neither, and has written nothing. |
| `Mk2Device.Close` | lib/launchpad_mk2/device.rb:113-124 | After `close` neither handle is held and the device is closed; what was written stays written. |
| `Mk2Device.CloseIdempotent` | lib/launchpad_mk2/device.rb:113-119 | Closing twice equals closing once, and closing a closed device changes nothing. |
| `Mk2Device.CapabilitiesGuardIo` | lib/launchpad_mk2/device.rb:121-134 | `input_enabled?` holds exactly when reading succeeds, `output_enabled?` exactly when a valid `change` writes, and `closed?` exactly when reading raises and `change` raises NoOutputAllowed. |
| `Mk2Device.ClosedDeviceRefuses` | lib/launchpad_mk2/device.rb:113-134 | After `close`, reading raises NoInputAllowed, and a `change` with valid arguments raises NoOutputAllowed without writing. |
| `Mk2Device.GridNote` | lib/launchpad_mk2/device.rb:393-405 | A grid note exists exactly when both coordinates are present and in 0..7; otherwise NoValidGridCoordinates. A valid note lies in 11..88, its units digit is x + 1 and its tens digit is y + 1, both in 1..8. |
| `Mk2Device.Note` | lib/launchpad_mk2/device.rb:393-405 | A note exists exactly for a named button or valid coordinates, otherwise NoValidGridCoordinates. It lies in 11..0x6F and, sent with `change`'s status, decodes back to the named button or the grid cell. |
| `Mk2Device.Velocity` | lib/launchpad_mk2/device.rb:417-423 | For an options hash, the velocity exists exactly when the colour is valid, otherwise NoValidColor. It is the colour, or 0 when the colour is absent. |
| `Mk2Device.Color` | lib/launchpad_mk2/device.rb:425-441 | nil is colour 0, an Integer in 0..127 is itself, and any other Integer or any non-Integer raises NoValidColor. |
| `Mk2Device.VelocityIgnoresMode` | lib/launchpad_mk2/device.rb:417-423 | The `:mode` option never changes the velocity. |
| `Mk2Device.TablesInverse` | lib/launchpad_mk2/device.rb:30-66 | `CODE_NOTE_TO_DATA_TYPE` maps the (status, note) pair that `change` sends for each name back to that name, and each of its pairs is the `change` pair of the name it maps to. |
| `Mk2Device.DecodeType` | lib/launchpad_mk2/device.rb:254-258 | Decoding never leaves the type empty. It names a button exactly for the table's pairs, and that button's `change` pair is the decoded pair. Any other pair, whatever its status, is a grid button whose coordinates re-encode to the note, with x in -1..8 and no range check. |
| `Mk2Device.ReadPendingActions` | lib/launchpad_mk2/device.rb:247-261 | Reading raises NoInputAllowed exactly without input. Otherwise it returns one action per pending message, in order, with the same timestamps, pressed exactly at velocity 127, typed by `DecodeType`. |
| `Mk2Device.GridRoundTrip` | lib/launchpad_mk2/device.rb:254-258 | For all 64 cells, the cell's note sent with ON decodes back to that grid cell. |
| `Mk2Device.NamedRoundTrip` | lib/launchpad_mk2/device.rb:30-66 | Every named button's `change` pair decodes back to that button. |
| `Mk2Device.GridNoteIsNoSceneNote` | lib/launchpad_mk2/device.rb:402 | No mk2 grid note equals a scene note, because grid notes end in 1..8 and scene notes in 9. |
| `Mk2Device.FallbackIsUnchecked` | lib/launchpad_mk2/device.rb:254-258 | Unmapped pairs decode as grid buttons even with status OFF or CC, with coordinates such as -1 or 8. |
| `Mk2Device.Change` | lib/launchpad_mk2/device.rb:154-158 | Errors come in order: coordinates, then colour, then output, and each leaves the device unchanged. On success exactly one message is appended: `(status, note, velocity)` with the `ChangeStatus` of the type (CC exactly for the eight control buttons, ON otherwise), the button's `note`, and the colour (0 when absent). It decodes back to the changed button or cell. |
| `Mk2Device.ChangeNamedWithoutOptions` | test/test_device.rb:225-241 | `change` of a named button without options writes `(0xB0, note, 0)` for control buttons and `(0x90, note, 0)` for scene buttons. |
| `Mk2Device.SampleBatch` | test/test_device.rb:427-430 | A batch holding a grid press and an up release decodes to those two actions, in order. |
| `Mk2Device.Pulse1` | lib/launchpad_mk2/device.rb:163-166 | Invalid coordinates raise NoValidGridCoordinates before any write. Otherwise, with output, one frame is written that parses as a pulse of the cell's note in the colour; without output, NoOutputAllowed. |
| `Mk2Device.Flash1` | lib/launchpad_mk2/device.rb:175-178 | As `pulse1`, with a flash frame. |
| `Mk2Device.PulseN` | lib/launchpad_mk2/device.rb:168-173 | With output, one frame per pair is written, in list order, up to the first invalid pair. Each frame is the pulse frame of its pair's note. The invalid pair then raises NoValidGridCoordinates, with the earlier frames already written. Without output, nothing is written: an empty list raises nothing, an invalid first pair raises NoValidGridCoordinates, and any other list raises NoOutputAllowed. |
| `Mk2Device.SentPerCellReadsBack` | lib/launchpad_mk2/device.rb:168-185 | Each frame that `pulsen` or `flashn` writes reads back as the command for its pair's note, and as no other command. |
| `Mk2Device.FlashN` | lib/launchpad_mk2/device.rb:180-185 | As `pulsen`, with each frame being the padded flash frame of its pair's note (the `flash1` body plus one 0). |
| `Mk2Device.PulseNIsRepeatedPulse1` | lib/launchpad_mk2/device.rb:163-173 | `pulsen` on a list is `pulse1` on its head, then `pulsen` on the rest unless the head raised. So its frames are exactly `pulse1`'s. |
| `Mk2Device.FlashNIsRepeatedPaddedFlash` | lib/launchpad_mk2/device.rb:175-185 | `flashn` on a list sends its head's padded flash frame, then continues with the rest. An invalid head raises exactly as `flash1` does. |
| `Mk2Device.Scroll` | lib/launchpad_mk2/device.rb:187-189 | With output, one frame is written that parses as a scroll of the text in the given colour and mode; without output, NoOutputAllowed and nothing written. |
| `Mk2Device.ScrollForever` | lib/launchpad_mk2/device.rb:191-193 | As `scroll`, with mode 1. |
| `Mk2Device.ScrollOnce` | lib/launchpad_mk2/device.rb:195-197 | As `scroll`, with mode 0. |
| `Mk2Device.ScrollStop` | lib/launchpad_mk2/device.rb:199-201 | With output, one frame whose body is the bare scroll command; without output, NoOutputAllowed. |
| `Mk2Device.LightAll` | lib/launchpad_mk2/device.rb:203-205 | With output, one frame that parses as lighting every LED in the colour; without output, NoOutputAllowed. |
| `Mk2Device.ResetAll` | lib/launchpad_mk2/device.rb:207-209 | `reset_all` is `light_all(0)`. |
| `Mk2Device.Light1Column` | lib/launchpad_mk2/device.rb:217-219 | With output, one frame that parses as lighting the column in the colour, with no range check; without output, NoOutputAllowed. |
| `Mk2Device.Light1Row` | lib/launchpad_mk2/device.rb:227-229 | With output, one frame that parses as lighting the row in the colour, with no range check; without output, NoOutputAllowed. |
| `Mk2Device.LightNColumn` | lib/launchpad_mk2/device.rb:211-215 | With output, one frame per key is written, in list order, each the column frame of that key, and nothing is raised. Without output, nothing is written, and NoOutputAllowed is raised unless the list is empty. |
| `Mk2Device.SentPerElementReadsBack` | lib/launchpad_mk2/device.rb:211-225 | Each frame that `lightn_column` or `lightn_row` writes reads back as its key's column or row command, and as no other command. |
| `Mk2Device.LightNRow` | lib/launchpad_mk2/device.rb:221-225 | As `lightn_column`, with row frames. |
| `ClassicDevice.New` | lib/launchpad/device.rb:19-48 | A new device holds the requested handles. Opening with output writes the reset message and nothing else; opening without output writes nothing. |
| `ClassicDevice.Reset` | lib/launchpad/device.rb:51-53 | `reset` writes exactly `(0xB0, 0x00, 0x00)`, or raises NoOutputAllowed with nothing written. |
| `ClassicDevice.Note` | lib/launchpad/device.rb:189-212 | A note exists exactly for a named button or valid coordinates, otherwise NoValidGridCoordinates. It lies in 0..119. A named button's note, sent with `change`'s status, decodes back to that button; a grid note holds x as its remainder and y as its quotient by 16. |
| `ClassicDevice.GridNote` | lib/launchpad/device.rb:207-212 | A grid note exists exactly when both coordinates are present and in 0..7; otherwise NoValidGridCoordinates. A valid note lies in 0..119, with x as its remainder and y as its quotient by 16. |
| `ClassicDevice.Brightness` | lib/launchpad/device.rb:231-240 | A level 0..3 is accepted exactly for the aliases listed for that level: 0/:off, 1/:low/:lo, 2/:medium/:med, 3/:high/:hi. Every other value raises NoValidBrightness. |
| `ClassicDevice.ModeFlag` | lib/launchpad/device.rb:223-227 | The flag is 8 exactly for `:flashing`, 0 exactly for `:buffering`, and 12 for everything else. |
| `ClassicDevice.Velocity` | lib/launchpad/device.rb:215-229 | The velocity exists exactly when both levels are valid, with absent levels read as 0; otherwise NoValidBrightness. It lies in 0..63, its quotient by 16 is the green level, and its remainder is the red level plus the mode flag. |
| `ClassicDevice.VelocityInjective` | lib/launchpad/device.rb:215-229 | Equal velocities come from equal red levels, equal green levels and equal mode flags: the packing is injective over 4 x 4 x 3 inputs. |
| `ClassicDevice.DecodeType` | lib/launchpad/device.rb:144-171 | With ON, a note is a grid button exactly when it is no scene note, and that button re-encodes to the note. Named results are the `change` pair of their name. The type is nil exactly when the status is neither ON nor CC, or is CC with a note that is no control note. |
| `ClassicDevice.ReadPendingActions` | lib/launchpad/device.rb:137-174 | Reading raises NoInputAllowed exactly without input. Otherwise it returns one action per pending message, in order, with the same timestamps, pressed exactly at velocity 127, typed by `DecodeType`. |
| `ClassicDevice.NamedRoundTrip` | lib/launchpad/device.rb:144-171 | Every named button's `change` pair decodes back to that button. |
| `ClassicDevice.GridNoteIsSceneNote` | lib/launchpad/device.rb:211 | Exactly four grid cells, (5,4), (1,3), (7,2) and (3,1), have a note `16 * y + x` that is also a scene note. |
| `ClassicDevice.GridRoundTrip` | lib/launchpad/device.rb:144-159 | A cell's note decodes back to that cell exactly when the cell is not one of the four colliding cells. |
| `ClassicDevice.CollidingCellsDecodeAsScenes` | lib/launchpad/device.rb:146-155 | Cells (5,4), (1,3), (7,2) and (3,1) decode as scene3, scene5, scene6 and scene8. |
| `ClassicDevice.Change` | lib/launchpad/device.rb:75-79 | Errors come in order: coordinates, then brightness, then output, and each leaves the device unchanged. On success exactly one message is appended: `(status, note, velocity)` with the `ChangeStatus` of the type (CC exactly for control buttons, ON otherwise), the button's `note`, and the packed velocity, for the colliding cells too. It decodes back to the changed button exactly unless the button is a colliding grid cell. |
| `ClassicDevice.ChangeUpWithoutOptions` | lib/launchpad/device.rb:75-79 | `change(:up)` without options writes `(0xB0, 0x68, 12)`. |
| `ClassicDevice.TestLeds` | lib/launchpad/device.rb:57-64 | An invalid brightness raises NoValidBrightness with nothing written, and brightness 0 or `:off` is exactly `reset`. |
| `ClassicDevice.Normalise` | lib/launchpad/device.rb:89-90 | The colour list has exactly 80 entries: the first 80 given values, then zeros. |
| `ClassicDevice.NormaliseIdempotent` | lib/launchpad/device.rb:89-90 | Normalising twice equals normalising once, and a list of exactly 80 values is kept as it is. |
| `ClassicDevice.Slices` | lib/launchpad/device.rb:94 | `change_all` walks exactly 40 pairs; pair j is entries 2j and 2j+1 of the normalised list. |
| `ClassicDevice.SlicesCoverNormalised` | lib/launchpad/device.rb:87-96 | Flattening the 40 pairs gives back the normalised 80-entry list. |
| `ClassicDevice.CorrectedGridRoundTrip` | lib/launchpad/device.rb:144-159 | With scene notes moved to column x = 8 of the 16-wide layout, all 64 cells decode back to themselves. |
| `ClassicDevice.CorrectedSceneRoundTrip` | lib/launchpad/device.rb:144-159 | With the corrected scene notes, each scene note still decodes to its scene. |

## Left out

- Opening the MIDI endpoints (`Portmidi.start`, `Input.new`/`Output.new`, `create_device!`, NoSuchDeviceError, DeviceBusyError): these are I/O. `New` takes the handles it would obtain as flags.
- `read(16)`, `write` and `write_sysex`: the port is an abstract write log and a supplied input batch. The model does not bound the batch at 16, and message timestamps are plain integers passed through.
- Logging: it has no effect on behaviour.
- The interaction dispatcher (`lib/launchpad/interaction`, required by `lib/launchpad.rb`): it is not part of this model.
- The example programs: they only call the library, some of them methods that `lib/` does not define.
- The classic `flashing_on`, `flashing_off`, `flashing_auto` and the nonzero levels of `test_leds`: they need `Velocity::*` constants that `midi_codes.rb` does not define.
- ClassicDevice.TestLeds: for levels 1..3 it raises `NotModelled` and writes nothing, so it states nothing about what the source writes in that branch.
- The writes of classic `change_all`: the pair writes use `Status::MULTI`, a constant `midi_codes.rb` does not define. The first write `(0x90, 0, 0)` is defined, but `change_all` then raises on `Status::MULTI` at the first pair, so its only well-defined part is the normalisation and the pairing, which are modelled.
- The flattening of nested colour arrays in `change_all`: `Normalise` takes the already flattened list.
- Non-Hash options: `opts ||= {}` replaces only nil, so `change(:up, 5)` passes the Integer 5 on. The mk2 `velocity` then sends `5.to_i + 12`, and the classic `velocity` raises at `opts[:mode]`. Options are modelled as a Hash only, so neither branch is modelled.
- Coordinates passed as strings or floats (`to_i`), and `false` as an option value: coordinates are optional integers, and option values are nil, an Integer or a Symbol.
- A `type` given as a string such as `"up"`: the code would then send CC with a grid note. Button types are symbols here.
- Mk2Sysex.Ords: the scroll text is a sequence of Unicode scalar values, as a valid UTF-8 string gives. A binary (ASCII-8BIT) string, whose `ord`s are raw bytes, and the ArgumentError that `ord` raises on invalid UTF-8 are not modelled.
- The mk2 sysex colour, column, row and mode arguments: like the source, the model passes them through unchecked, as integers.

## Findings

| source | as written | input that shows it | evidently intended | confidence | as-written member | corrected member |
|---|---|---|---|---|---|---|
| lib/launchpad/device.rb:144-159 | With status ON, the classic decoder matches the scene notes before falling back to the grid. Those scene notes are the mk2 values 0x59..0x13 from `midi_codes.rb`. | `change(:grid, :x => 5, :y => 4)` sends note 0x45 = 16·4+5. Reading that note back gives `:scene3`. Cells (1,3), (7,2) and (3,1) likewise decode as scene5, scene6 and scene8. | Every grid cell decodes back to itself, as on mk2. Scene notes should lie outside the notes `16 * y + x` with x ≤ 7, for instance in column x = 8 (0x08, 0x18, …, 0x78). | medium; not executed | `ClassicDevice.CollidingCellsDecodeAsScenes` | `ClassicDevice.CorrectedGridRoundTrip` |

`ClassicDevice.CorrectedDecodeType` is the corrected decoder. It is the as-written decoder with the scene notes moved to column x = 8. `CorrectedSceneRoundTrip` shows that the scene buttons still decode. The rest of the classic model keeps the constants as written, because those are what the code actually sends and reads.
