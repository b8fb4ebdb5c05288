/** The MIDI port as both devices see it: an optional input handle that
    yields a batch of pending raw messages, and an optional output handle
    modelled as the log of everything written to it. The private `input`,
    `output`, `output_messages` and `output_sysex` guards of both devices
    live here, together with the two iteration shapes they share: decoding a
    batch of raw messages, and writing one sysex frame per list element. */
module Port {
  import opened Wrappers
  import opened Launchpad

  /** A message on the wire: a short `(status, data1, data2)` triple or a sysex frame. */
  datatype Message = Short(status: int, data1: int, data2: int) | Sysex(bytes: seq<int>)

  /** The handles a device holds, and the log of everything written through its output. */
  datatype Device = Device(input: bool, output: bool, log: seq<Message>)

  /** The exceptions the devices raise. `NotModelled` marks a branch whose
      behaviour depends on constants this model does not have. */
  datatype Error =
    | NoValidGridCoordinates | NoValidColor | NoValidBrightness
    | NoOutputAllowed | NoInputAllowed | NotModelled

  /** The device after an operation, and the exception it raised, if any.
      Writes done before the exception stay in the log. */
  datatype Effect = Effect(dev: Device, raised: Option<Error>)

  /** One raw message read from the input: a timestamp and the MIDI triple. */
  datatype RawMessage = RawMessage(timestamp: int, status: int, note: int, velocity: int)

  /** What a raw message decodes to: a grid button with its coordinates, a
      named button, or no type at all (`:type => nil`). */
  datatype ActionType = GridButton(x: int, y: int) | NamedButton(name: Name) | Untyped

  /** A decoded user action. */
  datatype Action = Action(timestamp: int, state: ButtonState, kind: ActionType)

  /** `output`: one short message, or NoOutputAllowed with nothing written. */
  function Output(d: Device, status: int, data1: int, data2: int): (r: Effect)
    ensures r.raised.None? <==> d.output
    ensures r.raised.Some? ==> r == Effect(d, Some(NoOutputAllowed))
    ensures r.raised.None? ==> r.dev == d.(log := d.log + [Short(status, data1, data2)])
  {
    if !d.output then Effect(d, Some(NoOutputAllowed))
    else Effect(d.(log := d.log + [Short(status, data1, data2)]), None)
  }

  /** `output_sysex`: one sysex frame, or NoOutputAllowed with nothing written. */
  function OutputSysex(d: Device, bytes: seq<int>): (r: Effect)
    ensures r.raised.None? <==> d.output
    ensures r.raised.Some? ==> r == Effect(d, Some(NoOutputAllowed))
    ensures r.raised.None? ==> r.dev == d.(log := d.log + [Sysex(bytes)])
  {
    if !d.output then Effect(d, Some(NoOutputAllowed))
    else Effect(d.(log := d.log + [Sysex(bytes)]), None)
  }

  /** `input`: the batch the port reports as pending, or NoInputAllowed. */
  function Input(d: Device, pending: seq<RawMessage>): (r: Result<seq<RawMessage>, Error>)
    ensures r.Err? <==> !d.input
    ensures r.Err? ==> r.error == NoInputAllowed
    ensures r.Ok? ==> r.value == pending
  {
    if !d.input then Err(NoInputAllowed) else Ok(pending)
  }

  /** The button state encoded by a velocity byte: only 127 means pressed. */
  function StateOf(velocity: int): ButtonState {
    if velocity == 127 then Pressed else Released
  }

  /** Decodes a batch message by message with the generation's `typeOf`:
      one action per message, in arrival order, each with the message's
      timestamp, pressed exactly when the velocity is 127. */
  function DecodeBatch(batch: seq<RawMessage>, typeOf: (int, int) -> ActionType): (r: seq<Action>)
    ensures |r| == |batch|
    ensures forall i :: 0 <= i < |batch| ==>
      && r[i].timestamp == batch[i].timestamp
      && (r[i].state == Pressed <==> batch[i].velocity == 127)
      && r[i].kind == typeOf(batch[i].status, batch[i].note)
    decreases |batch|
  {
    if |batch| == 0 then []
    else
      var m := batch[0];
      [Action(m.timestamp, StateOf(m.velocity), typeOf(m.status, m.note))] + DecodeBatch(batch[1..], typeOf)
  }

  /** The index of the first element `f` fails on, or `|items|` when it fails on none. */
  function FirstFailure<T, U>(items: seq<T>, f: T -> Result<U, Error>): (k: nat)
    ensures k <= |items|
    ensures forall i :: 0 <= i < k ==> f(items[i]).Ok?
    ensures k < |items| ==> f(items[k]).Err?
    decreases |items|
  {
    if |items| == 0 || f(items[0]).Err? then 0 else 1 + FirstFailure(items[1..], f)
  }

  /** The first failure index is the only index with its two defining properties. */
  lemma FirstFailureUnique<T, U>(items: seq<T>, f: T -> Result<U, Error>, k: nat)
    requires k <= |items|
    requires forall i :: 0 <= i < k ==> f(items[i]).Ok?
    requires k < |items| ==> f(items[k]).Err?
    ensures FirstFailure(items, f) == k
  {
  }

  /** `items.each { ... output_sysex(frame) }`: computes each element's frame
      and writes it before looking at the next element. With output enabled,
      the frames of every element before the first failing one are written, in
      list order, and that failure is raised. Without output, nothing is
      written; the first element's own failure is raised if it has one, and
      otherwise NoOutputAllowed; an empty list raises nothing. */
  function WriteEach<T>(d: Device, items: seq<T>, frame: T -> Result<seq<int>, Error>): (r: Effect)
    ensures r.dev.input == d.input && r.dev.output == d.output
    ensures d.output ==>
      var k := FirstFailure(items, frame);
      && |r.dev.log| == |d.log| + k
      && r.dev.log[..|d.log|] == d.log
      && (forall i :: 0 <= i < k ==> r.dev.log[|d.log| + i] == Sysex(frame(items[i]).value))
      && r.raised == (if k < |items| then Some(frame(items[k]).error) else None)
    ensures !d.output ==> r.dev == d
    ensures !d.output ==>
      r.raised == (if |items| == 0 then None
                   else if frame(items[0]).Err? then Some(frame(items[0]).error)
                   else Some(NoOutputAllowed))
    decreases |items|
  {
    if |items| == 0 then Effect(d, None)
    else
      match frame(items[0])
      case Err(e) => Effect(d, Some(e))
      case Ok(bytes) =>
        var w := OutputSysex(d, bytes);
        if w.raised.Some? then w
        else
          var r := WriteEach(w.dev, items[1..], frame);
          assert forall i :: 0 < i <= |items[1..]| ==> items[1..][i - 1] == items[i];
          r
  }
}
