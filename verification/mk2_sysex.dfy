/** The mk2 system-exclusive frames: every command is a body between a fixed
    six-byte header and a one-byte footer. Parsing is the inverse of building,
    so every frame the device writes names exactly one command. */
module Mk2Sysex {
  import opened Wrappers

  const HEADER: seq<int> := [240, 0, 32, 41, 2, 24]
  const FOOTER: seq<int> := [247]

  /** The sysex commands the mk2 device sends. `FlashAtPadded` is the body
      `flashn` builds, which carries one more zero than `flash1`'s. */
  datatype Command =
    | PulseAt(note: int, color: int)
    | FlashAt(note: int, color: int)
    | FlashAtPadded(note: int, color: int)
    | ScrollText(color: int, mode: int, text: string)
    | StopScroll
    | AllLeds(color: int)
    | Column(column: int, color: int)
    | Row(row: int, color: int)

  /** The character codes of `text`, one per character, in order. */
  function Ords(text: string): (r: seq<int>)
    ensures |r| == |text|
    ensures forall i :: 0 <= i < |text| ==> r[i] == text[i] as int
    decreases |text|
  {
    if |text| == 0 then [] else [text[0] as int] + Ords(text[1..])
  }

  /** `v` is the code of some character. */
  predicate IsCharCode(v: int) {
    (0 <= v < 0xD800) || (0xE000 <= v < 0x11_0000)
  }

  /** The text whose character codes are `codes`, if every code is one. */
  function Chars(codes: seq<int>): Option<string>
    decreases |codes|
  {
    if |codes| == 0 then Some("")
    else if !IsCharCode(codes[0]) then None
    else
      match Chars(codes[1..])
      case None => None
      case Some(rest) => Some([codes[0] as char] + rest)
  }

  /** One step of `Chars`: a valid leading code becomes the leading character. */
  lemma CharsCons(codes: seq<int>)
    requires |codes| > 0 && IsCharCode(codes[0]) && Chars(codes[1..]).Some?
    ensures Chars(codes) == Some([codes[0] as char] + Chars(codes[1..]).value)
  {
  }

  /** One step of `Ords`: the leading character's code, then the rest's. */
  lemma OrdsCons(text: string)
    requires |text| > 0
    ensures Ords(text)[0] == text[0] as int && IsCharCode(text[0] as int)
    ensures Ords(text)[1..] == Ords(text[1..])
  {
    assert Ords(text) == [text[0] as int] + Ords(text[1..]);
  }

  lemma {:induction false} CharsOfOrds(text: string)
    ensures Chars(Ords(text)) == Some(text)
    decreases |text|
  {
    if |text| > 0 {
      OrdsCons(text);
      CharsOfOrds(text[1..]);
      CharsCons(Ords(text));
      assert [text[0]] + text[1..] == text;
    }
  }

  lemma {:induction false} OrdsOfChars(codes: seq<int>)
    requires Chars(codes).Some?
    ensures Ords(Chars(codes).value) == codes
    decreases |codes|
  {
    if |codes| > 0 {
      OrdsOfChars(codes[1..]);
      var t := Chars(codes).value;
      assert t == [codes[0] as char] + Chars(codes[1..]).value;
      assert t[1..] == Chars(codes[1..]).value;
      assert Ords(t) == [t[0] as int] + Ords(t[1..]);
      assert [codes[0]] + codes[1..] == codes;
    }
  }

  /** The command bytes each builder puts between header and footer. */
  function Body(c: Command): seq<int> {
    match c
    case PulseAt(n, k) => [40, 0, n, k]
    case FlashAt(n, k) => [35, 0, n, k]
    case FlashAtPadded(n, k) => [35, 0, n, k, 0]
    case ScrollText(k, m, t) => [20, k, m] + Ords(t)
    case StopScroll => [20]
    case AllLeds(k) => [14, k]
    case Column(col, k) => [12, col, k]
    case Row(row, k) => [13, row, k]
  }

  /** The command a body names, if any. */
  function Parse(b: seq<int>): Option<Command> {
    if |b| == 0 then None
    else if b[0] == 40 && |b| == 4 && b[1] == 0 then Some(PulseAt(b[2], b[3]))
    else if b[0] == 35 && |b| == 4 && b[1] == 0 then Some(FlashAt(b[2], b[3]))
    else if b[0] == 35 && |b| == 5 && b[1] == 0 && b[4] == 0 then Some(FlashAtPadded(b[2], b[3]))
    else if b[0] == 20 && |b| == 1 then Some(StopScroll)
    else if b[0] == 20 && |b| >= 3 then
      match Chars(b[3..])
      case None => None
      case Some(t) => Some(ScrollText(b[1], b[2], t))
    else if b[0] == 14 && |b| == 2 then Some(AllLeds(b[1]))
    else if b[0] == 12 && |b| == 3 then Some(Column(b[1], b[2]))
    else if b[0] == 13 && |b| == 3 then Some(Row(b[1], b[2]))
    else None
  }

  /** Frames a body: `HEADER ++ body ++ FOOTER`. */
  function Frame(body: seq<int>): seq<int> {
    HEADER + body + FOOTER
  }

  /** The body of a frame, if it starts with the header and ends with the footer. */
  function Unframe(f: seq<int>): Option<seq<int>> {
    if |f| >= |HEADER| + |FOOTER| && f[..|HEADER|] == HEADER && f[|f| - 1] == FOOTER[0]
    then Some(f[|HEADER|..|f| - 1])
    else None
  }

  /** The frame a command is sent as. */
  function Encode(c: Command): seq<int> {
    Frame(Body(c))
  }

  /** The command a frame carries, if any. */
  function DecodeFrame(f: seq<int>): Option<Command> {
    match Unframe(f)
    case None => None
    case Some(b) => Parse(b)
  }

  /** Every frame consists of the header, the body and the footer, and the
      body can be read back out of it. */
  lemma UnframeFrame(body: seq<int>)
    ensures |Frame(body)| == |HEADER| + |body| + |FOOTER|
    ensures Frame(body)[..|HEADER|] == HEADER && Frame(body)[|Frame(body)| - 1] == 247
    ensures Unframe(Frame(body)) == Some(body)
  {
    var f := Frame(body);
    assert f[..|HEADER|] == HEADER;
    assert f[|HEADER|..|f| - 1] == body;
  }

  /** Conversely, a sequence that unframes is exactly the frame of its body. */
  lemma FrameUnframe(f: seq<int>)
    requires Unframe(f).Some?
    ensures Frame(Unframe(f).value) == f
  {
    var b := Unframe(f).value;
    assert f == f[..|HEADER|] + f[|HEADER|..|f| - 1] + f[|f| - 1..];
  }

  /** Every command's frame reads back as that command: no two builders
      produce the same bytes. */
  lemma DecodeEncode(c: Command)
    ensures DecodeFrame(Encode(c)) == Some(c)
  {
    UnframeFrame(Body(c));
    if c.ScrollText? {
      var b := Body(c);
      assert b[3..] == Ords(c.text);
      CharsOfOrds(c.text);
    }
  }

  /** Every body that parses as a command is exactly that command's body. */
  lemma BodyParse(b: seq<int>)
    requires Parse(b).Some?
    ensures Body(Parse(b).value) == b
  {
    var c := Parse(b).value;
    if c.ScrollText? {
      OrdsOfChars(b[3..]);
      assert b == b[..3] + b[3..];
    } else if c.FlashAtPadded? {
      assert b == [35, 0, b[2], b[3], 0];
    } else if c.PulseAt? || c.FlashAt? {
      assert b == [b[0], 0, b[2], b[3]];
    } else if c.Column? || c.Row? {
      assert b == [b[0], b[1], b[2]];
    } else if c.AllLeds? {
      assert b == [14, b[1]];
    }
  }

  /** Every frame that reads back as a command is exactly that command's frame. */
  lemma EncodeDecode(f: seq<int>)
    requires DecodeFrame(f).Some?
    ensures Encode(DecodeFrame(f).value) == f
  {
    FrameUnframe(f);
    BodyParse(Unframe(f).value);
  }

  /** `flashn`'s body is `flash1`'s with one extra zero before the footer;
      pulse bodies have no such variant. */
  lemma FlashManyPadsFlash(note: int, color: int)
    ensures Body(FlashAtPadded(note, color)) == Body(FlashAt(note, color)) + [0]
    ensures Encode(FlashAtPadded(note, color)) != Encode(FlashAt(note, color))
  {
    assert |Encode(FlashAtPadded(note, color))| == 12;
  }
}
