/** The client side of a Remote Framebuffer connection (internal/rfb/rfb.go:200-379). */
module Rfb {
  import opened Bytes
  import opened Faults
  import opened RfbMessages

  /** Calls on the framebuffer. */
  datatype Call =
    | Resize(width: int, height: int)
    | Fill(x: int, y: int, width: int, height: int, pixels: bytes)
    | Copy(srcX: int, srcY: int, x: int, y: int, width: int, height: int)
    | Updated
    | RingBell
    | SetCutText(text: bytes)

  /** The client's desktop size, what it drew and what it sent. */
  datatype Screen = Screen(width: u16, height: u16, drawn: seq<Call>, sent: seq<bytes>)

  // ---- what each message does to the screen

  function Draw(screen: Screen, r: Rect): Screen {
    match r.body
    case Raw(pixels) => screen.(drawn := screen.drawn + [Fill(r.x, r.y, r.width, r.height, pixels)])
    case CopyFrom(x, y) => screen.(drawn := screen.drawn + [Copy(x, y, r.x, r.y, r.width, r.height)])
    case DesktopSize => Screen(r.width, r.height, screen.drawn + [Resize(r.width, r.height)], screen.sent)
  }

  function DrawAll(screen: Screen, rects: seq<Rect>): Screen
    decreases rects
  {
    if rects == [] then screen else DrawAll(Draw(screen, rects[0]), rects[1..])
  }

  /** After an update the client asks for the next one, of the size the desktop has by then. */
  function Handle(screen: Screen, m: Message): Screen {
    match m
    case Update(_, rects) =>
      var after := DrawAll(screen, rects);
      after.(drawn := after.drawn + [Updated], sent := after.sent + [UpdateRequest(true, after.width, after.height)])
    case ColourMap(_, _, _, _) => screen
    case Bell => screen.(drawn := screen.drawn + [RingBell])
    case CutText(_, text) => screen.(drawn := screen.drawn + [SetCutText(text)])
  }

  function HandleAll(screen: Screen, messages: seq<Message>): Screen {
    if messages == [] then screen else Handle(HandleAll(screen, messages[..|messages| - 1]), messages[|messages| - 1])
  }

  // ---- client messages

  /** Section 7.5.3 of RFC 6143, always for the whole desktop. */
  function UpdateRequest(incremental: bool, width: u16, height: u16): bytes {
    [3, if incremental then 1 else 0] + U16(0, U16(0, U16(width, U16(height, []))))
  }

  /** Section 7.5.4 of RFC 6143. */
  function KeyMessage(keysym: u32, down: bool): bytes {
    [4, if down then 1 else 0] + U16(0, U32(keysym, []))
  }

  /** Section 7.5.5 of RFC 6143. */
  function PointerMessage(x: u16, y: u16, buttons: byte): bytes {
    [5, buttons] + U16(x, U16(y, []))
  }

  function Distance(a: int, b: int): nat {
    if a < b then b - a else a - b
  }

  /** rfb.go:374-379: the nearest value in the range, and `low` for an empty range. */
  function Clamp(value: int, low: int, high: int): (result: int)
    ensures high < low ==> result == low
    ensures low <= high ==> low <= result <= high
    ensures forall other :: low <= other <= high ==> Distance(value, result) <= Distance(value, other)
  {
    if high < low then low
    else
      var raised := if value < low then low else value;
      if raised > high then high else raised
  }

  method PutUint16(message: array<byte>, at: nat, n: u16)
    requires at + 2 <= message.Length
    modifies message
    ensures message[..] == old(message[..at]) + U16(n, []) + old(message[at + 2..])
  {
    message[at] := (n / 256) as byte;
    message[at + 1] := (n % 256) as byte;
  }

  method PutUint32(message: array<byte>, at: nat, n: u32)
    requires at + 4 <= message.Length
    modifies message
    ensures message[..] == old(message[..at]) + U32(n, []) + old(message[at + 4..])
  {
    PutUint16(message, at, n / 0x1_0000);
    PutUint16(message, at + 2, n % 0x1_0000);
  }

  datatype Failure = ReadFailed | WriteFailed

  class Client {
    const script: Script
    /** What the server will still send before the connection ends. */
    var input: bytes
    var width: u16
    var height: u16
    var drawn: seq<Call>
    var sent: seq<bytes>

    constructor (script: Script, input: bytes, width: u16, height: u16)
      ensures this.script == script && this.input == input && Seen() == Screen(width, height, [], [])
    {
      this.script := script;
      this.input := input;
      this.width := width;
      this.height := height;
      drawn := [];
      sent := [];
    }

    function Seen(): Screen
      reads this
    {
      Screen(width, height, drawn, sent)
    }

    // ---- the reader

    method ReadFull(count: nat) returns (contents: Option<bytes>)
      modifies this`input
      ensures match contents
              case Some(b) => TakeBytes(old(input), count) == Some((b, input))
              case None => TakeBytes(old(input), count) == None
    {
      if |input| < count {
        input := [];
        return None;
      }
      contents := Some(input[..count]);
      input := input[count..];
    }

    method ReadU16() returns (n: Option<u16>)
      modifies this`input
      ensures match n
              case Some(v) => TakeU16(old(input)) == Some((v, input))
              case None => TakeU16(old(input)) == None
    {
      var read := ReadFull(2);
      n := match read case None => None case Some(b) => Some(b[0] as int * 256 + b[1] as int);
    }

    method ReadU32() returns (n: Option<u32>)
      modifies this`input
      ensures match n
              case Some(v) => TakeU32(old(input)) == Some((v, input))
              case None => TakeU32(old(input)) == None
    {
      if |input| < 4 {
        input := [];
        return None;
      }
      var high := ReadU16();
      var low := ReadU16();
      n := Some(high.value * 0x1_0000 + low.value);
    }

    // ---- rfb.go:303-346

    method Write(message: bytes) returns (ok: bool)
      modifies this`sent, script
      ensures sent == old(sent) + if ok then [message] else []
      ensures old(script.Calm()) ==> ok && script.Calm()
    {
      var took;
      took, ok := script.Attempt();
      if ok {
        sent := sent + [message];
      }
    }

    method RequestUpdate(incremental: bool) returns (ok: bool)
      modifies this`sent, script
      ensures sent == old(sent) + if ok then [UpdateRequest(incremental, width, height)] else []
      ensures old(script.Calm()) ==> ok && script.Calm()
    {
      var message := new byte[10](_ => 0);
      message[0] := 3;
      if incremental {
        message[1] := 1;
      }
      PutUint16(message, 6, width);
      PutUint16(message, 8, height);
      assert message[..] == UpdateRequest(incremental, width, height);
      ok := Write(message[..]);
    }

    method KeyEvent(keysym: u32, down: bool) returns (ok: bool)
      modifies this`sent, script
      ensures sent == old(sent) + if ok then [KeyMessage(keysym, down)] else []
      ensures old(script.Calm()) ==> ok && script.Calm()
    {
      var message := new byte[8](_ => 0);
      message[0] := 4;
      if down {
        message[1] := 1;
      }
      PutUint32(message, 4, keysym);
      assert message[..] == KeyMessage(keysym, down);
      ok := Write(message[..]);
    }

    /** The pointer is reported at the nearest point of the desktop. */
    method PointerEvent(x: int, y: int, buttons: byte) returns (ok: bool, ghost reported: (u16, u16))
      modifies this`sent, script
      ensures sent == old(sent) + if ok then [PointerMessage(reported.0, reported.1, buttons)] else []
      ensures reported.0 < width || reported.0 == width == 0
      ensures reported.1 < height || reported.1 == height == 0
      ensures forall px: u16 :: px < width ==> Distance(x, reported.0) <= Distance(x, px)
      ensures forall py: u16 :: py < height ==> Distance(y, reported.1) <= Distance(y, py)
      ensures old(script.Calm()) ==> ok && script.Calm()
    {
      var cx: u16, cy: u16 := Clamp(x, 0, width - 1), Clamp(y, 0, height - 1);
      var message := new byte[6](_ => 0);
      message[0] := 5;
      message[1] := buttons;
      PutUint16(message, 2, cx);
      PutUint16(message, 4, cy);
      reported := (cx, cy);
      assert message[..] == PointerMessage(cx, cy, buttons);
      ok := Write(message[..]);
    }

    // ---- rfb.go:260-301

    method ReadHeader() returns (header: Option<Header>)
      modifies this`input
      ensures match header
              case Some(h) => TakeHeader(old(input)) == Some((h, input))
              case None => TakeHeader(old(input)) == None
    {
      if |input| < 12 {
        input := [];
        return None;
      }
      var x := ReadU16();
      var y := ReadU16();
      var w := ReadU16();
      var h := ReadU16();
      var e := ReadU32();
      var n: int := e.value;
      var encoding := if n >= 0x8000_0000 then n - 0x1_0000_0000 else n;
      header := Some(Header(x.value, y.value, w.value, h.value, encoding));
    }

    /** One rectangle is read and drawn. */
    method ReadRect() returns (ok: bool)
      modifies this`input, this`width, this`height, this`drawn
      ensures ok ==> DecodeRect(old(input)).Some? && input == DecodeRect(old(input)).value.1
                     && Seen() == Draw(old(Seen()), DecodeRect(old(input)).value.0)
      ensures !ok ==> DecodeRect(old(input)).None? && Seen() == old(Seen())
    {
      var header := ReadHeader();
      if header.None? {
        return false;
      }
      var h := header.value;
      if h.encoding == RAW {
        var pixels := ReadFull(PixelBytes(h.width, h.height));
        if pixels.None? {
          return false;
        }
        drawn := drawn + [Fill(h.x, h.y, h.width, h.height, pixels.value)];
      } else if h.encoding == COPY_RECT {
        if |input| < 4 {
          return false;
        }
        var x := ReadU16();
        var y := ReadU16();
        drawn := drawn + [Copy(x.value, y.value, h.x, h.y, h.width, h.height)];
      } else if h.encoding == DESKTOP_SIZE {
        width, height := h.width, h.height;
        drawn := drawn + [Resize(h.width, h.height)];
      } else {
        return false;
      }
      ok := true;
    }

    /** The rectangles before the first that cannot be read are drawn all the same. */
    method ReadRects(count: nat) returns (ok: bool)
      modifies this`input, this`width, this`height, this`drawn
      ensures var read := DecodeRects(old(input), count);
              ok == read.complete && (ok ==> input == read.rest) && Seen() == DrawAll(old(Seen()), read.rects)
    {
      ReadingIsDrawing(Seen(), input, count);
      ok := ReadEach(count);
    }

    method ReadEach(count: nat) returns (ok: bool)
      modifies this`input, this`width, this`height, this`drawn
      ensures var wanted := Reading(old(Seen()), old(input), count);
              ok == wanted.complete && (ok ==> input == wanted.rest) && Seen() == wanted.screen
    {
      hide DecodeRect;
      ghost var wanted := Reading(Seen(), input, count);
      var index := 0;
      while index < count
        invariant index <= count && wanted == Reading(Seen(), input, count - index)
      {
        ok := ReadNext(count - index);
        if !ok {
          return;
        }
        index := index + 1;
      }
      ok := true;
    }

    /** One rectangle; what reading the others comes to stays the same. */
    method ReadNext(ghost left: nat) returns (ok: bool)
      requires left > 0
      modifies this`input, this`width, this`height, this`drawn
      ensures ok ==> Reading(Seen(), input, left - 1) == Reading(old(Seen()), old(input), left)
      ensures !ok ==> Reading(old(Seen()), old(input), left) == Outcome(Seen(), old(input), false)
    {
      ok := ReadRect();
    }

    method ReadFramebufferUpdate() returns (ok: bool)
      modifies this`input, this`width, this`height, this`drawn
      ensures match DecodeUpdate(old(input))
              case Got(m, rest) => ok && input == rest && Seen() == Finished(DrawAll(old(Seen()), m.rects))
              case Stuck(partial) => !ok && Seen() == DrawAll(old(Seen()), partial)
    {
      if |input| < 3 {
        input := [];
        return false;
      }
      var padding := ReadFull(1);
      var count := ReadU16();
      ok := ReadRects(count.value);
      if ok {
        drawn := drawn + [Updated];
      }
    }

    // ---- rfb.go:200-248

    /**
     * Every message that can be read is handled, in order, until a request
     * cannot be written or a message cannot be read; of that message the
     * rectangles before the unreadable one are drawn.
     */
    method Run() returns (failure: Failure, ghost handled: nat)
      modifies this`input, this`width, this`height, this`drawn, this`sent, script
      ensures var all := Parse(old(input)).messages;
              && handled <= |all|
              && match failure
                 case ReadFailed => handled == |all|
                   && Seen() == DrawAll(HandleAll(old(Seen()), all), Parse(old(input)).partial)
                 case WriteFailed => handled > 0 && Seen() == Unanswered(HandleAll(old(Seen()), all[..handled]))
      ensures old(script.Calm()) ==> failure == ReadFailed
    {
      ghost var messages := [];
      handled := 0;
      assert Prepended([], Parse(input)) == Parse(input);
      while true
        invariant handled == |messages| && Seen() == HandleAll(old(Seen()), messages)
        invariant Parse(old(input)) == Prepended(messages, Parse(input))
        invariant old(script.Calm()) ==> script.Calm()
        decreases |input|
      {
        ghost var before := input;
        var outcome := ReadMessage();
        if outcome == Some(ReadFailed) {
          assert messages + [] == messages;
          return ReadFailed, handled;
        }
        ghost var m := DecodeMessage(before).message;
        HandleOneMore(old(Seen()), messages, m);
        PrependedTwice(messages, [m], Parse(DecodeMessage(before).rest));
        messages := messages + [m];
        handled := handled + 1;
        assert Parse(old(input)).messages[..handled] == messages;
        if outcome == Some(WriteFailed) {
          return WriteFailed, handled;
        }
      }
    }

    /** One round of the loop. */
    method ReadMessage() returns (failure: Option<Failure>)
      modifies this`input, this`width, this`height, this`drawn, this`sent, script
      ensures match DecodeMessage(old(input))
              case Stuck(partial) => failure == Some(ReadFailed) && Seen() == DrawAll(old(Seen()), partial)
              case Got(m, rest) =>
                || (failure == None && input == rest && Seen() == Handle(old(Seen()), m))
                || (failure == Some(WriteFailed) && Seen() == Unanswered(Handle(old(Seen()), m)))
      ensures old(script.Calm()) ==> script.Calm() && failure != Some(WriteFailed)
    {
      var first := ReadFull(1);
      if first.None? {
        return Some(ReadFailed);
      }
      var kind := first.value[0];
      var ok := false;
      if kind == FRAMEBUFFER_UPDATE {
        ok := ReadFramebufferUpdate();
        if ok {
          ok := RequestUpdate(true);
          return if ok then None else Some(WriteFailed);
        }
      } else if kind == SET_COLOUR_MAP_ENTRIES {
        ok := SkipColourMap();
      } else if kind == BELL {
        drawn := drawn + [RingBell];
        ok := true;
      } else if kind == SERVER_CUT_TEXT {
        ok := ReadCutText();
      }
      failure := if ok then None else Some(ReadFailed);
    }

    /** rfb.go:214-225. */
    method SkipColourMap() returns (ok: bool)
      modifies this`input
      ensures match DecodeColourMap(old(input))
              case Got(_, rest) => ok && input == rest
              case Stuck(partial) => !ok && partial == []
    {
      if |input| < 5 {
        input := [];
        return false;
      }
      var padding := ReadFull(1);
      var first := ReadU16();
      var count := ReadU16();
      var colours := ReadFull(6 * count.value);
      ok := colours.Some?;
    }

    /** rfb.go:228-243: a text over 1 MiB ends the session. */
    method ReadCutText() returns (ok: bool)
      modifies this`input, this`drawn
      ensures match DecodeCutText(old(input))
              case Got(m, rest) => ok && input == rest && drawn == old(drawn) + [SetCutText(m.text)]
              case Stuck(partial) => !ok && partial == [] && drawn == old(drawn)
    {
      if |input| < 7 {
        input := [];
        return false;
      }
      var reserved := ReadFull(3);
      var length := ReadU32();
      if length.value > MAX_CUT_TEXT {
        return false;
      }
      var text := ReadFull(length.value);
      if text.None? {
        return false;
      }
      drawn := drawn + [SetCutText(text.value)];
      ok := true;
    }
  }

  /** The request after the last update could not be sent. */
  function Unanswered(screen: Screen): Screen {
    screen.(sent := if screen.sent == [] then [] else screen.sent[..|screen.sent| - 1])
  }

  lemma HandleOneMore(screen: Screen, messages: seq<Message>, m: Message)
    ensures HandleAll(screen, messages + [m]) == Handle(HandleAll(screen, messages), m)
  {
  }

  /** A client whose requests can be sent handles exactly the messages the server sent. */
  lemma ServerIsUnderstood(screen: Screen, messages: seq<Message>)
    requires forall m <- messages :: m.WellFormed()
    ensures var parsed := Parse(EncodeAll(messages, []));
            DrawAll(HandleAll(screen, parsed.messages), parsed.partial) == HandleAll(screen, messages)
  {
    NothingLeftOver(messages);
  }

  /** A server reads a client's message back field by field. */
  lemma UpdateRequestBack(incremental: bool, width: u16, height: u16)
    ensures var m := UpdateRequest(incremental, width, height);
            && |m| == 10 && m[0] == 3 && (m[1] == 1 <==> incremental)
            && TakeU32(m[2..]) == Some((0, m[6..]))
            && TakeU16(m[6..]) == Some((width, m[8..])) && TakeU16(m[8..]) == Some((height, []))
  {
  }

  lemma KeyMessageBack(keysym: u32, down: bool)
    ensures var m := KeyMessage(keysym, down);
            && |m| == 8 && m[0] == 4 && (m[1] == 1 <==> down) && TakeU32(m[4..]) == Some((keysym, []))
  {
    U32Back(keysym, U32(keysym, []), []);
    assert KeyMessage(keysym, down)[4..] == U32(keysym, []);
  }

  lemma PointerMessageBack(x: u16, y: u16, buttons: byte)
    ensures var m := PointerMessage(x, y, buttons);
            && |m| == 6 && m[0] == 5 && m[1] == buttons
            && TakeU16(m[2..]) == Some((x, m[4..])) && TakeU16(m[4..]) == Some((y, []))
  {
  }

  function Finished(screen: Screen): Screen {
    screen.(drawn := screen.drawn + [Updated])
  }

  /** What reading rectangles comes to: the screen, the rest of the input, and whether all were there. */
  datatype Outcome = Outcome(screen: Screen, rest: bytes, complete: bool)

  ghost function Reading(screen: Screen, s: bytes, count: nat): Outcome
    decreases count
  {
    if count == 0 then Outcome(screen, s, true)
    else
      match DecodeRect(s)
      case None => Outcome(screen, s, false)
      case Some((r, rest)) => Reading(Draw(screen, r), rest, count - 1)
  }

  /** Reading and drawing one rectangle after the other draws what the whole update holds. */
  lemma {:induction false} ReadingIsDrawing(screen: Screen, s: bytes, count: nat)
    ensures var read := DecodeRects(s, count);
            Reading(screen, s, count) == Outcome(DrawAll(screen, read.rects), read.rest, read.complete)
    decreases count
  {
    hide DecodeRect;
    if count > 0 {
      match DecodeRect(s)
      case None =>
      case Some((r, rest)) =>
        ReadingIsDrawing(Draw(screen, r), rest, count - 1);
        assert DecodeRects(s, count).rects[1..] == DecodeRects(rest, count - 1).rects;
    }
  }
}
