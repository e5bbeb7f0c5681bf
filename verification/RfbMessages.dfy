/**
 * Server messages of the Remote Framebuffer protocol: how they are laid out
 * (sections 7.6, 7.7.1, 7.7.2 and 7.8.2 of RFC 6143) and how the client takes
 * them apart (internal/rfb/rfb.go:18-34, 200-301).  A writer takes what
 * follows on the wire as its last argument.
 */
module RfbMessages {
  import opened Bytes
  import opened Faults

  type u16 = x: nat | x < 0x1_0000
  type u32 = x: nat | x < 0x1_0000_0000

  const RAW: int := 0
  const COPY_RECT: int := 1
  const DESKTOP_SIZE: int := -223

  const FRAMEBUFFER_UPDATE: byte := 0
  const SET_COLOUR_MAP_ENTRIES: byte := 1
  const BELL: byte := 2
  const SERVER_CUT_TEXT: byte := 3

  const MAX_CUT_TEXT: nat := 0x10_0000

  datatype Body = Raw(pixels: bytes) | CopyFrom(sourceX: u16, sourceY: u16) | DesktopSize

  datatype Rect = Rect(x: u16, y: u16, width: u16, height: u16, body: Body) {
    predicate WellFormed() {
      body.Raw? ==> |body.pixels| == PixelBytes(width, height)
    }
  }

  datatype Message =
    | Update(padding: byte, rects: seq<Rect>)
    | ColourMap(padding: byte, first: u16, count: u16, colours: bytes)
    | Bell
    | CutText(reserved: bytes, text: bytes)
  {
    predicate WellFormed() {
      match this
      case Update(_, rects) => |rects| < 0x1_0000 && forall r <- rects :: r.WellFormed()
      case ColourMap(_, _, count, colours) => |colours| == 6 * count
      case Bell => true
      case CutText(reserved, text) => |reserved| == 3 && |text| <= MAX_CUT_TEXT
    }
  }

  function PixelBytes(width: nat, height: nat): nat {
    width * height * 4
  }

  // ---- the layout

  function U16(n: u16, rest: bytes): bytes {
    [(n / 256) as byte, (n % 256) as byte] + rest
  }

  function U32(n: u32, rest: bytes): bytes {
    U16(n / 0x1_0000, U16(n % 0x1_0000, rest))
  }

  /** Two's complement. */
  function I32(n: int, rest: bytes): bytes
    requires -0x8000_0000 <= n < 0x8000_0000
  {
    U32(if n < 0 then n + 0x1_0000_0000 else n, rest)
  }

  /** Section 7.6.1 of RFC 6143, one rectangle; sections 7.7.1, 7.7.2 and 7.8.2 for what follows its header. */
  function EncodeRect(r: Rect, rest: bytes): bytes {
    U16(r.x, U16(r.y, U16(r.width, U16(r.height, match r.body
                                                 case Raw(pixels) => I32(RAW, pixels + rest)
                                                 case CopyFrom(x, y) => I32(COPY_RECT, U16(x, U16(y, rest)))
                                                 case DesktopSize => I32(DESKTOP_SIZE, rest)))))
  }

  function EncodeRects(rects: seq<Rect>, rest: bytes): bytes {
    if rects == [] then rest else EncodeRect(rects[0], EncodeRects(rects[1..], rest))
  }

  /** Sections 7.6.1 to 7.6.4 of RFC 6143. */
  function Encode(m: Message, rest: bytes): bytes
    requires m.WellFormed()
  {
    match m
    case Update(padding, rects) => [FRAMEBUFFER_UPDATE, padding] + U16(|rects|, EncodeRects(rects, rest))
    case ColourMap(padding, first, count, colours) => [SET_COLOUR_MAP_ENTRIES, padding]
      + U16(first, U16(count, colours + rest))
    case Bell => [BELL] + rest
    case CutText(reserved, text) => [SERVER_CUT_TEXT] + (reserved + U32(|text|, text + rest))
  }

  function EncodeAll(messages: seq<Message>, rest: bytes): bytes
    requires forall m <- messages :: m.WellFormed()
  {
    if messages == [] then rest else Encode(messages[0], EncodeAll(messages[1..], rest))
  }

  // ---- taking messages apart

  function TakeU16(s: bytes): Option<(u16, bytes)> {
    if |s| < 2 then None else Some((s[0] as int * 256 + s[1] as int, s[2..]))
  }

  function TakeU32(s: bytes): Option<(u32, bytes)> {
    if |s| < 4 then None
    else
      var (high, rest) := TakeU16(s).value;
      var (low, after) := TakeU16(rest).value;
      Some((high * 0x1_0000 + low, after))
  }

  function TakeI32(s: bytes): Option<(int, bytes)> {
    match TakeU32(s)
    case None => None
    case Some((n, rest)) => Some((if n >= 0x8000_0000 then n - 0x1_0000_0000 else n, rest))
  }

  function TakeBytes(s: bytes, count: nat): Option<(bytes, bytes)> {
    if |s| < count then None else Some((s[..count], s[count..]))
  }

  lemma U16Back(n: u16, s: bytes, rest: bytes)
    ensures U16(n, rest) == s <==> TakeU16(s) == Some((n, rest))
  {
    if TakeU16(s) == Some((n, rest)) {
      assert s == [s[0], s[1]] + s[2..];
    }
  }

  lemma Halves(n: u32, high: u16, low: u16)
    ensures n == high * 0x1_0000 + low <==> high == n / 0x1_0000 && low == n % 0x1_0000
  {
  }

  lemma U32Back(n: u32, s: bytes, rest: bytes)
    ensures U32(n, rest) == s <==> TakeU32(s) == Some((n, rest))
  {
    var high: u16, low: u16 := n / 0x1_0000, n % 0x1_0000;
    U16Back(high, s, U16(low, rest));
    if |s| >= 4 {
      var (first, after) := TakeU16(s).value;
      U16Back(low, after, rest);
      Halves(n, first, TakeU16(after).value.0);
    }
  }

  lemma I32Back(n: int, s: bytes, rest: bytes)
    requires -0x8000_0000 <= n < 0x8000_0000
    ensures I32(n, rest) == s <==> TakeI32(s) == Some((n, rest))
  {
    var m := if n < 0 then n + 0x1_0000_0000 else n;
    U32Back(m, s, rest);
  }

  lemma BytesBack(contents: bytes, s: bytes, rest: bytes)
    ensures contents + rest == s <==> TakeBytes(s, |contents|) == Some((contents, rest))
  {
    if TakeBytes(s, |contents|) == Some((contents, rest)) {
      assert s == s[..|contents|] + s[|contents|..];
    }
  }

  // ---- rfb.go:268-298

  datatype Header = Header(x: u16, y: u16, width: u16, height: u16, encoding: int)

  function TakeHeader(s: bytes): (result: Option<(Header, bytes)>)
    ensures result.Some? ==> |result.value.1| == |s| - 12
  {
    if |s| < 12 then None
    else
      var (x, a) := TakeU16(s).value;
      var (y, b) := TakeU16(a).value;
      var (width, c) := TakeU16(b).value;
      var (height, d) := TakeU16(c).value;
      var (encoding, e) := TakeI32(d).value;
      Some((Header(x, y, width, height, encoding), e))
  }

  function TakeBody(h: Header, s: bytes): (result: Option<(Body, bytes)>)
    ensures result.Some? ==> |result.value.1| <= |s| && Rect(h.x, h.y, h.width, h.height, result.value.0).WellFormed()
  {
    if h.encoding == RAW then
      match TakeBytes(s, PixelBytes(h.width, h.height))
      case None => None
      case Some((pixels, rest)) => Some((Raw(pixels), rest))
    else if h.encoding == COPY_RECT then
      if |s| < 4 then None
      else
        var (x, a) := TakeU16(s).value;
        var (y, b) := TakeU16(a).value;
        Some((CopyFrom(x, y), b))
    else if h.encoding == DESKTOP_SIZE then Some((DesktopSize, s))
    else None
  }

  function DecodeRect(s: bytes): (result: Option<(Rect, bytes)>)
    ensures result.Some? ==> result.value.0.WellFormed() && |result.value.1| < |s|
  {
    match TakeHeader(s)
    case None => None
    case Some((h, body)) =>
      match TakeBody(h, body)
      case None => None
      case Some((b, rest)) => Some((Rect(h.x, h.y, h.width, h.height, b), rest))
  }

  function EncodingOf(b: Body): int {
    match b
    case Raw(_) => RAW
    case CopyFrom(_, _) => COPY_RECT
    case DesktopSize => DESKTOP_SIZE
  }

  function PutBody(b: Body, rest: bytes): bytes {
    match b
    case Raw(pixels) => pixels + rest
    case CopyFrom(x, y) => U16(x, U16(y, rest))
    case DesktopSize => rest
  }

  lemma HeaderBack(h: Header, s: bytes, rest: bytes)
    requires -0x8000_0000 <= h.encoding < 0x8000_0000
    ensures U16(h.x, U16(h.y, U16(h.width, U16(h.height, I32(h.encoding, rest))))) == s <==>
              TakeHeader(s) == Some((h, rest))
  {
    var e := I32(h.encoding, rest);
    var d := U16(h.height, e);
    var c := U16(h.width, d);
    var b := U16(h.y, c);
    U16Back(h.x, s, b);
    U16Back(h.y, b, c);
    U16Back(h.width, c, d);
    U16Back(h.height, d, e);
    I32Back(h.encoding, e, rest);
    if TakeHeader(s) == Some((h, rest)) {
      var (_, a1) := TakeU16(s).value;
      var (_, b1) := TakeU16(a1).value;
      var (_, c1) := TakeU16(b1).value;
      var (_, d1) := TakeU16(c1).value;
      U16Back(h.x, s, a1);
      U16Back(h.y, a1, b1);
      U16Back(h.width, b1, c1);
      U16Back(h.height, c1, d1);
      I32Back(h.encoding, d1, rest);
    }
  }

  lemma BodyBack(h: Header, b: Body, s: bytes, rest: bytes)
    requires h.encoding == EncodingOf(b) && Rect(h.x, h.y, h.width, h.height, b).WellFormed()
    ensures PutBody(b, rest) == s <==> TakeBody(h, s) == Some((b, rest))
  {
    match b
    case Raw(pixels) =>
      BytesBack(pixels, s, rest);
    case CopyFrom(x, y) =>
      U16Back(x, s, U16(y, rest));
      U16Back(y, U16(y, rest), rest);
      if |s| >= 4 {
        var (_, after) := TakeU16(s).value;
        U16Back(x, s, after);
        U16Back(y, after, rest);
      }
    case DesktopSize =>
  }

  /** The client reads a rectangle off exactly the bytes that encode it. */
  lemma RectBack(r: Rect, s: bytes, rest: bytes)
    requires r.WellFormed()
    ensures EncodeRect(r, rest) == s <==> DecodeRect(s) == Some((r, rest))
  {
    var h := Header(r.x, r.y, r.width, r.height, EncodingOf(r.body));
    var body := PutBody(r.body, rest);
    HeaderBack(h, s, body);
    BodyBack(h, r.body, body, rest);
    if DecodeRect(s) == Some((r, rest)) {
      var (found, after) := TakeHeader(s).value;
      HeaderBack(h, s, after);
      BodyBack(h, r.body, after, rest);
    }
  }

  /** What was read of an update: all its rectangles, or those before the first that cannot be read. */
  datatype Rects = Rects(rects: seq<Rect>, rest: bytes, complete: bool)

  function DecodeRects(s: bytes, count: nat): (result: Rects)
    ensures forall r <- result.rects :: r.WellFormed()
    ensures |result.rest| <= |s| && |result.rects| <= count && (result.complete ==> |result.rects| == count)
  {
    if count == 0 then Rects([], s, true)
    else
      match DecodeRect(s)
      case None => Rects([], s, false)
      case Some((r, rest)) =>
        var others := DecodeRects(rest, count - 1);
        others.(rects := [r] + others.rects)
  }

  lemma {:induction false} RectsBack(rects: seq<Rect>, s: bytes, rest: bytes)
    requires forall r <- rects :: r.WellFormed()
    ensures EncodeRects(rects, rest) == s <==> DecodeRects(s, |rects|) == Rects(rects, rest, true)
  {
    if rects != [] {
      var after := EncodeRects(rects[1..], rest);
      RectBack(rects[0], s, after);
      RectsBack(rects[1..], after, rest);
      match DecodeRect(s)
      case None =>
      case Some((r, left)) =>
        var others := DecodeRects(left, |rects| - 1);
        assert ([r] + others.rects)[1..] == others.rects;
        RectBack(r, s, left);
        if r == rects[0] {
          RectsBack(rects[1..], left, rest);
        }
    }
  }

  // ---- rfb.go:200-248, 260-267

  datatype Decoded = Got(message: Message, rest: bytes) | Stuck(partial: seq<Rect>)

  function DecodeMessage(s: bytes): (result: Decoded)
    ensures result.Got? ==> result.message.WellFormed() && |result.rest| < |s|
  {
    if s == [] then Stuck([])
    else if s[0] == FRAMEBUFFER_UPDATE then DecodeUpdate(s[1..])
    else if s[0] == SET_COLOUR_MAP_ENTRIES then DecodeColourMap(s[1..])
    else if s[0] == BELL then Got(Bell, s[1..])
    else if s[0] == SERVER_CUT_TEXT then DecodeCutText(s[1..])
    else Stuck([])
  }

  function DecodeUpdate(s: bytes): (result: Decoded)
    ensures result.Got? ==> result.message.Update? && result.message.WellFormed() && |result.rest| <= |s|
  {
    if |s| < 3 then Stuck([])
    else
      var (count, rest) := TakeU16(s[1..]).value;
      var read := DecodeRects(rest, count);
      if read.complete then Got(Update(s[0], read.rects), read.rest) else Stuck(read.rects)
  }

  function DecodeColourMap(s: bytes): (result: Decoded)
    ensures result.Got? ==> result.message.ColourMap? && result.message.WellFormed() && |result.rest| <= |s|
  {
    if |s| < 5 then Stuck([])
    else
      var (first, a) := TakeU16(s[1..]).value;
      var (count, b) := TakeU16(a).value;
      match TakeBytes(b, 6 * count)
      case None => Stuck([])
      case Some((colours, rest)) => Got(ColourMap(s[0], first, count, colours), rest)
  }

  function DecodeCutText(s: bytes): (result: Decoded)
    ensures result.Got? ==> result.message.CutText? && result.message.WellFormed() && |result.rest| <= |s|
  {
    if |s| < 7 then Stuck([])
    else
      var (length, a) := TakeU32(s[3..]).value;
      if length > MAX_CUT_TEXT then Stuck([])
      else
        match TakeBytes(a, length)
        case None => Stuck([])
        case Some((text, rest)) => Got(CutText(s[..3], text), rest)
  }

  lemma UpdateBack(padding: byte, rects: seq<Rect>, s: bytes, rest: bytes)
    requires Update(padding, rects).WellFormed()
    ensures [padding] + U16(|rects|, EncodeRects(rects, rest)) == s <==>
              DecodeUpdate(s) == Got(Update(padding, rects), rest)
  {
    var tail := EncodeRects(rects, rest);
    var counted := U16(|rects|, tail);
    BytesBack([padding], s, counted);
    U16Back(|rects|, counted, tail);
    RectsBack(rects, tail, rest);
    if |s| >= 3 {
      assert s[..1] == [s[0]];
      var (count, after) := TakeU16(s[1..]).value;
      if DecodeUpdate(s) == Got(Update(padding, rects), rest) {
        U16Back(count, s[1..], after);
        RectsBack(rects, after, rest);
      }
    }
  }

  lemma ColourMapBack(padding: byte, first: u16, count: u16, colours: bytes, s: bytes, rest: bytes)
    requires |colours| == 6 * count
    ensures [padding] + U16(first, U16(count, colours + rest)) == s <==>
              DecodeColourMap(s) == Got(ColourMap(padding, first, count, colours), rest)
  {
    var c := colours + rest;
    var b := U16(count, c);
    var a := U16(first, b);
    BytesBack([padding], s, a);
    U16Back(first, a, b);
    U16Back(count, b, c);
    BytesBack(colours, c, rest);
    if |s| >= 5 {
      assert s[..1] == [s[0]];
      var (_, b1) := TakeU16(s[1..]).value;
      var (_, c1) := TakeU16(b1).value;
      U16Back(first, s[1..], b1);
      U16Back(count, b1, c1);
      BytesBack(colours, c1, rest);
    }
  }

  lemma CutTextBack(reserved: bytes, text: bytes, s: bytes, rest: bytes)
    requires CutText(reserved, text).WellFormed()
    ensures reserved + U32(|text|, text + rest) == s <==> DecodeCutText(s) == Got(CutText(reserved, text), rest)
  {
    var b := text + rest;
    var a := U32(|text|, b);
    BytesBack(reserved, s, a);
    U32Back(|text|, a, b);
    BytesBack(text, b, rest);
    if |s| >= 7 {
      var (length, b1) := TakeU32(s[3..]).value;
      U32Back(length, s[3..], b1);
      BytesBack(text, b1, rest);
    }
  }

  lemma UpdateMessageBack(m: Message, s: bytes, rest: bytes)
    requires m.WellFormed() && m.Update? && s != []
    ensures Encode(m, rest) == s <==> DecodeMessage(s) == Got(m, rest)
  {
    var tail := U16(|m.rects|, EncodeRects(m.rects, rest));
    assert [FRAMEBUFFER_UPDATE, m.padding] + tail == [FRAMEBUFFER_UPDATE] + ([m.padding] + tail);
    assert s == [s[0]] + s[1..];
    UpdateBack(m.padding, m.rects, s[1..], rest);
  }

  lemma ColourMapMessageBack(m: Message, s: bytes, rest: bytes)
    requires m.WellFormed() && m.ColourMap? && s != []
    ensures Encode(m, rest) == s <==> DecodeMessage(s) == Got(m, rest)
  {
    var tail := U16(m.first, U16(m.count, m.colours + rest));
    assert [SET_COLOUR_MAP_ENTRIES, m.padding] + tail == [SET_COLOUR_MAP_ENTRIES] + ([m.padding] + tail);
    assert s == [s[0]] + s[1..];
    ColourMapBack(m.padding, m.first, m.count, m.colours, s[1..], rest);
  }

  lemma CutTextMessageBack(m: Message, s: bytes, rest: bytes)
    requires m.WellFormed() && m.CutText? && s != []
    ensures Encode(m, rest) == s <==> DecodeMessage(s) == Got(m, rest)
  {
    assert s == [s[0]] + s[1..];
    CutTextBack(m.reserved, m.text, s[1..], rest);
  }

  lemma BellBack(s: bytes, rest: bytes)
    requires s != []
    ensures Encode(Bell, rest) == s <==> DecodeMessage(s) == Got(Bell, rest)
  {
    assert s == [s[0]] + s[1..];
  }

  /** The client reads a message off exactly the bytes that encode it. */
  lemma MessageBack(m: Message, s: bytes, rest: bytes)
    requires m.WellFormed()
    ensures Encode(m, rest) == s <==> DecodeMessage(s) == Got(m, rest)
  {
    if s != [] {
      match m
      case Update(_, _) => UpdateMessageBack(m, s, rest);
      case ColourMap(_, _, _, _) => ColourMapMessageBack(m, s, rest);
      case Bell => BellBack(s, rest);
      case CutText(_, _) => CutTextMessageBack(m, s, rest);
    }
  }

  /** All messages that can be read, and what follows them. */
  datatype Parsed = Parsed(messages: seq<Message>, rest: bytes, partial: seq<Rect>)

  function Parse(s: bytes): (result: Parsed)
    ensures forall m <- result.messages :: m.WellFormed()
    decreases |s|
  {
    match DecodeMessage(s)
    case Stuck(partial) => Parsed([], s, partial)
    case Got(m, rest) =>
      var others := Parse(rest);
      others.(messages := [m] + others.messages)
  }

  function Prepended(messages: seq<Message>, parsed: Parsed): Parsed {
    parsed.(messages := messages + parsed.messages)
  }

  lemma OneMore(m: Message, tail: bytes)
    requires m.WellFormed()
    ensures Parse(Encode(m, tail)) == Prepended([m], Parse(tail))
  {
    MessageBack(m, Encode(m, tail), tail);
  }

  lemma PrependedTwice(first: seq<Message>, second: seq<Message>, parsed: Parsed)
    ensures Prepended(first, Prepended(second, parsed)) == Prepended(first + second, parsed)
  {
    assert first + (second + parsed.messages) == first + second + parsed.messages;
  }

  /** Well-formed messages are recovered exactly, whatever follows them. */
  lemma {:induction false} ParseRecovers(messages: seq<Message>, rest: bytes)
    requires forall m <- messages :: m.WellFormed()
    ensures Parse(EncodeAll(messages, rest)) == Prepended(messages, Parse(rest))
  {
    if messages == [] {
      assert [] + Parse(rest).messages == Parse(rest).messages;
    } else {
      var head, others := messages[0], messages[1..];
      ParseRecovers(others, rest);
      OneMore(head, EncodeAll(others, rest));
      PrependedTwice([head], others, Parse(rest));
      assert [head] + others == messages;
    }
  }

  /** A connection that carries whole messages only leaves nothing over. */
  lemma NothingLeftOver(messages: seq<Message>)
    requires forall m <- messages :: m.WellFormed()
    ensures Parse(EncodeAll(messages, [])) == Parsed(messages, [], [])
  {
    ParseRecovers(messages, []);
    assert messages + [] == messages;
  }

  /** Any input is the messages read from it and a rest that no message begins. */
  lemma {:induction false} ParseIsExact(s: bytes)
    ensures EncodeAll(Parse(s).messages, Parse(s).rest) == s
    ensures forall m: Message, tail: bytes :: m.WellFormed() ==> Encode(m, tail) != Parse(s).rest
    decreases |s|
  {
    match DecodeMessage(s)
    case Stuck(partial) =>
      forall m: Message, tail: bytes | m.WellFormed()
        ensures Encode(m, tail) != s
      {
        MessageBack(m, s, tail);
      }
    case Got(m, rest) =>
      ParseIsExact(rest);
      MessageBack(m, s, rest);
      assert ([m] + Parse(rest).messages)[1..] == Parse(rest).messages;
  }
}
