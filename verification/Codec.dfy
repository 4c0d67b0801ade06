/**
 The routed frame format, as the server (internal/terminal/protocol.go) and the browser
 (apps/web/src/utils/session-channel.ts) each implement it:

   session id (16 bytes) | type (1) | payload length (2, big endian) | payload
 */
module Codec {
  import opened Bytes

  const SESSION_ID_LEN: nat := 16
  const HEADER_LEN: nat := SESSION_ID_LEN + 3
  const MAX_PAYLOAD: nat := 0xFFFF

  const INPUT: byte := 0x31
  const PING: byte := 0x32
  const RESIZE: byte := 0x33
  const OUTPUT: byte := 0x31
  const ATTACH: byte := 0x41
  const DETACH: byte := 0x44

  datatype Result<+T> = Ok(value: T) | Err

  /** A decoded routed frame; the empty id marks a connection-level frame. */
  datatype Frame = Frame(sid: Bytes, kind: byte, payload: Bytes)

  datatype ClientMessage = ClientMessage(kind: byte, payload: Bytes)

  /** The all-zero id. */
  const CONN_LEVEL: Bytes := [0, 0, 0, 0, 0, 0, 0, 0, 0, 0, 0, 0, 0, 0, 0, 0]

  predicate IsConnId(id: Bytes) {
    |id| == SESSION_ID_LEN && forall i :: 0 <= i < |id| ==> id[i] == 0
  }

  /** The frame format itself: the reference both encoders are proved against. */
  function Layout(id: Bytes, kind: byte, payload: Bytes): Bytes {
    id + [kind, |payload| / 256 % 256, |payload| % 256] + payload
  }

  // --- server ------------------------------------------------------------------

  /** Go's copy(dst[at:], src) where src fits. */
  method CopyInto(dst: array<byte>, at: nat, src: Bytes)
    requires at + |src| <= dst.Length
    modifies dst
    ensures dst[..] == old(dst[..at]) + src + old(dst[at + |src|..])
  {
    var i := 0;
    while i < |src|
      invariant 0 <= i <= |src|
      invariant forall k :: 0 <= k < i ==> dst[at + k] == src[k]
      invariant forall k :: 0 <= k < dst.Length && !(at <= k < at + i) ==> dst[k] == old(dst[k])
    {
      dst[at + i] := src[i];
      i := i + 1;
    }
  }

  method FillFrame(id: Bytes, kind: byte, payload: Bytes) returns (frame: array<byte>)
    requires |id| == SESSION_ID_LEN
    ensures fresh(frame) && frame[..] == Layout(id, kind, payload)
  {
    frame := new byte[HEADER_LEN + |payload|];
    CopyInto(frame, 0, id);
    assert frame[..SESSION_ID_LEN] == id;
    frame[SESSION_ID_LEN] := kind;
    frame[SESSION_ID_LEN + 1] := |payload| / 256 % 256;
    frame[SESSION_ID_LEN + 2] := |payload| % 256;
    assert frame[..HEADER_LEN] == id + [kind, |payload| / 256 % 256, |payload| % 256];
    CopyInto(frame, HEADER_LEN, payload);
  }

  method EncodeRouted(sid: Bytes, kind: byte, payload: Bytes) returns (r: Result<Bytes>)
    ensures r.Ok? <==> |sid| == SESSION_ID_LEN && |payload| <= MAX_PAYLOAD
    ensures r.Ok? ==> r.value == Layout(sid, kind, payload)
    ensures r.Ok? && !IsConnId(sid) ==> DecodeRouted(r.value) == Ok(Frame(sid, kind, payload))
  {
    if |sid| != SESSION_ID_LEN || |payload| > MAX_PAYLOAD {
      return Err;
    }
    var frame := FillFrame(sid, kind, payload);
    if !IsConnId(sid) {
      DecodeInvertsEncode(sid, kind, payload);
    }
    return Ok(frame[..]);
  }

  method EncodeRoutedConn(kind: byte, payload: Bytes) returns (frame: Bytes)
    ensures frame == Layout(CONN_LEVEL, kind, payload)
    ensures DecodeRouted(frame) == if |payload| <= MAX_PAYLOAD then Ok(Frame([], kind, payload)) else Err
  {
    var buffer := FillFrame(CONN_LEVEL, kind, payload);
    LayoutDecodes(CONN_LEVEL, kind, payload);
    frame := buffer[..];
  }

  /** The bridge's frames: the first byte is the type, the rest the payload. */
  method EncodeRoutedSession(sid: Bytes, b: Bytes) returns (r: Result<Bytes>)
    ensures r.Ok? <==> b != [] && |sid| == SESSION_ID_LEN && |b| - 1 <= MAX_PAYLOAD
    ensures r.Ok? && !IsConnId(sid) ==>
      DecodeRouted(r.value).Ok? && DecodeRouted(r.value).value.sid == sid
      && SessionFrame(DecodeRouted(r.value).value) == b
  {
    if b == [] {
      return Err;
    }
    r := EncodeRouted(sid, b[0], b[1..]);
  }

  method EncodeFrame(kind: byte, payload: Bytes) returns (frame: Bytes)
    ensures frame == [kind] + payload
  {
    var buffer := new byte[1 + |payload|];
    buffer[0] := kind;
    assert buffer[..1] == [kind];
    CopyInto(buffer, 1, payload);
    frame := buffer[..];
  }

  /** The length field of a frame, big endian. */
  function DeclaredLength(frame: Bytes): int
    requires |frame| >= HEADER_LEN
  {
    frame[SESSION_ID_LEN + 1] as int * 256 + frame[SESSION_ID_LEN + 2] as int
  }

  function DecodeRouted(frame: Bytes): Result<Frame> {
    if |frame| < HEADER_LEN then Err
    else
      var id := frame[..SESSION_ID_LEN];
      var length := DeclaredLength(frame);
      var payload := frame[HEADER_LEN..];
      if length != |payload| || |payload| > MAX_PAYLOAD then Err
      else Ok(Frame(if IsConnId(id) then [] else id, frame[SESSION_ID_LEN], payload))
  }

  predicate IsConnLevel(f: Frame) {
    f.sid == []
  }

  /** What the router hands to a session channel: type byte and payload, header stripped. */
  function SessionFrame(f: Frame): Bytes {
    [f.kind] + f.payload
  }

  function DecodeClientFrame(frame: Bytes): Result<ClientMessage> {
    if frame == [] then Err
    else if frame[0] == INPUT || frame[0] == PING || frame[0] == RESIZE
    then Ok(ClientMessage(frame[0], frame[1..]))
    else Err
  }

  /** The id bytes a decoded frame was addressed to. */
  function Address(sid: Bytes): Bytes {
    if sid == [] then CONN_LEVEL else sid
  }

  /** Decoding a laid-out frame, for every id and every payload length. */
  lemma LayoutDecodes(id: Bytes, kind: byte, payload: Bytes)
    requires |id| == SESSION_ID_LEN
    ensures DecodeRouted(Layout(id, kind, payload)) ==
      if |payload| <= MAX_PAYLOAD
      then Ok(Frame(if IsConnId(id) then [] else id, kind, payload))
      else Err
  {
    var f := Layout(id, kind, payload);
    assert f[..SESSION_ID_LEN] == id;
    assert f[HEADER_LEN..] == payload;
  }

  lemma DecodeInvertsEncode(sid: Bytes, kind: byte, payload: Bytes)
    requires |sid| == SESSION_ID_LEN && !IsConnId(sid) && |payload| <= MAX_PAYLOAD
    ensures DecodeRouted(Layout(sid, kind, payload)) == Ok(Frame(sid, kind, payload))
  {
    LayoutDecodes(sid, kind, payload);
  }

  /** Every accepted frame is the encoding of what it decodes to, so no two frames decode
      to the same thing. */
  lemma EncodeInvertsDecode(frame: Bytes)
    requires DecodeRouted(frame).Ok?
    ensures var f := DecodeRouted(frame).value;
      && |Address(f.sid)| == SESSION_ID_LEN && |f.payload| <= MAX_PAYLOAD
      && frame == Layout(Address(f.sid), f.kind, f.payload)
  {
    var f := DecodeRouted(frame).value;
    assert frame == frame[..SESSION_ID_LEN] + frame[SESSION_ID_LEN..HEADER_LEN] + frame[HEADER_LEN..];
    assert frame[SESSION_ID_LEN..HEADER_LEN]
        == [f.kind, |f.payload| / 256 % 256, |f.payload| % 256];
  }

  lemma DecodeIsInjective(a: Bytes, b: Bytes)
    requires DecodeRouted(a).Ok? && DecodeRouted(a) == DecodeRouted(b)
    ensures a == b
  {
    EncodeInvertsDecode(a);
    EncodeInvertsDecode(b);
  }

  /** Messages a client may send survive the plain frame format; every other type byte is
      rejected. */
  lemma ClientFrameRoundTrip(kind: byte, payload: Bytes)
    ensures DecodeClientFrame([kind] + payload) ==
      if kind in {INPUT, PING, RESIZE} then Ok(ClientMessage(kind, payload)) else Err
  {
    assert ([kind] + payload)[1..] == payload;
  }

  // --- browser -----------------------------------------------------------------

  /** A UTF-16 code unit of a JavaScript string. */
  type CodeUnit = x: int | 0 <= x < 65536

  datatype BrowserFrame = BrowserFrame(sid: seq<CodeUnit>, connLevel: bool, kind: byte, payload: Bytes)

  const BROWSER_CONN_LEVEL: seq<CodeUnit> := [0, 0, 0, 0, 0, 0, 0, 0, 0, 0, 0, 0, 0, 0, 0, 0]

  /** The id field the browser writes: low bytes of the first 16 units, zero padded. */
  function BrowserId(sid: seq<CodeUnit>): Bytes {
    seq(SESSION_ID_LEN, i requires 0 <= i => if i < |sid| then sid[i] % 256 else 0)
  }

  method BrowserEncodeRouted(sid: seq<CodeUnit>, kind: byte, payload: Bytes) returns (frame: Bytes)
    ensures frame == Layout(BrowserId(sid), kind, payload)
  {
    var buffer := new byte[HEADER_LEN + |payload|];
    var i := 0;
    while i < SESSION_ID_LEN
      invariant 0 <= i <= SESSION_ID_LEN
      invariant forall k :: 0 <= k < i ==> buffer[k] == BrowserId(sid)[k]
    {
      buffer[i] := if i < |sid| then sid[i] % 256 else 0;
      i := i + 1;
    }
    buffer[SESSION_ID_LEN] := kind;
    buffer[SESSION_ID_LEN + 1] := |payload| / 256 % 256;
    buffer[SESSION_ID_LEN + 2] := |payload| % 256;
    assert buffer[..HEADER_LEN] == BrowserId(sid) + [kind, |payload| / 256 % 256, |payload| % 256];
    CopyInto(buffer, HEADER_LEN, payload);
    frame := buffer[..];
  }

  /** String.fromCharCode over the id bytes. */
  function CharCodes(id: Bytes): seq<CodeUnit> {
    id
  }

  function BrowserDecodeRouted(data: Bytes): Option<BrowserFrame> {
    if |data| < HEADER_LEN then None
    else
      var raw := CharCodes(data[..SESSION_ID_LEN]);
      var connLevel := raw == BROWSER_CONN_LEVEL;
      var declared := DeclaredLength(data);
      var payload := data[HEADER_LEN..];
      if declared != |payload| || declared > MAX_PAYLOAD then None
      else Some(BrowserFrame(if connLevel then [] else raw, connLevel, data[SESSION_ID_LEN], payload))
  }

  /** A session id as the browser generates it: sixteen one-byte units, not all zero. */
  predicate ProperSid(sid: seq<CodeUnit>) {
    && |sid| == SESSION_ID_LEN
    && (forall i :: 0 <= i < SESSION_ID_LEN ==> sid[i] < 256)
    && exists i :: 0 <= i < SESSION_ID_LEN && sid[i] != 0
  }

  /** On the ids and payloads the protocol allows, browser and server write the same bytes
      and the server reads them back. A longer payload is always rejected: it is never
      mistaken for some other frame. */
  lemma BrowserFramesAtServer(sid: seq<CodeUnit>, kind: byte, payload: Bytes)
    ensures ProperSid(sid) ==> BrowserId(sid) == sid && !IsConnId(BrowserId(sid))
    ensures DecodeRouted(Layout(BrowserId(sid), kind, payload)).Ok? <==> |payload| <= MAX_PAYLOAD
    ensures ProperSid(sid) && |payload| <= MAX_PAYLOAD ==>
      DecodeRouted(Layout(BrowserId(sid), kind, payload)) == Ok(Frame(BrowserId(sid), kind, payload))
  {
    LayoutDecodes(BrowserId(sid), kind, payload);
    if ProperSid(sid) {
      assert BrowserId(sid) == sid;
      var i :| 0 <= i < SESSION_ID_LEN && sid[i] != 0;
      assert BrowserId(sid)[i] != 0;
    }
  }

  /** The two decoders accept the same byte strings and read the same frame out of them. */
  lemma DecodersAgree(data: Bytes)
    ensures BrowserDecodeRouted(data).Some? <==> DecodeRouted(data).Ok?
    ensures DecodeRouted(data).Ok? ==>
      var s := DecodeRouted(data).value; var b := BrowserDecodeRouted(data).value;
      b.sid == s.sid && b.connLevel == IsConnLevel(s) && b.kind == s.kind && b.payload == s.payload
  {
    if DecodeRouted(data).Ok? {
      var id := data[..SESSION_ID_LEN];
      assert IsConnId(id) <==> id == CONN_LEVEL;
    }
  }
}
