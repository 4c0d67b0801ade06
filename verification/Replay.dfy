/**
 The attach-time replay of recent output and the persistent PTY reader
 (internal/session/session.go: replayOutput, alignTailStart, outputPump).
 */
module Replay {
  import opened Bytes
  import opened Session
  import Codec

  const REPLAY_TAIL: nat := 256 * 1024
  const REWIND: nat := 1024
  const REPLAY_CHUNK: nat := 32 * 1024

  /** The first position at or after `start` that does not hold a continuation byte. */
  function Boundary(b: Bytes, start: nat): nat
    requires start <= |b|
    decreases |b| - start
  {
    if start < |b| && IsContinuation(b[start]) then Boundary(b, start + 1) else start
  }

  lemma {:induction false} BoundaryIsFirst(b: Bytes, start: nat)
    requires start <= |b|
    ensures start <= Boundary(b, start) <= |b|
    ensures forall i :: start <= i < Boundary(b, start) ==> IsContinuation(b[i])
    ensures Boundary(b, start) < |b| ==> !IsContinuation(b[Boundary(b, start)])
    decreases |b| - start
  {
    if start < |b| && IsContinuation(b[start]) {
      BoundaryIsFirst(b, start + 1);
    }
  }

  /** `r` is where a cut that should begin at the boundary `k` may safely begin: at the
      nearest ESC at most REWIND bytes back, or at `k` when there is none. */
  predicate SafeCut(b: Bytes, k: nat, r: nat) {
    && r <= k <= |b| && k <= r + REWIND
    && (forall i :: r < i < k ==> b[i] != ESC)
    && (r < k ==> b[r] == ESC)
    && (r == k ==> forall i :: 0 <= i < k && k <= i + REWIND ==> b[i] != ESC)
  }

  method AlignTailStart(b: Bytes, start: nat) returns (r: nat)
    ensures start >= |b| ==> r == start
    ensures start < |b| ==> SafeCut(b, Boundary(b, start), r)
  {
    if start >= |b| {
      return start;
    }
    var k := start;
    while k < |b| && IsContinuation(b[k])
      invariant start <= k <= |b|
      invariant Boundary(b, k) == Boundary(b, start)
    {
      k := k + 1;
    }
    var i := k - 1;
    while i >= 0 && k - i <= REWIND
      invariant -1 <= i < k && k - i <= REWIND + 1
      invariant forall j :: i < j < k ==> b[j] != ESC
    {
      if b[i] == ESC {
        return i;
      }
      i := i - 1;
    }
    return k;
  }

  /** `tail` is what replay may send of the snapshot `data`. */
  ghost predicate ReplayTail(data: Bytes, tail: Bytes) {
    && |tail| <= |data| && tail == data[|data| - |tail|..]
    && (|data| <= REPLAY_TAIL ==> tail == data)
    && (|data| > REPLAY_TAIL ==>
          && |tail| <= REPLAY_TAIL + REWIND
          && (tail == [] || tail[0] == ESC || !IsContinuation(tail[0]))
          && SafeCut(data, Boundary(data, |data| - REPLAY_TAIL), |data| - |tail|))
  }

  predicate IsReplayFrame(f: Bytes) {
    1 < |f| <= 1 + REPLAY_CHUNK && f[0] == Codec.OUTPUT
  }

  function Payload(frame: Bytes): Bytes {
    if frame == [] then [] else frame[1..]
  }

  function Payloads(frames: seq<Bytes>): seq<Bytes> {
    seq(|frames|, i requires 0 <= i < |frames| => Payload(frames[i]))
  }

  /** The cut itself. */
  method CutTail(snapshot: Bytes) returns (data: Bytes)
    ensures ReplayTail(snapshot, data)
  {
    data := snapshot;
    if |data| > REPLAY_TAIL {
      BoundaryIsFirst(data, |data| - REPLAY_TAIL);
      var start := AlignTailStart(data, |data| - REPLAY_TAIL);
      data := data[start..];
    }
  }

  /** Send a snapshot over a connection that accepts `accepts` writes before failing. */
  method ReplayOutput(snapshot: Bytes, accepts: nat) returns (frames: seq<Bytes>, ok: bool, ghost tail: Bytes)
    ensures ReplayTail(snapshot, tail)
    ensures forall i :: 0 <= i < |frames| ==> IsReplayFrame(frames[i])
    ensures forall i :: 0 <= i < |frames| - 1 ==> |frames[i]| == 1 + REPLAY_CHUNK
    ensures ok ==> Concat(Payloads(frames)) == tail
    ensures !ok ==> |frames| == accepts && Concat(Payloads(frames)) < tail
  {
    frames, ok := [], true;
    var data := CutTail(snapshot);
    tail := data;
    ghost var sent: Bytes := [];
    while |data| > 0
      invariant forall i :: 0 <= i < |frames| ==> IsReplayFrame(frames[i])
      invariant forall i :: 0 <= i < |frames| - (if data == [] then 1 else 0) ==> |frames[i]| == 1 + REPLAY_CHUNK
      invariant |frames| <= accepts
      invariant Concat(Payloads(frames)) == sent && sent + data == tail
      decreases |data|
    {
      if |frames| == accepts {
        ok := false;
        return;
      }
      var n := if |data| > REPLAY_CHUNK then REPLAY_CHUNK else |data|;
      var frame := Codec.EncodeFrame(Codec.OUTPUT, data[..n]);
      FrameAppends(frames, frame, data[..n]);
      SplitAt(sent, data, n);
      frames := frames + [frame];
      sent := sent + data[..n];
      data := data[n..];
    }
  }

  lemma SplitAt(sent: Bytes, data: Bytes, n: nat)
    requires n <= |data|
    ensures (sent + data[..n]) + data[n..] == sent + data
  {
    assert data[..n] + data[n..] == data;
    Assoc(sent, data[..n], data[n..]);
  }

  lemma FrameAppends(frames: seq<Bytes>, frame: Bytes, payload: Bytes)
    requires frame == [Codec.OUTPUT] + payload
    ensures Concat(Payloads(frames + [frame])) == Concat(Payloads(frames)) + payload
  {
    assert Payloads(frames + [frame]) == Payloads(frames) + [payload];
    ConcatSnoc(Payloads(frames), payload);
  }

  /** Every Output frame of replay or pump size passes the routed codec unchanged. */
  lemma OutputFramesRoute(sid: Bytes, frame: Bytes)
    requires |sid| == Codec.SESSION_ID_LEN && !Codec.IsConnId(sid) && IsReplayFrame(frame)
    ensures |frame[1..]| <= Codec.MAX_PAYLOAD
    ensures var wire := Codec.DecodeRouted(Codec.Layout(sid, frame[0], frame[1..]));
      wire.Ok? && wire.value.sid == sid && Codec.SessionFrame(wire.value) == frame
  {
    Codec.DecodeInvertsEncode(sid, frame[0], frame[1..]);
  }

  /** And a live chunk, which is one read of the terminal, makes such a frame. */
  lemma LiveFramesRoute(sid: Bytes, data: Bytes)
    requires |sid| == Codec.SESSION_ID_LEN && !Codec.IsConnId(sid) && 0 < |data| <= READ_BUFFER
    ensures var frame := [Codec.OUTPUT] + data;
      && IsReplayFrame(frame)
      && var wire := Codec.DecodeRouted(Codec.Layout(sid, frame[0], frame[1..]));
         wire.Ok? && wire.value.sid == sid && Codec.SessionFrame(wire.value) == frame
  {
    OutputFramesRoute(sid, [Codec.OUTPUT] + data);
  }

  // --- the PTY reader --------------------------------------------------------------

  /** What fits in the read buffer. */
  type ReadData = b: Bytes | |b| <= READ_BUFFER

  /** What one read of the terminal returned; data and an error may come together. */
  datatype Read = Read(data: ReadData, failed: bool)

  /** All data read up to and including the first failing read. */
  function Received(input: seq<Read>): Bytes {
    if input == [] then []
    else input[0].data + if input[0].failed then [] else Received(input[1..])
  }

  /** After i reads, `now` and what is still to come make up everything. */
  ghost predicate Pumped(before: Bytes, input: seq<Read>, i: nat, now: Bytes) {
    i <= |input| && now + Received(input[i..]) == before + Received(input)
  }

  lemma PumpStarts(before: Bytes, input: seq<Read>)
    ensures Pumped(before, input, 0, before)
  {
    assert input[0..] == input;
  }

  lemma PumpTakes(before: Bytes, input: seq<Read>, i: nat, now: Bytes)
    requires Pumped(before, input, i, now) && i < |input|
    ensures input[i].failed ==> now + input[i].data == before + Received(input)
    ensures !input[i].failed ==> Pumped(before, input, i + 1, now + input[i].data)
  {
    assert input[i..][1..] == input[i + 1..];
    assert Received(input[i..]) == input[i].data + if input[i].failed then [] else Received(input[i + 1..]);
    Assoc(now, input[i].data, Received(input[i + 1..]));
  }

  lemma PumpEnds(before: Bytes, input: seq<Read>, now: Bytes)
    requires Pumped(before, input, |input|, now)
    ensures now == before + Received(input)
  {
    assert now + [] == now;
  }

  /** The pump loop: everything the terminal returned reaches the session, the last piece
      included even when it arrives together with the error that ends the loop. */
  method OutputPump(s: Session, input: seq<Read>) returns (exited: bool)
    requires s.Valid()
    modifies s, s.out
    ensures s.Valid() && s.printed == old(s.printed) + Received(input)
    ensures exited <==> exists i :: 0 <= i < |input| && input[i].failed
    ensures s.state == old(s.state) && s.conn == old(s.conn) && s.attachEpoch == old(s.attachEpoch)
  {
    exited := false;
    var i := 0;
    PumpStarts(s.printed, input);
    while i < |input|
      invariant 0 <= i <= |input|
      invariant s.Valid()
      invariant Pumped(old(s.printed), input, i, s.printed)
      invariant forall j :: 0 <= j < i ==> !input[j].failed
      invariant s.state == old(s.state) && s.conn == old(s.conn) && s.attachEpoch == old(s.attachEpoch)
    {
      PumpTakes(old(s.printed), input, i, s.printed);
      ghost var now := s.printed;
      if |input[i].data| > 0 {
        var _ := s.PumpChunk(input[i].data);
      }
      assert s.printed == now + input[i].data;
      if input[i].failed {
        exited := true;
        return;
      }
      i := i + 1;
    }
    PumpEnds(old(s.printed), input, s.printed);
  }
}
