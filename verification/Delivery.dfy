/**
 What one attached client is sent, from end to end: the replayed tail of its snapshot and the live
 chunks, over every run of the session (internal/session/session.go).
 */
module Delivery {
  import opened Bytes
  import opened Session
  import opened SessionRuns
  import opened Replay
  import Codec

  /** A replayed tail of a ring snapshot at offset q is a stretch of the output that ends at q. */
  lemma TailOfOutput(stream: Bytes, q: nat, snapshot: Bytes, tail: Bytes)
    requires q <= |stream| && snapshot == Tail(stream[..q], RING_CAPACITY) && ReplayTail(snapshot, tail)
    ensures |tail| <= REPLAY_TAIL + REWIND && |tail| <= q && tail == stream[q - |tail|..q]
  {
    TailIsSuffix(stream, q, snapshot, stream[q..]);
    assert snapshot == stream[q - |snapshot|..q];
  }

  /** A stretch of output that ends at q and the live bytes from q to `end`. */
  predicate OneStretch(stream: Bytes, q: nat, tail: Bytes, live: Bytes, end: nat) {
    && |tail| <= REPLAY_TAIL + REWIND && |tail| <= q <= |stream| && end <= |stream|
    && tail == stream[q - |tail|..q]
    && (q <= end ==> tail + live == stream[q - |tail|..end])
  }

  lemma Joined(stream: Bytes, q: nat, snapshot: Bytes, tail: Bytes, live: Bytes, end: nat)
    requires q <= |stream| && end <= |stream|
    requires snapshot == Tail(stream[..q], RING_CAPACITY) && ReplayTail(snapshot, tail)
    requires q <= end ==> live == stream[q..end]
    ensures OneStretch(stream, q, tail, live, end)
  {
    TailOfOutput(stream, q, snapshot, tail);
    if q <= end {
      assert stream[q - |tail|..q] + stream[q..end] == stream[q - |tail|..end];
    }
  }

  /** The live bytes of an attach: the chunks offered to it from q on. */
  function LiveBytes(a: Attach, q: nat): Bytes {
    Concat(Datas(Live(a.offered, q)))
  }

  /**
   In every run, for every attach with a snapshot at q: what replay sends is a stretch of the output
   that ends at q, of at most 262144 + 1024 bytes, and the live chunks from q on continue it without
   a gap to where the attach left the slot.
   */
  lemma ClientSeesOneStretch(es: seq<Event>, c: Conn, tail: Bytes)
    requires c in Exec(INIT, es).attaches && Exec(INIT, es).attaches[c].snap.Some?
    requires ReplayTail(Exec(INIT, es).attaches[c].snap.value.bytes, tail)
    ensures var s := Exec(INIT, es); var a := s.attaches[c]; var q := a.snap.value.at;
      OneStretch(s.stream, q, tail, LiveBytes(a, q), End(s, c))
  {
    NoOutputGap(es, c);
    var s := Exec(INIT, es);
    var a := s.attaches[c];
    Joined(s.stream, a.snap.value.at, a.snap.value.bytes, tail, LiveBytes(a, a.snap.value.at), End(s, c));
  }

  /** What `c` is sent is one stretch, and some byte of the replayed tail is also offered live exactly
      when part of that tail was printed between its install and the end of its share. */
  ghost predicate SharesExactly(s: System, c: Conn, tail: Bytes)
    requires c in s.attaches && s.attaches[c].snap.Some?
  {
    var a := s.attaches[c];
    var q := a.snap.value.at;
    && OneStretch(s.stream, q, tail, LiveBytes(a, q), End(s, c))
    && (SomeMeets(a.offered, q - |tail|, q) <==> Greatest(a.installedAt, q - |tail|) < Least(End(s, c), q))
  }

  lemma StretchIsExact(s: System, c: Conn, tail: Bytes)
    requires c in s.attaches && s.attaches[c].snap.Some? && Covered(s, c)
    requires var a := s.attaches[c]; var q := a.snap.value.at; OneStretch(s.stream, q, tail, LiveBytes(a, q), End(s, c))
    ensures SharesExactly(s, c, tail)
  {
    var a := s.attaches[c];
    var q := a.snap.value.at;
    ChainMeets(a.offered, a.installedAt, End(s, c), s.stream, q - |tail|, q);
  }

  /**
   In every run, replay and live output share a byte exactly when part of the stretch that replay sends
   was printed after the attach took the slot and before it left it. An empty stretch shares nothing.
   */
  lemma ReplayedTwiceIff(es: seq<Event>, c: Conn, tail: Bytes)
    requires c in Exec(INIT, es).attaches && Exec(INIT, es).attaches[c].snap.Some?
    requires ReplayTail(Exec(INIT, es).attaches[c].snap.value.bytes, tail)
    ensures SharesExactly(Exec(INIT, es), c, tail)
  {
    ClientSeesOneStretch(es, c, tail);
    ReachableStatesAreGood(es);
    assert Covered(Exec(INIT, es), c);
    StretchIsExact(Exec(INIT, es), c, tail);
  }

  /** Every chunk ever offered to a client fits one output frame and passes the routed codec unchanged. */
  lemma LiveChunksRoute(es: seq<Event>, c: Conn, i: nat, sid: Bytes)
    requires c in Exec(INIT, es).attaches && i < |Exec(INIT, es).attaches[c].offered|
    requires |sid| == Codec.SESSION_ID_LEN && !Codec.IsConnId(sid)
    ensures var frame := [Codec.OUTPUT] + Exec(INIT, es).attaches[c].offered[i].data;
      && IsReplayFrame(frame)
      && var wire := Codec.DecodeRouted(Codec.Layout(sid, frame[0], frame[1..]));
         wire.Ok? && wire.value.sid == sid && Codec.SessionFrame(wire.value) == frame
  {
    ReachableStatesAreGood(es);
    var s := Exec(INIT, es);
    assert Covered(s, c);
    ChainSpells(s.attaches[c].offered, s.attaches[c].installedAt, End(s, c), s.stream);
    LiveFramesRoute(sid, s.attaches[c].offered[i].data);
  }
}
