/**
 What must happen on one WebSocket, beside what must not (Multiplex): every frame for an open
 registered connection is queued, nothing that a live connection's channel has put on the wire gets
 lost, and what an application sends over a fresh socket is read completely and in order
 (internal/api/ws_handler.go: dispatch, deliver; apps/web/src/utils/session-channel.ts: send).
 */
module Upstream {
  import opened Bytes
  import opened Codec
  import opened Channels
  import opened Multiplex

  /** Connection `v` is the one registered for its session, and not closed. */
  predicate Listening(n: Net, v: nat) {
    v in n.vcs && n.vcs[v].sid in n.table && n.table[n.vcs[v].sid] == v && !n.vcs[v].pipe.closed
  }

  /** The next frame on the wire is a session frame, neither Attach nor Detach, of session `sid`. */
  predicate DataNext(n: Net, sid: Bytes) {
    && n.serving && n.wire != [] && DecodeRouted(n.wire[0].bytes).Ok?
    && DecodeRouted(n.wire[0].bytes).value.sid == sid && DecodeRouted(n.wire[0].bytes).value.kind !in {ATTACH, DETACH}
  }

  lemma DataArrives(n: Net, found: bool, v: nat)
    requires Listening(n, v) && n.vcs[v].sid != [] && DataNext(n, n.vcs[v].sid)
    ensures var x, f := n.wire[0], DecodeRouted(n.wire[0].bytes).value;
      var t := Tagged(x.cid, if x.idx.Some? then x.idx.value else 0, [f.kind] + f.payload);
      Step(n, FrameArrives(found)) ==
        n.(wire := n.wire[1..],
           vcs := n.vcs[v := n.vcs[v].(pipe := Pipe(n.vcs[v].pipe.queue + [t], false), accepted := n.vcs[v].accepted + [t])])
  {
    assert Step(n, FrameArrives(found)) == DoFrame(n, found);
  }

  lemma SessionIdsAreProper(n: Net, v: nat)
    requires Ordered(n) && v in n.vcs
    ensures ProperId(n.vcs[v].sid) && n.vcs[v].cid in n.chans && n.chans[n.vcs[v].cid].sid == n.vcs[v].sid
  {
    assert ConnOk(n, v) && ChanOk(n, n.vcs[v].cid);
  }

  /** In every run, a session frame for a registered open connection is queued there, whole, behind
      everything queued before. */
  lemma FrameIsAccepted(es: seq<Event>, found: bool, v: nat)
    requires Listening(Exec(INIT, es), v) && DataNext(Exec(INIT, es), Exec(INIT, es).vcs[v].sid)
    ensures var n, m := Exec(INIT, es), Exec(INIT, es + [FrameArrives(found)]);
      var x, f := n.wire[0], DecodeRouted(n.wire[0].bytes).value;
      var t := Tagged(x.cid, if x.idx.Some? then x.idx.value else 0, [f.kind] + f.payload);
      && v in m.vcs && m.vcs[v].accepted == n.vcs[v].accepted + [t]
      && m.vcs[v].pipe.queue == n.vcs[v].pipe.queue + [t] && m.wire == n.wire[1..]
  {
    var n := Exec(INIT, es);
    ReachableNetsAreGood(es);
    SessionIdsAreProper(n, v);
    ExecSnoc(INIT, es, FrameArrives(found));
    DataArrives(n, found, v);
  }

  // --- nothing on the wire is lost ------------------------------------------------------------------

  /** Message `k` of channel `c` is one the server passes on: not a control frame, and not oversized. */
  predicate IsData(n: Net, c: nat, k: nat) {
    && c in n.chans && k < |n.chans[c].sent|
    && n.chans[c].sent[k].kind !in {ATTACH, DETACH} && |n.chans[c].sent[k].payload| <= MAX_PAYLOAD
  }

  /** Message `k` of the channel that attached `v` is on the wire or has been queued at `v`. */
  predicate OnItsWay(n: Net, v: nat, k: nat) {
    v in n.vcs && (k in WireIdx(n.wire, n.vcs[v].cid) || k in TagIdx(n.vcs[v].accepted))
  }

  lemma {:induction false} InWire(wire: seq<Item>, c: nat, k: nat)
    requires wire != [] && k in WireIdx(wire, c)
    ensures (wire[0].cid == c && wire[0].idx == Some(k)) || k in WireIdx(wire[1..], c)
  {
  }

  /** The wire and the sends of every channel only grow. */
  ghost predicate OnlyAppends(n: Net, m: Net) {
    && n.wire <= m.wire
    && forall c :: c in n.chans ==> c in m.chans && n.chans[c].sent <= m.chans[c].sent
  }

  lemma AttachAppends(n: Net, sid: Bytes)
    requires Ordered(n)
    ensures OnlyAppends(n, DoAttach(n, sid))
  {
    assert n.nextChan in n.chans ==> ChanOk(n, n.nextChan);
  }

  lemma SendAppends(n: Net, c: nat, msg: Msg)
    requires c in n.chans
    ensures OnlyAppends(n, DoSend(n, c, msg))
  {
  }

  lemma CloseAppends(n: Net, c: nat)
    requires c in n.chans
    ensures OnlyAppends(n, DoClose(n, c))
  {
  }

  lemma AckAppends(n: Net)
    requires n.acks != []
    ensures OnlyAppends(n, DoAck(n))
  {
  }

  lemma BrowserOnlyAppends(n: Net, e: Event)
    requires Ordered(n) && AtBrowser(e) && Enabled(n, e)
    ensures Step(n, e).vcs == n.vcs && OnlyAppends(n, Step(n, e))
  {
    BrowserLeavesServerAlone(n, e);
    match e
    case AppAttach(sid) => AttachAppends(n, sid);
    case AppSend(c, msg) => SendAppends(n, c, msg);
    case AppClose(c) => CloseAppends(n, c);
    case AckArrives => AckAppends(n);
  }

  lemma StaysOnWire(a: seq<Item>, b: seq<Item>, c: nat, k: nat)
    requires a <= b && k in WireIdx(a, c)
    ensures k in WireIdx(b, c)
  {
    assert b == a + b[|a|..];
    WireIdxAppend(a, b[|a|..], c);
  }

  /** The head of the wire is message `k`, and it reaches its connection. */
  lemma HeadIsQueued(n: Net, found: bool, v: nat, k: nat)
    requires Ordered(n) && n.serving && Listening(n, v) && n.wire != [] && IsData(n, n.vcs[v].cid, k)
    requires n.wire[0].cid == n.vcs[v].cid && n.wire[0].idx == Some(k)
    ensures OnItsWay(Step(n, FrameArrives(found)), v, k)
  {
    SessionIdsAreProper(n, v);
    var c := n.vcs[v].cid;
    assert ItemOk(n, n.wire[0]);
    var msg := n.chans[c].sent[k];
    LayoutDecodes(n.vcs[v].sid, msg.kind, msg.payload);
    DataArrives(n, found, v);
    var m := Step(n, FrameArrives(found));
    var a := m.vcs[v].accepted;
    assert TagIdx(a)[|a| - 1] == k;
  }

  /** Another frame at the head leaves message `k` where it is. */
  lemma OthersPass(n: Net, found: bool, v: nat, k: nat)
    requires Registered(n) && n.serving && n.wire != [] && v in n.vcs
    requires k in WireIdx(n.wire[1..], n.vcs[v].cid) || k in TagIdx(n.vcs[v].accepted)
    ensures OnItsWay(Step(n, FrameArrives(found)), v, k)
  {
    var m := n.(wire := n.wire[1..]);
    var d, x := DecodeRouted(n.wire[0].bytes), n.wire[0];
    assert Step(n, FrameArrives(found)) == DoFrame(n, found);
    FrameShape(n, found);
    DispatchReceived(m, d, x, found, v);
    var a, b := n.vcs[v].accepted, DoFrame(n, found).vcs[v].accepted;
    if k in TagIdx(a) {
      var i :| 0 <= i < |a| && TagIdx(a)[i] == k;
      assert TagIdx(b)[i] == k;
    }
  }

  lemma StepKeepsOnItsWay(n: Net, e: Event, v: nat, k: nat)
    requires Registered(n) && Ordered(n) && Listening(n, v) && IsData(n, n.vcs[v].cid, k) && OnItsWay(n, v, k)
    ensures OnItsWay(Step(n, e), v, k)
  {
    if Enabled(n, e) {
      if AtBrowser(e) {
        BrowserOnlyAppends(n, e);
        if k in WireIdx(n.wire, n.vcs[v].cid) {
          StaysOnWire(n.wire, Step(n, e).wire, n.vcs[v].cid, k);
        }
      } else if e.FrameArrives? {
        if k in TagIdx(n.vcs[v].accepted) {
          OthersPass(n, e.found, v, k);
        } else {
          InWire(n.wire, n.vcs[v].cid, k);
          if k in WireIdx(n.wire[1..], n.vcs[v].cid) {
            OthersPass(n, e.found, v, k);
          } else {
            HeadIsQueued(n, e.found, v, k);
          }
        }
      } else {
        QuietShape(n, e);
      }
    }
  }

  lemma SentStays(n: Net, e: Event, c: nat, k: nat)
    requires Ordered(n) && IsData(n, c, k)
    ensures IsData(Step(n, e), c, k)
  {
    if Enabled(n, e) {
      if AtBrowser(e) {
        BrowserOnlyAppends(n, e);
      } else if e.FrameArrives? {
        FrameShape(n, e.found);
      } else {
        QuietShape(n, e);
      }
    }
  }

  /**
   In every run and every continuation during which a connection stays registered and open: each message
   of its channel that was on the wire, or queued, at the start is still on the wire or has been queued
   at the end. Nothing gets lost between the socket and the bridge.
   */
  lemma {:induction false} NothingIsLost(es: seq<Event>, more: seq<Event>, v: nat, k: nat)
    requires forall i :: 0 <= i <= |more| ==> Listening(Exec(INIT, es + more[..i]), v)
    requires v in Exec(INIT, es).vcs && IsData(Exec(INIT, es), Exec(INIT, es).vcs[v].cid, k)
    requires OnItsWay(Exec(INIT, es), v, k)
    ensures var n := Exec(INIT, es + more); OnItsWay(n, v, k) && IsData(n, n.vcs[v].cid, k)
    decreases |more|
  {
    if more == [] {
      assert es + more == es;
    } else {
      var m0, e := more[..|more| - 1], more[|more| - 1];
      forall i | 0 <= i <= |m0| ensures Listening(Exec(INIT, es + m0[..i]), v) {
        assert m0[..i] == more[..i];
      }
      NothingIsLost(es, m0, v, k);
      ReachableNetsAreGood(es + m0);
      var n := Exec(INIT, es + m0);
      assert m0 == more[..|m0|];
      assert es + more == (es + m0) + [e];
      ExecSnoc(INIT, es + m0, e);
      StepKeepsOnItsWay(n, e, v, k);
      SentStays(n, e, n.vcs[v].cid, k);
      SameChannel(n, e, v);
    }
  }

  /** A connection keeps the channel that attached it. */
  lemma SameChannel(n: Net, e: Event, v: nat)
    requires Registered(n) && Ordered(n) && v in n.vcs
    ensures v in Step(n, e).vcs && Step(n, e).vcs[v].cid == n.vcs[v].cid
  {
    if Enabled(n, e) {
      if AtBrowser(e) {
        BrowserLeavesServerAlone(n, e);
      } else if e.FrameArrives? {
        DispatchReceived(n.(wire := n.wire[1..]), DecodeRouted(n.wire[0].bytes), n.wire[0], e.found, v);
        assert Step(n, e) == DoFrame(n, e.found);
      } else {
        QuietShape(n, e);
      }
    }
  }

  // --- control frames and cleanup take effect ---------------------------------------------------------

  /** In every run, an Attach of a known session without a connection registers a new one for the channel
      that sent it, open and empty. */
  lemma AttachRegisters(es: seq<Event>)
    requires var n := Exec(INIT, es); n.serving && n.wire != [] && DecodeRouted(n.wire[0].bytes).Ok?
    requires var f := DecodeRouted(Exec(INIT, es).wire[0].bytes).value;
      f.kind == ATTACH && f.sid != [] && f.sid !in Exec(INIT, es).table
    ensures var n, m := Exec(INIT, es), Exec(INIT, es + [FrameArrives(true)]);
      var sid, v := DecodeRouted(n.wire[0].bytes).value.sid, n.nextConn;
      && v !in n.vcs && Listening(m, v) && m.vcs[v].sid == sid && m.vcs[v].cid == n.wire[0].cid
      && m.vcs[v].pipe == Pipe([], false) && m.vcs[v].accepted == [] && !m.vcs[v].ending
      && forall w :: w in n.vcs ==> w in m.vcs && m.vcs[w] == n.vcs[w]
  {
    ReachableNetsAreGood(es);
    ExecSnoc(INIT, es, FrameArrives(true));
    var n := Exec(INIT, es);
    assert Step(n, FrameArrives(true)) == DoFrame(n, true);
  }

  /** In every run, an Attach of a session that has a connection is answered and changes nothing else. */
  lemma RepeatedAttachIsAnswered(es: seq<Event>, found: bool)
    requires var n := Exec(INIT, es); n.serving && n.wire != [] && DecodeRouted(n.wire[0].bytes).Ok?
    requires var f := DecodeRouted(Exec(INIT, es).wire[0].bytes).value;
      f.kind == ATTACH && f.sid != [] && f.sid in Exec(INIT, es).table
    ensures var n, m := Exec(INIT, es), Exec(INIT, es + [FrameArrives(found)]);
      m == n.(wire := n.wire[1..], acks := n.acks + [DecodeRouted(n.wire[0].bytes).value.sid])
  {
    ExecSnoc(INIT, es, FrameArrives(found));
    var n := Exec(INIT, es);
    assert Step(n, FrameArrives(found)) == DoFrame(n, found);
  }

  /** In every run, attaching a session without a channel makes a new one, which holds everything back, and
      sends an Attach. */
  lemma AttachIsSent(es: seq<Event>, sid: Bytes)
    requires var n := Exec(INIT, es); n.isOpen && ProperId(sid) && sid !in n.attachments
    ensures var n, m := Exec(INIT, es), Exec(INIT, es + [AppAttach(sid)]);
      && m.wire == n.wire + [Item(n.nextChan, None, Layout(sid, ATTACH, []))]
      && m.attachments == n.attachments[sid := n.nextChan]
      && m.chans == n.chans[n.nextChan := Chan(sid, Client(false, false, []), [])]
  {
    ExecSnoc(INIT, es, AppAttach(sid));
    assert Step(Exec(INIT, es), AppAttach(sid)) == DoAttach(Exec(INIT, es), sid);
  }

  /** In every run, closing an open channel sends a Detach and forgets it, and with the last one the socket. */
  lemma DetachIsSent(es: seq<Event>, c: nat)
    requires c in Exec(INIT, es).chans && !Exec(INIT, es).chans[c].view.closed
    ensures var n, m := Exec(INIT, es), Exec(INIT, es + [AppClose(c)]);
      && m.wire == n.wire + [Item(c, None, Layout(n.chans[c].sid, DETACH, []))]
      && m.attachments == n.attachments - {n.chans[c].sid} && c in m.chans && m.chans[c].view.closed
      && (m.isOpen <==> m.attachments != map[])
  {
    var n := Exec(INIT, es);
    ReachableNetsAreGood(es);
    ExecSnoc(INIT, es, AppClose(c));
    assert ChanOk(n, c);
    assert Step(n, AppClose(c)) == DoClose(n, c);
  }

  /** In every run, a Detach takes the session's connection out of the table and gives it a reason to end. */
  lemma DetachUnregisters(es: seq<Event>, found: bool)
    requires var n := Exec(INIT, es); n.serving && n.wire != [] && DecodeRouted(n.wire[0].bytes).Ok?
    requires var f := DecodeRouted(Exec(INIT, es).wire[0].bytes).value;
      f.kind == DETACH && f.sid != [] && f.sid in Exec(INIT, es).table
    ensures var n, m := Exec(INIT, es), Exec(INIT, es + [FrameArrives(found)]);
      var sid := DecodeRouted(n.wire[0].bytes).value.sid;
      && sid !in m.table && n.table[sid] in m.vcs && m.vcs[n.table[sid]].ending
      && forall s :: s in n.table && s != sid ==> s in m.table && m.table[s] == n.table[s]
  {
    ReachableNetsAreGood(es);
    ExecSnoc(INIT, es, FrameArrives(found));
    var n := Exec(INIT, es);
    assert Step(n, FrameArrives(found)) == DoFrame(n, found);
  }

  /** In every run, cleanup and teardown leave nothing of the connections they end in the table. */
  lemma CleanupCleans(es: seq<Event>, v: nat)
    requires v in Exec(INIT, es).vcs && Exec(INIT, es).vcs[v].ending
    ensures var m := Exec(INIT, es + [RemoveFromTable(v)]); forall s :: s in m.table ==> m.table[s] != v
    ensures var m := Exec(INIT, es + [MarkClosed(v)]); v in m.vcs && m.vcs[v].pipe.closed
  {
    ReachableNetsAreGood(es);
    ExecSnoc(INIT, es, RemoveFromTable(v));
    ExecSnoc(INIT, es, MarkClosed(v));
    assert Step(Exec(INIT, es), RemoveFromTable(v)) == DoRemove(Exec(INIT, es), v);
  }

  lemma TeardownEndsAll(es: seq<Event>)
    requires Exec(INIT, es).serving
    ensures var m := Exec(INIT, es + [Teardown]); m.table == map[] && !m.serving && forall v :: v in m.vcs ==> m.vcs[v].ending
  {
    ReachableNetsAreGood(es);
    ExecSnoc(INIT, es, Teardown);
    TeardownKeepsRegistered(Exec(INIT, es));
    assert Step(Exec(INIT, es), Teardown) == DoTeardown(Exec(INIT, es));
  }

  /** In every run, a connection whose attach is accepted is acknowledged; one whose attach is refused, or
      is over, is ending. */
  lemma AttachRuns(es: seq<Event>, v: nat, ok: bool)
    requires v in Exec(INIT, es).vcs
    ensures var n, m := Exec(INIT, es), Exec(INIT, es + [AttachStarts(v, ok)]);
      !n.vcs[v].started ==>
        && v in m.vcs && m.vcs[v].started && (!ok ==> m.vcs[v].ending)
        && m.acks == n.acks + if ok then [n.vcs[v].sid] else []
    ensures var n, m := Exec(INIT, es), Exec(INIT, es + [AttachEnds(v)]);
      n.vcs[v].started ==> v in m.vcs && m.vcs[v].ending
  {
    ExecSnoc(INIT, es, AttachStarts(v, ok));
    ExecSnoc(INIT, es, AttachEnds(v));
  }

  /** In every run, a bridge that reads gets the oldest frame that is queued, and the end exactly when
      there is none and the connection is closed. */
  lemma ReadsTheNext(es: seq<Event>, v: nat)
    requires v in Exec(INIT, es).vcs
    ensures var n, m := Exec(INIT, es), Exec(INIT, es + [BridgeReads(v)]);
      var p := n.vcs[v].pipe;
      && v in m.vcs && m.vcs[v].pipe == Pipe(if p.queue == [] then [] else p.queue[1..], p.closed)
      && m.vcs[v].taken == n.vcs[v].taken + (if p.queue == [] then [] else [p.queue[0]])
      && (m.vcs[v].eof <==> n.vcs[v].eof || (p.queue == [] && p.closed))
  {
    ExecSnoc(INIT, es, BridgeReads(v));
  }

  // --- from end to end ------------------------------------------------------------------------------

  /** Messages a .. b - 1 of a channel, numbered. */
  function Helds(msgs: seq<Msg>, a: nat, b: nat): seq<Held>
    requires a <= b <= |msgs|
  {
    seq(b - a, i requires 0 <= i < b - a => Held(a + i, msgs[a + i]))
  }

  /** The same as the server queues them. */
  function Tags(msgs: seq<Msg>, a: nat, b: nat): seq<Tagged>
    requires a <= b <= |msgs|
  {
    seq(b - a, i requires 0 <= i < b - a => Tagged(0, a + i, [msgs[a + i].kind] + msgs[a + i].payload))
  }

  predicate Sendable(msgs: seq<Msg>) {
    forall i :: 0 <= i < |msgs| ==> msgs[i].kind !in {ATTACH, DETACH} && |msgs[i].payload| <= MAX_PAYLOAD
  }

  predicate Fits(msgs: seq<Msg>, open: bool, p: nat, x: nat, y: nat) {
    p <= x <= y <= |msgs| && (open ==> y == |msgs|) && |msgs| - y <= PENDING_LIMIT
  }

  /** One channel and one connection: `p` messages read, `x` queued, `y` put on the wire, the rest held. */
  function Line(sid: Bytes, msgs: seq<Msg>, open: bool, p: nat, x: nat, y: nat, acks: seq<Bytes>): Net
    requires Fits(msgs, open, p, x, y)
  {
    Net(map[0 := Chan(sid, Client(open, false, Helds(msgs, y, |msgs|)), msgs)], map[sid := 0], true,
        Routes(sid, 0, Helds(msgs, x, y)), acks, true, map[sid := 0],
        map[0 := VChan(sid, 0, Pipe(Tags(msgs, p, x), false), true, false, Tags(msgs, 0, x), Tags(msgs, 0, p), false)], 1, 1)
  }

  lemma TagsStay(msgs: seq<Msg>, msg: Msg, a: nat, b: nat)
    requires a <= b <= |msgs|
    ensures Tags(msgs + [msg], a, b) == Tags(msgs, a, b) && Helds(msgs + [msg], a, b) == Helds(msgs, a, b)
  {
  }

  /** A message sent before the channel is open is held. */
  lemma LineHolds(sid: Bytes, msgs: seq<Msg>, p: nat, x: nat, y: nat, acks: seq<Bytes>, msg: Msg)
    requires Fits(msgs, false, p, x, y) && |msgs| - y < PENDING_LIMIT
    ensures Step(Line(sid, msgs, false, p, x, y, acks), AppSend(0, msg)) == Line(sid, msgs + [msg], false, p, x, y, acks)
  {
    var n, all := Line(sid, msgs, false, p, x, y, acks), msgs + [msg];
    assert Helds(all, y, |all|) == Helds(msgs, y, |msgs|) + [Held(|msgs|, msg)];
    TagsStay(msgs, msg, x, y);
    TagsStay(msgs, msg, p, x);
    TagsStay(msgs, msg, 0, x);
    TagsStay(msgs, msg, 0, p);
    assert Step(n, AppSend(0, msg)) == DoSend(n, 0, msg);
    assert Routes(sid, 0, []) == [] && n.wire + [] == n.wire;
  }

  /** One sent later goes to the wire. */
  lemma LineSends(sid: Bytes, msgs: seq<Msg>, p: nat, x: nat, acks: seq<Bytes>, msg: Msg)
    requires Fits(msgs, true, p, x, |msgs|)
    ensures Step(Line(sid, msgs, true, p, x, |msgs|, acks), AppSend(0, msg))
         == Line(sid, msgs + [msg], true, p, x, |msgs| + 1, acks)
  {
    var n, all, h := Line(sid, msgs, true, p, x, |msgs|, acks), msgs + [msg], Held(|msgs|, msg);
    assert Helds(all, |all|, |all|) == [] == Helds(msgs, |msgs|, |msgs|);
    assert Helds(all, x, |all|) == Helds(msgs, x, |msgs|) + [h];
    assert Routes(sid, 0, Helds(all, x, |all|)) == Routes(sid, 0, Helds(msgs, x, |msgs|)) + Routes(sid, 0, [h]);
    TagsStay(msgs, msg, p, x);
    TagsStay(msgs, msg, 0, x);
    TagsStay(msgs, msg, 0, p);
    assert Step(n, AppSend(0, msg)) == DoSend(n, 0, msg);
  }

  /** The AttachOK opens the channel, and everything held goes to the wire, in order. */
  lemma LineOpens(sid: Bytes, msgs: seq<Msg>, p: nat, x: nat, y: nat, acks: seq<Bytes>)
    requires Fits(msgs, false, p, x, y) && acks != [] && acks[0] == sid
    ensures Step(Line(sid, msgs, false, p, x, y, acks), AckArrives) == Line(sid, msgs, true, p, x, |msgs|, acks[1..])
  {
    var n := Line(sid, msgs, false, p, x, y, acks);
    assert Helds(msgs, x, |msgs|) == Helds(msgs, x, y) + Helds(msgs, y, |msgs|);
    assert Routes(sid, 0, Helds(msgs, x, |msgs|)) == Routes(sid, 0, Helds(msgs, x, y)) + Routes(sid, 0, Helds(msgs, y, |msgs|));
    assert Helds(msgs, |msgs|, |msgs|) == [];
    assert Step(n, AckArrives) == DoAck(n);
  }

  /** The server queues the next frame. */
  lemma LineArrives(sid: Bytes, msgs: seq<Msg>, open: bool, p: nat, x: nat, y: nat, acks: seq<Bytes>)
    requires Fits(msgs, open, p, x, y) && x < y && ProperId(sid) && Sendable(msgs)
    ensures Step(Line(sid, msgs, open, p, x, y, acks), FrameArrives(false)) == Line(sid, msgs, open, p, x + 1, y, acks)
  {
    var n := Line(sid, msgs, open, p, x, y, acks);
    var h, t := Held(x, msgs[x]), Tagged(0, x, [msgs[x].kind] + msgs[x].payload);
    assert Helds(msgs, x, y)[0] == h && Helds(msgs, x, y)[1..] == Helds(msgs, x + 1, y);
    assert n.wire[0] == Route(sid, 0, h) && n.wire[1..] == Routes(sid, 0, Helds(msgs, x + 1, y));
    LayoutDecodes(sid, msgs[x].kind, msgs[x].payload);
    DataArrives(n, false, 0);
    assert Tags(msgs, p, x + 1) == Tags(msgs, p, x) + [t] && Tags(msgs, 0, x + 1) == Tags(msgs, 0, x) + [t];
  }

  /** The bridge reads the next frame. */
  lemma LineReads(sid: Bytes, msgs: seq<Msg>, open: bool, p: nat, x: nat, y: nat, acks: seq<Bytes>)
    requires Fits(msgs, open, p, x, y) && p < x
    ensures Step(Line(sid, msgs, open, p, x, y, acks), BridgeReads(0)) == Line(sid, msgs, open, p + 1, x, y, acks)
  {
    var n := Line(sid, msgs, open, p, x, y, acks);
    var t := Tagged(0, p, [msgs[p].kind] + msgs[p].payload);
    assert Tags(msgs, p, x)[0] == t && Tags(msgs, p, x)[1..] == Tags(msgs, p + 1, x);
    assert Tags(msgs, 0, p + 1) == Tags(msgs, 0, p) + [t];
    assert Step(n, BridgeReads(0)) == DoRead(n, 0);
  }

  function Sends(msgs: seq<Msg>): seq<Event> {
    if msgs == [] then [] else Sends(msgs[..|msgs| - 1]) + [AppSend(0, msgs[|msgs| - 1])]
  }

  function Times(e: Event, k: nat): seq<Event> {
    if k == 0 then [] else Times(e, k - 1) + [e]
  }

  lemma FirstAttach(sid: Bytes)
    requires ProperId(sid)
    ensures var n := Step(Step(INIT, AppAttach(sid)), FrameArrives(true));
      n == Net(map[0 := Chan(sid, Client(false, false, []), [])], map[sid := 0], true, [], [], true, map[sid := 0],
               map[0 := VChan(sid, 0, Pipe([], false), false, false, [], [], false)], 1, 1)
  {
    var n1 := Step(INIT, AppAttach(sid));
    assert n1 == DoAttach(INIT, sid);
    assert n1.wire == [Control(sid, 0, ATTACH)] && n1.wire[1..] == [];
    LayoutDecodes(sid, ATTACH, []);
    assert Step(n1, FrameArrives(true)) == DoFrame(n1, true);
  }

  function Opening(sid: Bytes): seq<Event> {
    [AppAttach(sid), FrameArrives(true), AttachStarts(0, true)]
  }

  /** A fresh socket with one attached session. */
  lemma FreshLine(sid: Bytes)
    requires ProperId(sid)
    ensures Exec(INIT, Opening(sid)) == Line(sid, [], false, 0, 0, 0, [sid])
  {
    var e1, e2 := [AppAttach(sid)], [AppAttach(sid), FrameArrives(true)];
    ExecSnoc(INIT, [], AppAttach(sid));
    assert [] + e1 == e1;
    ExecSnoc(INIT, e1, FrameArrives(true));
    assert e1 + [FrameArrives(true)] == e2;
    ExecSnoc(INIT, e2, AttachStarts(0, true));
    assert e2 + [AttachStarts(0, true)] == Opening(sid);
    FirstAttach(sid);
    var n := Exec(INIT, e2);
    assert Step(n, AttachStarts(0, true)) == DoStart(n, 0, true);
    assert Helds([], 0, 0) == [] && Routes(sid, 0, []) == [] && Tags([], 0, 0) == [];
  }

  lemma OneMore(es: seq<Event>, more: seq<Event>, e: Event)
    ensures Exec(INIT, es + (more + [e])) == Step(Exec(INIT, es + more), e)
  {
    Assoc(es, more, [e]);
    ExecSnoc(INIT, es + more, e);
  }

  /** If an event takes f(i) to f(i + 1), repeating it takes f(0) to f(k). */
  lemma {:induction false} TimesRun(es: seq<Event>, e: Event, f: nat -> Net, k: nat)
    requires Exec(INIT, es) == f(0) && forall i: nat :: i < k ==> Step(f(i), e) == f(i + 1)
    ensures Exec(INIT, es + Times(e, k)) == f(k)
    decreases k
  {
    if k == 0 {
      assert es + Times(e, k) == es;
    } else {
      TimesRun(es, e, f, k - 1);
      OneMore(es, Times(e, k - 1), e);
    }
  }

  /** The same for sending one message after another. */
  lemma {:induction false} SendsRun(es: seq<Event>, msgs: seq<Msg>, f: nat -> Net)
    requires Exec(INIT, es) == f(0) && forall i: nat :: i < |msgs| ==> Step(f(i), AppSend(0, msgs[i])) == f(i + 1)
    ensures Exec(INIT, es + Sends(msgs)) == f(|msgs|)
    decreases |msgs|
  {
    if msgs == [] {
      assert es + Sends(msgs) == es;
    } else {
      var m0 := msgs[..|msgs| - 1];
      forall i: nat | i < |m0| ensures Step(f(i), AppSend(0, m0[i])) == f(i + 1) {
        assert m0[i] == msgs[i];
      }
      SendsRun(es, m0, f);
      OneMore(es, Sends(m0), AppSend(0, msgs[|msgs| - 1]));
    }
  }

  /** Line, or nothing where the numbers do not fit. */
  function LineOr(sid: Bytes, msgs: seq<Msg>, open: bool, p: nat, x: nat, y: nat, acks: seq<Bytes>): Net {
    if Fits(msgs, open, p, x, y) then Line(sid, msgs, open, p, x, y, acks) else INIT
  }

  function Front(msgs: seq<Msg>, i: nat): seq<Msg> {
    if i <= |msgs| then msgs[..i] else msgs
  }

  lemma SendsAreHeld(sid: Bytes, es: seq<Event>, msgs: seq<Msg>, acks: seq<Bytes>)
    requires Exec(INIT, es) == Line(sid, [], false, 0, 0, 0, acks) && |msgs| <= PENDING_LIMIT
    ensures Exec(INIT, es + Sends(msgs)) == Line(sid, msgs, false, 0, 0, 0, acks)
  {
    var f := (i: nat) => LineOr(sid, Front(msgs, i), false, 0, 0, 0, acks);
    forall i: nat | i < |msgs| ensures Step(f(i), AppSend(0, msgs[i])) == f(i + 1) {
      LineHolds(sid, msgs[..i], 0, 0, 0, acks, msgs[i]);
      Around(msgs, i);
    }
    assert Front(msgs, 0) == [] && Front(msgs, |msgs|) == msgs;
    SendsRun(es, msgs, f);
  }

  lemma SendsGoOut(sid: Bytes, es: seq<Event>, early: seq<Msg>, late: seq<Msg>, acks: seq<Bytes>)
    requires Exec(INIT, es) == Line(sid, early, true, 0, 0, |early|, acks)
    ensures Exec(INIT, es + Sends(late)) == Line(sid, early + late, true, 0, 0, |early + late|, acks)
  {
    var f := (i: nat) => LineOr(sid, early + Front(late, i), true, 0, 0, |early + Front(late, i)|, acks);
    forall i: nat | i < |late| ensures Step(f(i), AppSend(0, late[i])) == f(i + 1) {
      LineSends(sid, early + late[..i], 0, 0, acks, late[i]);
      Around(late, i);
      Assoc(early, late[..i], [late[i]]);
    }
    assert early + Front(late, 0) == early && Front(late, |late|) == late;
    SendsRun(es, late, f);
  }

  lemma OneArrives(sid: Bytes, msgs: seq<Msg>, i: nat, acks: seq<Bytes>)
    requires i < |msgs| && ProperId(sid) && Sendable(msgs)
    ensures Step(LineOr(sid, msgs, true, 0, i, |msgs|, acks), FrameArrives(false))
         == LineOr(sid, msgs, true, 0, i + 1, |msgs|, acks)
  {
    LineArrives(sid, msgs, true, 0, i, |msgs|, acks);
  }

  lemma AllArrive(sid: Bytes, es: seq<Event>, msgs: seq<Msg>, acks: seq<Bytes>)
    requires Exec(INIT, es) == Line(sid, msgs, true, 0, 0, |msgs|, acks) && ProperId(sid) && Sendable(msgs)
    ensures Exec(INIT, es + Times(FrameArrives(false), |msgs|)) == Line(sid, msgs, true, 0, |msgs|, |msgs|, acks)
  {
    var f := (i: nat) => LineOr(sid, msgs, true, 0, i, |msgs|, acks);
    forall i: nat | i < |msgs| ensures Step(f(i), FrameArrives(false)) == f(i + 1) {
      OneArrives(sid, msgs, i, acks);
    }
    TimesRun(es, FrameArrives(false), f, |msgs|);
  }

  lemma AllRead(sid: Bytes, es: seq<Event>, msgs: seq<Msg>, acks: seq<Bytes>)
    requires Exec(INIT, es) == Line(sid, msgs, true, 0, |msgs|, |msgs|, acks)
    ensures Exec(INIT, es + Times(BridgeReads(0), |msgs|)) == Line(sid, msgs, true, |msgs|, |msgs|, |msgs|, acks)
  {
    var f := (i: nat) => LineOr(sid, msgs, true, i, |msgs|, |msgs|, acks);
    forall i: nat | i < |msgs| ensures Step(f(i), BridgeReads(0)) == f(i + 1) {
      LineReads(sid, msgs, true, i, |msgs|, |msgs|, acks);
    }
    TimesRun(es, BridgeReads(0), f, |msgs|);
  }

  /** Attach, send some messages before the answer and some after it. */
  function Sending(sid: Bytes, early: seq<Msg>, late: seq<Msg>): seq<Event> {
    ((Opening(sid) + Sends(early)) + [AckArrives]) + Sends(late)
  }

  /** Then let all of them arrive and be read. */
  function Script(sid: Bytes, early: seq<Msg>, late: seq<Msg>): seq<Event> {
    (Sending(sid, early, late) + Times(FrameArrives(false), |early + late|)) + Times(BridgeReads(0), |early + late|)
  }

  lemma AllSent(sid: Bytes, early: seq<Msg>, late: seq<Msg>)
    requires ProperId(sid) && |early| <= PENDING_LIMIT
    ensures Exec(INIT, Sending(sid, early, late)) == Line(sid, early + late, true, 0, 0, |early + late|, [])
  {
    var e1 := Opening(sid) + Sends(early);
    FreshLine(sid);
    SendsAreHeld(sid, Opening(sid), early, [sid]);
    ExecSnoc(INIT, e1, AckArrives);
    LineOpens(sid, early, 0, 0, 0, [sid]);
    assert [sid][1..] == [];
    SendsGoOut(sid, e1 + [AckArrives], early, late, []);
  }

  /**
   From end to end on a fresh socket, for any messages with at most 64 of them before the AttachOK: the
   bridge reads every one, in the order the application sent them, byte for byte.
   */
  lemma EverythingIsRead(sid: Bytes, early: seq<Msg>, late: seq<Msg>)
    requires ProperId(sid) && Sendable(early + late) && |early| <= PENDING_LIMIT
    ensures var n, msgs := Exec(INIT, Script(sid, early, late)), early + late;
      && 0 in n.vcs && n.vcs[0].sid == sid && |n.vcs[0].taken| == |msgs|
      && forall i :: 0 <= i < |msgs| ==> n.vcs[0].taken[i].frame == [msgs[i].kind] + msgs[i].payload
  {
    var es, msgs := Sending(sid, early, late), early + late;
    AllSent(sid, early, late);
    AllArrive(sid, es, msgs, []);
    AllRead(sid, es + Times(FrameArrives(false), |msgs|), msgs, []);
  }
}
