/**
 The other direction of one WebSocket: what bridges write and which browser channel receives it
 (internal/api/ws_handler.go: virtualConn.Write, writeRoutedSession; apps/web/src/utils/
 multiplexer.ts: dispatch). It runs on top of Multiplex. A virtual connection writes whether or not
 it is closed, and the browser finds the receiver by session id alone.
 */
module Downstream {
  import opened Bytes
  import opened Codec
  import opened Channels
  import opened Multiplex

  /** One session frame some connection wrote. */
  datatype Out = Out(vid: nat, sid: Bytes, frame: Bytes)

  /** All frames written so far; those from `arrived` on are still in flight. Per browser channel, the
      numbers of the frames it received. */
  datatype Down = Down(net: Net, sent: seq<Out>, arrived: nat, got: map<nat, seq<nat>>)

  datatype DownEvent = Up(e: Event) | Writes(vid: nat, frame: Bytes) | Arrives

  const START: Down := Down(INIT, [], 0, map[])

  /** writeRoutedSession: kind and payload behind the header. */
  function WireBytes(o: Out): Bytes
    requires o.frame != []
  {
    Layout(o.sid, o.frame[0], o.frame[1..])
  }

  /** The channel that takes a frame: the one attached for its session, unless closed. */
  function Receiver(n: Net, bytes: Bytes): Option<nat> {
    var f := DecodeRouted(bytes);
    if f.Err? || IsConnLevel(f.value) || f.value.sid !in n.attachments then None
    else
      var c := n.attachments[f.value.sid];
      if c in n.chans && !n.chans[c].view.closed then Some(c) else None
  }

  predicate CanStep(d: Down, e: DownEvent) {
    match e
    case Up(_) => true
    case Writes(v, frame) =>
      v in d.net.vcs && d.net.vcs[v].started && d.net.serving && 0 < |frame| <= MAX_PAYLOAD + 1
    case Arrives => d.net.isOpen && d.arrived < |d.sent| && d.sent[d.arrived].frame != []
  }

  function Arrive(d: Down): Down
    requires d.arrived < |d.sent| && d.sent[d.arrived].frame != []
  {
    var to := Receiver(d.net, WireBytes(d.sent[d.arrived]));
    d.(arrived := d.arrived + 1, got := if to.None? then d.got else d.got[to.value := Heard(d, to.value) + [d.arrived]])
  }

  function Heard(d: Down, c: nat): seq<nat> {
    if c in d.got then d.got[c] else []
  }

  function DownStep(d: Down, e: DownEvent): Down {
    if !CanStep(d, e) then d else
    match e
    case Up(e) => d.(net := Step(d.net, e))
    case Writes(v, frame) => d.(sent := d.sent + [Out(v, d.net.vcs[v].sid, frame)])
    case Arrives => Arrive(d)
  }

  function DownRun(es: seq<DownEvent>): Down {
    if es == [] then START else DownStep(DownRun(es[..|es| - 1]), es[|es| - 1])
  }

  /** The upstream events of a run. */
  function Ups(es: seq<DownEvent>): seq<Event> {
    if es == [] then []
    else Ups(es[..|es| - 1]) + if es[|es| - 1].Up? then [es[|es| - 1].e] else []
  }

  lemma {:induction false} UpstreamRuns(es: seq<DownEvent>)
    ensures DownRun(es).net == Exec(INIT, Ups(es))
    decreases |es|
  {
    if es != [] {
      var us := Ups(es[..|es| - 1]);
      UpstreamRuns(es[..|es| - 1]);
      if es[|es| - 1].Up? {
        assert (us + [es[|es| - 1].e])[..|us|] == us;
      } else {
        assert us + [] == us;
      }
    }
  }

  // --- what upstream steps keep ---------------------------------------------------------------------

  /** No channel and no connection disappears or changes its session. */
  ghost predicate Lasts(n: Net, m: Net) {
    && (forall c :: c in n.chans ==> c in m.chans && m.chans[c].sid == n.chans[c].sid)
    && (forall v :: v in n.vcs ==> v in m.vcs && m.vcs[v].sid == n.vcs[v].sid && m.vcs[v].cid == n.vcs[v].cid)
  }

  /** The channel attached for a session is the newest one made for it. */
  predicate Newest(n: Net) {
    && (forall c :: c in n.chans ==> c < n.nextChan)
    && (forall c :: c in n.chans && n.chans[c].sid in n.attachments ==> c <= n.attachments[n.chans[c].sid])
  }

  /** The same channels for the same sessions; attachments may only go. */
  ghost predicate SameIds(n: Net, m: Net) {
    && m.vcs == n.vcs && m.nextChan == n.nextChan && m.chans.Keys == n.chans.Keys
    && (forall c :: c in n.chans ==> m.chans[c].sid == n.chans[c].sid)
    && (forall s :: s in m.attachments ==> s in n.attachments && m.attachments[s] == n.attachments[s])
  }

  lemma SameIdsLast(n: Net, m: Net)
    requires Newest(n) && SameIds(n, m)
    ensures Lasts(n, m) && Newest(m)
  {
  }

  lemma SendSameIds(n: Net, c: nat, msg: Msg)
    requires c in n.chans
    ensures SameIds(n, DoSend(n, c, msg))
  {
  }

  lemma CloseSameIds(n: Net, c: nat)
    requires c in n.chans
    ensures SameIds(n, DoClose(n, c))
  {
  }

  lemma AckSameIds(n: Net)
    requires n.acks != []
    ensures SameIds(n, DoAck(n))
  {
  }

  function Fresh(sid: Bytes): Chan {
    Chan(sid, Client(false, false, []), [])
  }

  /** A new channel for a session without one. */
  ghost predicate AddsChannel(n: Net, m: Net, sid: Bytes) {
    && sid !in n.attachments && m.vcs == n.vcs && m.nextChan == n.nextChan + 1
    && m.chans == n.chans[n.nextChan := Fresh(sid)] && m.attachments == n.attachments[sid := n.nextChan]
  }

  lemma AddedLasts(n: Net, m: Net, sid: Bytes)
    requires Newest(n) && AddsChannel(n, m, sid)
    ensures Lasts(n, m) && Newest(m)
  {
    assert n.nextChan !in n.chans;
  }

  lemma AttachLasts(n: Net, sid: Bytes)
    requires Ordered(n) && Newest(n)
    ensures Lasts(n, DoAttach(n, sid)) && Newest(DoAttach(n, sid))
  {
    if sid in n.attachments {
      ReattachSameIds(n, sid);
      SameIdsLast(n, DoAttach(n, sid));
    } else {
      AddedLasts(n, DoAttach(n, sid), sid);
    }
  }

  lemma ReattachSameIds(n: Net, sid: Bytes)
    requires sid in n.attachments && n.attachments[sid] in n.chans
    ensures SameIds(n, DoAttach(n, sid))
  {
  }

  lemma FrameLasts(n: Net, found: bool)
    requires Registered(n) && Newest(n) && n.wire != []
    ensures Lasts(n, DoFrame(n, found)) && Newest(DoFrame(n, found))
  {
    var m := n.(wire := n.wire[1..]);
    FrameShape(n, found);
    forall v | v in n.vcs
      ensures v in DoFrame(n, found).vcs
      ensures DoFrame(n, found).vcs[v].sid == n.vcs[v].sid && DoFrame(n, found).vcs[v].cid == n.vcs[v].cid
    {
      DispatchReceived(m, DecodeRouted(n.wire[0].bytes), n.wire[0], found, v);
    }
  }

  lemma UpLasts(n: Net, e: Event)
    requires Registered(n) && Ordered(n) && Newest(n)
    ensures Lasts(n, Step(n, e)) && Newest(Step(n, e))
  {
    if Enabled(n, e) {
      match e
      case AppAttach(sid) => AttachLasts(n, sid);
      case AppSend(c, msg) =>
        SendSameIds(n, c, msg);
        SameIdsLast(n, Step(n, e));
      case AppClose(c) =>
        CloseSameIds(n, c);
        SameIdsLast(n, Step(n, e));
      case AckArrives =>
        AckSameIds(n);
        SameIdsLast(n, Step(n, e));
      case FrameArrives(found) => FrameLasts(n, found);
      case _ => QuietShape(n, e);
    }
  }

  // --- every run ------------------------------------------------------------------------------------

  /** A written frame carries its connection's session and fits the codec. */
  predicate OutOk(n: Net, o: Out) {
    o.vid in n.vcs && n.vcs[o.vid].sid == o.sid && 0 < |o.frame| <= MAX_PAYLOAD + 1
  }

  /** What channel `c` received: frames of its own session, in the order they were written, from
      connections attached by itself or by an earlier channel. */
  ghost predicate HeardOk(d: Down, c: nat)
    requires c in d.got
  {
    && c in d.net.chans && Increasing(d.got[c]) && Below(d.got[c], d.arrived)
    && forall i :: 0 <= i < |d.got[c]| ==> HeardFrom(d, c, d.got[c][i])
  }

  predicate HeardFrom(d: Down, c: nat, k: nat) {
    && k < |d.sent| && c in d.net.chans && d.sent[k].vid in d.net.vcs
    && d.sent[k].sid == d.net.chans[c].sid && d.net.vcs[d.sent[k].vid].cid <= c
  }

  ghost predicate DownOk(d: Down) {
    && Newest(d.net) && d.arrived <= |d.sent|
    && (forall k :: 0 <= k < |d.sent| ==> OutOk(d.net, d.sent[k]))
    && (forall c {:trigger HeardOk(d, c)} :: c in d.got ==> HeardOk(d, c))
  }

  lemma UpKeepsDown(d: Down, e: Event)
    requires DownOk(d) && Registered(d.net) && Ordered(d.net)
    ensures DownOk(d.(net := Step(d.net, e)))
  {
    var m := d.(net := Step(d.net, e));
    UpLasts(d.net, e);
    forall c | c in m.got ensures HeardOk(m, c) {
      assert HeardOk(d, c);
      forall i | 0 <= i < |m.got[c]| ensures HeardFrom(m, c, m.got[c][i]) {
        assert HeardFrom(d, c, d.got[c][i]);
      }
    }
  }

  lemma WriteKeepsDown(d: Down, v: nat, frame: Bytes)
    requires DownOk(d) && CanStep(d, Writes(v, frame))
    ensures DownOk(DownStep(d, Writes(v, frame)))
  {
    var m := DownStep(d, Writes(v, frame));
    forall c | c in m.got ensures HeardOk(m, c) {
      assert HeardOk(d, c);
      forall i | 0 <= i < |m.got[c]| ensures HeardFrom(m, c, m.got[c][i]) {
        assert HeardFrom(d, c, d.got[c][i]);
      }
    }
  }

  /** Who receives a frame of connection v: whichever channel is attached for the session now, if it
      is not closed. */
  lemma ReceiverIs(n: Net, o: Out)
    requires Ordered(n) && OutOk(n, o)
    ensures Receiver(n, WireBytes(o)) ==
      if o.sid in n.attachments && !n.chans[n.attachments[o.sid]].view.closed then Some(n.attachments[o.sid]) else None
  {
    assert ConnOk(n, o.vid) && ChanOk(n, n.vcs[o.vid].cid);
    LayoutDecodes(o.sid, o.frame[0], o.frame[1..]);
  }

  lemma ArriveKeepsDown(d: Down)
    requires DownOk(d) && Ordered(d.net) && CanStep(d, Arrives)
    ensures DownOk(Arrive(d))
  {
    var m := Arrive(d);
    var o := d.sent[d.arrived];
    assert OutOk(d.net, o) && ConnOk(d.net, o.vid);
    ReceiverIs(d.net, o);
    forall c | c in m.got ensures HeardOk(m, c) {
      if c in d.got {
        assert HeardOk(d, c);
      }
      if m.got[c] != Heard(d, c) {
        IncreasingSnoc(Heard(d, c), d.arrived);
      }
      forall i | 0 <= i < |m.got[c]| ensures HeardFrom(m, c, m.got[c][i]) {
        if i < |Heard(d, c)| {
          assert HeardFrom(d, c, d.got[c][i]);
        }
      }
    }
  }

  lemma {:induction false} DownRunsAreGood(es: seq<DownEvent>)
    ensures DownOk(DownRun(es)) && Registered(DownRun(es).net) && Ordered(DownRun(es).net)
    decreases |es|
  {
    UpstreamRuns(es);
    ReachableNetsAreGood(Ups(es));
    if es != [] {
      var d, e := DownRun(es[..|es| - 1]), es[|es| - 1];
      DownRunsAreGood(es[..|es| - 1]);
      if CanStep(d, e) {
        match e
        case Up(e) => UpKeepsDown(d, e);
        case Writes(v, frame) => WriteKeepsDown(d, v, frame);
        case Arrives => ArriveKeepsDown(d);
      }
    }
  }

  /** In every run a browser channel receives frames of its own session only, in the order they were
      written, and only from connections that it or an earlier channel of that session attached. */
  lemma ChannelHearsItsSession(es: seq<DownEvent>, c: nat)
    requires c in DownRun(es).got
    ensures var d := DownRun(es);
      && c in d.net.chans && Increasing(d.got[c])
      && forall i :: 0 <= i < |d.got[c]| ==> HeardFrom(d, c, d.got[c][i])
  {
    DownRunsAreGood(es);
    assert HeardOk(DownRun(es), c);
  }

  /** The next frame to arrive goes to a channel that did not attach its connection exactly when a newer
      channel has been attached for the session since and is not closed. Whether the connection that
      wrote it has been closed plays no part. */
  lemma StaleFrameIff(es: seq<DownEvent>)
    requires CanStep(DownRun(es), Arrives)
    ensures var d := DownRun(es); var o := d.sent[d.arrived]; var to := Receiver(d.net, WireBytes(o));
      && o.vid in d.net.vcs
      && (to.Some? && to.value != d.net.vcs[o.vid].cid
          <==> && o.sid in d.net.attachments && d.net.attachments[o.sid] > d.net.vcs[o.vid].cid
               && d.net.attachments[o.sid] in d.net.chans && !d.net.chans[d.net.attachments[o.sid]].view.closed)
  {
    DownRunsAreGood(es);
    var d := DownRun(es);
    var o := d.sent[d.arrived];
    assert OutOk(d.net, o) && ConnOk(d.net, o.vid);
    ReceiverIs(d.net, o);
  }

  /** In every run, the frame that arrives is received by exactly the channel that is attached for its
      session and open, if there is one, behind everything it received before; nobody else hears it. */
  lemma FrameIsReceived(es: seq<DownEvent>)
    requires DownRun(es).net.isOpen && DownRun(es).arrived < |DownRun(es).sent|
    ensures var d, m := DownRun(es), DownRun(es + [Arrives]); var o := d.sent[d.arrived];
      && m.arrived == d.arrived + 1 && m.sent == d.sent && m.net == d.net
      && forall c: nat ::
           Heard(m, c) == Heard(d, c)
             + if o.sid in d.net.attachments && d.net.attachments[o.sid] == c && c in d.net.chans && !d.net.chans[c].view.closed
               then [d.arrived] else []
  {
    DownRunsAreGood(es);
    RunSnoc(es, Arrives);
    var d := DownRun(es);
    assert OutOk(d.net, d.sent[d.arrived]);
    ReceiverIs(d.net, d.sent[d.arrived]);
  }

  /** And what a started bridge writes while the connection serves is sent, under its own session's id. */
  lemma WriteIsSent(es: seq<DownEvent>, v: nat, frame: Bytes)
    requires var d := DownRun(es);
      v in d.net.vcs && d.net.vcs[v].started && d.net.serving && 0 < |frame| <= MAX_PAYLOAD + 1
    ensures DownRun(es + [Writes(v, frame)]).sent == DownRun(es).sent + [Out(v, DownRun(es).net.vcs[v].sid, frame)]
  {
    RunSnoc(es, Writes(v, frame));
  }

  // --- a run in which it happens -----------------------------------------------------------------------

  lemma RunSnoc(es: seq<DownEvent>, e: DownEvent)
    ensures DownRun(es + [e]) == DownStep(DownRun(es), e)
  {
    assert (es + [e])[..|es|] == es;
  }

  /** One upstream event more. */
  lemma RunUp(es: seq<DownEvent>, e: Event) returns (more: seq<DownEvent>)
    ensures DownRun(more) == DownRun(es).(net := Step(DownRun(es).net, e)) && more == es + [Up(e)]
  {
    more := es + [Up(e)];
    RunSnoc(es, Up(e));
  }

  lemma ControlDecodes(sid: Bytes, cid: nat, kind: byte)
    requires ProperId(sid)
    ensures DecodeRouted(Control(sid, cid, kind).bytes) == Ok(Frame(sid, kind, []))
  {
    LayoutDecodes(sid, kind, []);
  }

  lemma AttachArrives(n: Net, sid: Bytes, found: bool)
    requires n.serving && n.wire != [] && DecodeRouted(n.wire[0].bytes) == Ok(Frame(sid, ATTACH, [])) && sid != []
    ensures Step(n, FrameArrives(found)) == DoRegister(n.(wire := n.wire[1..]), sid, n.wire[0].cid, found)
  {
    assert Step(n, FrameArrives(found)) == DoFrame(n, found);
  }

  lemma DetachArrives(n: Net, sid: Bytes, found: bool)
    requires n.serving && n.wire != [] && DecodeRouted(n.wire[0].bytes) == Ok(Frame(sid, DETACH, [])) && sid != []
    ensures Step(n, FrameArrives(found)) == DoDetach(n.(wire := n.wire[1..]), sid)
  {
    assert Step(n, FrameArrives(found)) == DoFrame(n, found);
  }

  lemma BothAttach(a: Bytes, b: Bytes)
    requires ProperId(a) && ProperId(b) && a != b
    ensures var n := DoAttach(DoAttach(INIT, a), b);
      n == Net(map[0 := Fresh(a), 1 := Fresh(b)], map[a := 0, b := 1], true,
               [Control(a, 0, ATTACH), Control(b, 1, ATTACH)], [], true, map[], map[], 2, 0)
  {
    var n1 := DoAttach(INIT, a);
    assert n1 == Net(map[0 := Fresh(a)], map[a := 0], true, [Control(a, 0, ATTACH)], [], true, map[], map[], 1, 0);
    var n2 := DoAttach(n1, b);
    assert n2.chans == map[0 := Fresh(a), 1 := Fresh(b)];
    assert n2.attachments == map[a := 0, b := 1];
    assert n2.wire == [Control(a, 0, ATTACH), Control(b, 1, ATTACH)];
  }

  /** Two sessions are attached, and the server registers the first. */
  lemma TwoAttached(a: Bytes, b: Bytes) returns (es: seq<DownEvent>)
    requires ProperId(a) && ProperId(b) && a != b
    ensures var d := DownRun(es);
      && d.sent == [] && d.arrived == 0 && d.got == map[]
      && d.net == Net(map[0 := Fresh(a), 1 := Fresh(b)], map[a := 0, b := 1], true, [Control(b, 1, ATTACH)], [], true,
                      map[a := 0], map[0 := VChan(a, 0, Pipe([], false), false, false, [], [], false)], 2, 1)
    ensures forall i :: 0 <= i < |es| ==> !es[i].Writes?
  {
    es := [];
    es := RunUp(es, AppAttach(a));
    es := RunUp(es, AppAttach(b));
    BothAttach(a, b);
    var n := DownRun(es).net;
    assert n == DoAttach(DoAttach(INIT, a), b);
    ControlDecodes(a, 0, ATTACH);
    AttachArrives(n, a, true);
    assert n.wire[1..] == [Control(b, 1, ATTACH)];
    es := RunUp(es, FrameArrives(true));
  }

  /** The browser closes the first channel while the second stays. */
  lemma FirstCloses(n: Net, a: Bytes, b: Bytes)
    requires a != b && n.isOpen && n.attachments == map[a := 0, b := 1] && n.wire == [Control(b, 1, ATTACH)]
    requires n.chans == map[0 := Fresh(a), 1 := Fresh(b)]
    ensures var m := Step(n, AppClose(0));
      && m == n.(chans := m.chans, attachments := map[b := 1], wire := [Control(b, 1, ATTACH), Control(a, 0, DETACH)])
      && m.chans.Keys == {0, 1}
  {
    var m := DoClose(n, 0);
    assert Step(n, AppClose(0)) == m;
    assert n.attachments - {a} == map[b := 1];
    assert b in map[b := 1];
  }

  /** The first bridge starts; then the browser closes its channel and opens a new one for the session. */
  lemma Reattached(a: Bytes, b: Bytes) returns (es: seq<DownEvent>)
    requires ProperId(a) && ProperId(b) && a != b
    ensures var d := DownRun(es);
      && d.sent == [] && d.arrived == 0 && d.got == map[] && d.net.isOpen && d.net.serving
      && d.net.attachments == map[a := 2, b := 1]
      && 2 in d.net.chans && d.net.chans[2] == Fresh(a)
      && d.net.wire == [Control(b, 1, ATTACH), Control(a, 0, DETACH), Control(a, 2, ATTACH)]
      && d.net.table == map[a := 0] && d.net.nextConn == 1
      && d.net.vcs == map[0 := VChan(a, 0, Pipe([], false), true, false, [], [], false)]
    ensures forall i :: 0 <= i < |es| ==> !es[i].Writes?
  {
    es := TwoAttached(a, b);
    var n3 := DownRun(es).net;
    assert Step(n3, AttachStarts(0, true)) == DoStart(n3, 0, true);
    es := RunUp(es, AttachStarts(0, true));
    FirstCloses(DownRun(es).net, a, b);
    es := RunUp(es, AppClose(0));
    var n5 := DownRun(es).net;
    assert Step(n5, AppAttach(a)) == DoAttach(n5, a);
    es := RunUp(es, AppAttach(a));
  }

  /** Two more frames reach the server: the Attach of the second session and the Detach of the first. */
  lemma DetachHandled(n: Net, a: Bytes, b: Bytes)
    requires ProperId(a) && ProperId(b) && a != b && n.serving && n.table == map[a := 0] && n.nextConn == 1
    requires |n.wire| == 3 && n.wire[0] == Control(b, 1, ATTACH) && n.wire[1] == Control(a, 0, DETACH) && 0 in n.vcs
    ensures var m := Step(Step(n, FrameArrives(true)), FrameArrives(true));
      && SameBrowser(n.(wire := m.wire), m) && m.serving && 0 in m.vcs && m.vcs[0] == n.vcs[0].(ending := true)
      && |m.wire| == 1 && m.wire[0] == n.wire[2] && a !in m.table && m.nextConn == 2
  {
    ControlDecodes(b, 1, ATTACH);
    AttachArrives(n, b, true);
    var k := DoRegister(n.(wire := n.wire[1..]), b, n.wire[0].cid, true);
    assert k.wire == n.wire[1..] && k.wire[0] == n.wire[1] && k.vcs[0] == n.vcs[0] && k.table[a] == 0;
    ControlDecodes(a, 0, DETACH);
    DetachArrives(k, a, true);
  }

  /** What the run has reached once the server has handled the Detach. */
  predicate Handled(d: Down, a: Bytes, b: Bytes) {
    && d.sent == [] && d.arrived == 0 && d.got == map[] && d.net.isOpen && d.net.serving
    && d.net.attachments == map[a := 2, b := 1]
    && 2 in d.net.chans && !d.net.chans[2].view.closed && d.net.chans[2].sid == a
    && 0 in d.net.vcs && d.net.vcs[0].sid == a && d.net.vcs[0].cid == 0 && d.net.vcs[0].started && d.net.vcs[0].ending
    && |d.net.wire| == 1 && d.net.wire[0] == Control(a, 2, ATTACH) && a !in d.net.table && d.net.nextConn == 2
  }

  lemma DetachRuns(a: Bytes, b: Bytes) returns (es: seq<DownEvent>)
    requires ProperId(a) && ProperId(b) && a != b
    ensures Handled(DownRun(es), a, b) && forall i :: 0 <= i < |es| ==> !es[i].Writes?
  {
    es := Reattached(a, b);
    DetachHandled(DownRun(es).net, a, b);
    es := RunUp(es, FrameArrives(true));
    es := RunUp(es, FrameArrives(true));
  }

  /** The server processes the Detach and closes the old connection. */
  lemma OldConnectionCloses(a: Bytes, b: Bytes) returns (es: seq<DownEvent>)
    requires ProperId(a) && ProperId(b) && a != b
    ensures var d := DownRun(es);
      && d.sent == [] && d.arrived == 0 && d.got == map[] && d.net.isOpen && d.net.serving
      && d.net.attachments == map[a := 2, b := 1]
      && 2 in d.net.chans && !d.net.chans[2].view.closed && d.net.chans[2].sid == a
      && 0 in d.net.vcs && d.net.vcs[0].sid == a && d.net.vcs[0].cid == 0 && d.net.vcs[0].started && d.net.vcs[0].pipe.closed
  {
    es := DetachRuns(a, b);
    ClosesNow(DownRun(es).net);
    es := RunUp(es, MarkClosed(0));
  }

  lemma ClosesNow(m: Net)
    requires 0 in m.vcs && m.vcs[0].ending
    ensures var k := Step(m, MarkClosed(0));
      k == m.(vcs := m.vcs[0 := m.vcs[0].(pipe := m.vcs[0].pipe.(closed := true))])
  {
  }

  /** A closed connection of an earlier attach writes, and the new channel of the session receives it. */
  lemma StaleFrameArrives(a: Bytes, b: Bytes) returns (es: seq<DownEvent>)
    requires ProperId(a) && ProperId(b) && a != b
    ensures var d := DownRun(es);
      && 2 in d.got && d.got[2] == [0] && 2 in d.net.chans && d.net.chans[2].sid == a
      && |d.sent| == 1 && d.sent[0].vid == 0 && 0 in d.net.vcs && d.net.vcs[0].cid == 0 && d.net.vcs[0].pipe.closed
  {
    es := OldConnectionCloses(a, b);
    DownRunsAreGood(es);
    var d := DownRun(es);
    var frame := [OUTPUT, 65];
    var d' := DownStep(d, Writes(0, frame));
    assert d'.sent == [Out(0, a, frame)];
    RunSnoc(es, Writes(0, frame));
    es := es + [Writes(0, frame)];
    ReceiverIs(d.net, Out(0, a, frame));
    assert d'.net == d.net;
    RunSnoc(es, Arrives);
    es := es + [Arrives];
  }

  /** The Attach of the new channel is registered and its bridge starts. */
  lemma NewConnection(n: Net, a: Bytes)
    requires ProperId(a) && n.serving && |n.wire| == 1 && n.wire[0] == Control(a, 2, ATTACH) && a !in n.table && n.nextConn == 2
    ensures var m := Step(Step(n, FrameArrives(true)), AttachStarts(2, true));
      && SameBrowser(n.(wire := m.wire), m) && m.serving
      && m.vcs == n.vcs[2 := VChan(a, 2, Pipe([], false), true, false, [], [], false)]
  {
    ControlDecodes(a, 2, ATTACH);
    AttachArrives(n, a, true);
    var k := DoRegister(n.(wire := n.wire[1..]), a, n.wire[0].cid, true);
    assert k.vcs == n.vcs[2 := VChan(a, 2, Pipe([], false), false, false, [], [], false)];
    assert Step(k, AttachStarts(2, true)) == DoStart(k, 2, true);
  }

  /** After a Detach and a new Attach of one session, both bridges have started. */
  lemma BothStarted(a: Bytes, b: Bytes) returns (es: seq<DownEvent>)
    requires ProperId(a) && ProperId(b) && a != b
    ensures var d := DownRun(es);
      && d.sent == [] && d.arrived == 0 && d.got == map[] && d.net.isOpen && d.net.serving
      && d.net.attachments == map[a := 2, b := 1] && 2 in d.net.chans && !d.net.chans[2].view.closed
      && 0 in d.net.vcs && d.net.vcs[0].sid == a && d.net.vcs[0].cid == 0 && d.net.vcs[0].started
      && 2 in d.net.vcs && d.net.vcs[2].sid == a && d.net.vcs[2].cid == 2 && d.net.vcs[2].started
    ensures forall i :: 0 <= i < |es| ==> !es[i].Writes?
  {
    es := DetachRuns(a, b);
    NewConnection(DownRun(es).net, a);
    es := RunUp(es, FrameArrives(true));
    es := RunUp(es, AttachStarts(2, true));
  }
}
