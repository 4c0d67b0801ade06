/**
 One session and one WebSocket together: when a connection is evicted, virtualConn.Close writes a
 SessionEvent under the session's id (internal/api/ws_handler.go), and the browser hands it to
 whichever channel is attached for that session when it arrives. The session runs as in SessionRuns
 and the socket as in Downstream; connections with even numbers are this socket's, the others belong
 to other clients of the session.
 */
module Notices {
  import opened Bytes
  import opened Codec
  import opened Channels
  import opened Downstream
  import M = Multiplex
  import R = SessionRuns
  import S = Session

  const SESSION_EVENT: byte := 0x45
  const EVENT_PREEMPTED: byte := 0x01
  const EVENT_DESTROYED: byte := 0x02

  /** The session's name for virtual connection `v`. */
  function ConnOf(v: nat): S.Conn {
    2 * v
  }

  predicate OnSocket(c: S.Conn) {
    c % 2 == 0
  }

  function NoticeFrame(n: R.Notice): Bytes {
    [SESSION_EVENT, if n == R.NoticePreempted then EVENT_PREEMPTED else EVENT_DESTROYED]
  }

  predicate IsNotice(frame: Bytes) {
    frame != [] && frame[0] == SESSION_EVENT
  }

  datatype World = World(sid: Bytes, sess: R.System, down: Down)

  datatype Happening = InSession(e: R.Event) | OnWire(d: DownEvent)

  /** The connection a session event closes: the one an attach or a destroy threw out of the slot. */
  function Closing(s: R.System, e: R.Event): Option<S.Conn> {
    if !R.Enabled(s, e) then None
    else
      match e
      case CloseOld(c) => s.attaches[c].evicts
      case DestroyClose => s.destroyer.evicted
      case _ => None
  }

  /** What virtualConn.Close reports. */
  function Verdict(s: R.System): R.Notice {
    if s.core.status == S.Destroyed then R.NoticeDestroyed else R.NoticePreempted
  }

  /** A connection of this socket is attached by its own bridge; bridges write no SessionEvent. */
  predicate Possible(w: World, h: Happening) {
    match h
    case InSession(e) =>
      e.Install? && OnSocket(e.conn) ==>
        var v := e.conn / 2;
        v in w.down.net.vcs && w.down.net.vcs[v].sid == w.sid && w.down.net.vcs[v].started
    case OnWire(d) => d.Writes? ==> !IsNotice(d.frame)
  }

  function Notify(d: Down, x: Option<S.Conn>, n: R.Notice): Down {
    if x.Some? && OnSocket(x.value) then DownStep(d, Writes(x.value / 2, NoticeFrame(n))) else d
  }

  function Happen(w: World, h: Happening): World {
    if !Possible(w, h) then w
    else
      match h
      case InSession(e) =>
        w.(sess := R.Step(w.sess, e), down := Notify(w.down, Closing(w.sess, e), Verdict(w.sess)))
      case OnWire(d) => w.(down := DownStep(w.down, d))
  }

  function Run(sid: Bytes, hs: seq<Happening>): World {
    if hs == [] then World(sid, R.INIT, START) else Happen(Run(sid, hs[..|hs| - 1]), hs[|hs| - 1])
  }

  // --- both halves run as on their own ------------------------------------------------------------

  lemma {:induction false} Halves(sid: Bytes, hs: seq<Happening>) returns (ses: seq<R.Event>, des: seq<DownEvent>)
    ensures Run(sid, hs).sess == R.Exec(R.INIT, ses) && Run(sid, hs).down == DownRun(des) && Run(sid, hs).sid == sid
    decreases |hs|
  {
    if hs == [] {
      ses, des := [], [];
    } else {
      var w, h := Run(sid, hs[..|hs| - 1]), hs[|hs| - 1];
      ses, des := Halves(sid, hs[..|hs| - 1]);
      if Possible(w, h) {
        match h
        case InSession(e) =>
          R.ExecSnoc(R.INIT, ses, e);
          ses := ses + [e];
          var x := Closing(w.sess, e);
          if x.Some? && OnSocket(x.value) {
            RunSnoc(des, Writes(x.value / 2, NoticeFrame(Verdict(w.sess))));
            des := des + [Writes(x.value / 2, NoticeFrame(Verdict(w.sess)))];
          }
        case OnWire(d) =>
          RunSnoc(des, d);
          des := des + [d];
      }
    }
  }

  ghost predicate Sound(w: World) {
    && R.Ownership(w.sess) && R.Eviction(w.sess)
    && DownOk(w.down) && M.Registered(w.down.net) && M.Ordered(w.down.net)
  }

  lemma RunsAreSound(sid: Bytes, hs: seq<Happening>)
    ensures Sound(Run(sid, hs)) && Run(sid, hs).sid == sid
  {
    var ses, des := Halves(sid, hs);
    R.ReachableStatesAreGood(ses);
    DownRunsAreGood(des);
  }

  // --- notices and evictions ------------------------------------------------------------------------

  /** What was said about a connection is never said again, differently or otherwise. */
  lemma NoticeStays(s: R.System, e: R.Event, x: S.Conn)
    requires R.Eviction(s) && R.Eviction(R.Step(s, e)) && x in s.attaches && s.attaches[x].notice.Some?
    ensures x in R.Step(s, e).attaches && R.Step(s, e).attaches[x].notice == s.attaches[x].notice
  {
    R.EvictionIsLinearFor(s, x);
    if x in R.Step(s, e).attaches {
      R.EvictionIsLinearFor(R.Step(s, e), x);
    }
  }

  /** The connection being closed has not been told anything yet, and is told the verdict. */
  lemma ClosingTells(s: R.System, e: R.Event, x: S.Conn)
    requires R.Eviction(s) && Closing(s, e) == Some(x)
    ensures x in s.attaches && s.attaches[x].notice.None?
    ensures x in R.Step(s, e).attaches && R.Step(s, e).attaches[x].notice == Some(Verdict(s))
  {
    if e.CloseOld? {
      assert R.Evictors(s, e.conn);
      R.EvictionIsLinear(s, e.conn, e.conn);
    }
    assert R.Evictors(s, x) && R.Closed(s, x);
    R.EvictionIsLinearFor(s, x);
  }

  /** A SessionEvent on the wire is about an evicted connection, and says what was said about it. */
  predicate Backed(w: World, o: Out) {
    IsNotice(o.frame) ==>
      && ConnOf(o.vid) in w.sess.attaches && w.sess.attaches[ConnOf(o.vid)].notice.Some?
      && o.frame == NoticeFrame(w.sess.attaches[ConnOf(o.vid)].notice.value)
  }

  ghost predicate Told(w: World) {
    && (forall k :: 0 <= k < |w.down.sent| ==> Backed(w, w.down.sent[k]))
    && (forall j, k :: 0 <= j < k < |w.down.sent| && IsNotice(w.down.sent[j].frame) && IsNotice(w.down.sent[k].frame) ==>
          w.down.sent[j].vid != w.down.sent[k].vid)
    && (forall v: nat :: ConnOf(v) in w.sess.attaches ==> v in w.down.net.vcs && w.down.net.vcs[v].sid == w.sid)
  }

  lemma StepAttaches(s: R.System, e: R.Event, c: S.Conn)
    requires c in R.Step(s, e).attaches
    ensures c in s.attaches || e == R.Install(c)
  {
  }

  /** A session event without a close on this socket. */
  lemma SilentKeepsTold(w: World, e: R.Event)
    requires Told(w) && Sound(w) && Possible(w, InSession(e)) && R.Eviction(R.Step(w.sess, e))
    ensures Told(w.(sess := R.Step(w.sess, e)))
  {
    var m := w.(sess := R.Step(w.sess, e));
    forall k | 0 <= k < |m.down.sent| ensures Backed(m, m.down.sent[k]) {
      assert Backed(w, w.down.sent[k]);
      if IsNotice(w.down.sent[k].frame) {
        NoticeStays(w.sess, e, ConnOf(w.down.sent[k].vid));
      }
    }
    forall v: nat | ConnOf(v) in m.sess.attaches ensures v in m.down.net.vcs && m.down.net.vcs[v].sid == m.sid {
      StepAttaches(w.sess, e, ConnOf(v));
    }
  }

  /** The frame that a close puts on the wire. */
  lemma CloseKeepsTold(w: World, m: World, v: nat, n: R.Notice)
    requires Told(m) && (forall k :: 0 <= k < |w.down.sent| ==> Backed(w, w.down.sent[k])) && m.down == w.down
    requires ConnOf(v) in w.sess.attaches && w.sess.attaches[ConnOf(v)].notice.None?
    requires ConnOf(v) in m.sess.attaches && m.sess.attaches[ConnOf(v)].notice == Some(n)
    ensures Told(m.(down := DownStep(m.down, Writes(v, NoticeFrame(n)))))
  {
    var o := m.(down := DownStep(m.down, Writes(v, NoticeFrame(n))));
    forall k | 0 <= k < |o.down.sent| ensures Backed(o, o.down.sent[k]) {
      assert k < |m.down.sent| ==> Backed(m, m.down.sent[k]);
    }
    forall j | 0 <= j < |m.down.sent| && IsNotice(m.down.sent[j].frame) ensures m.down.sent[j].vid != v {
      assert Backed(w, w.down.sent[j]);
    }
  }

  lemma SessionKeepsTold(w: World, e: R.Event)
    requires Told(w) && Sound(w) && Possible(w, InSession(e)) && Sound(Happen(w, InSession(e)))
    ensures Told(Happen(w, InSession(e)))
  {
    SilentKeepsTold(w, e);
    var x := Closing(w.sess, e);
    if x.Some? && OnSocket(x.value) {
      ClosingTells(w.sess, e, x.value);
      assert ConnOf(x.value / 2) == x.value;
      CloseKeepsTold(w, w.(sess := R.Step(w.sess, e)), x.value / 2, Verdict(w.sess));
    }
  }

  lemma WireKeepsTold(w: World, d: DownEvent)
    requires Told(w) && Sound(w) && Possible(w, OnWire(d))
    ensures Told(w.(down := DownStep(w.down, d)))
  {
    var m := w.(down := DownStep(w.down, d));
    if d.Up? {
      UpLasts(w.down.net, d.e);
    }
    forall k | 0 <= k < |m.down.sent| ensures Backed(m, m.down.sent[k]) {
      assert k < |w.down.sent| ==> Backed(w, w.down.sent[k]);
    }
  }

  lemma {:induction false} RunsAreTold(sid: Bytes, hs: seq<Happening>)
    ensures Told(Run(sid, hs)) && Sound(Run(sid, hs)) && Run(sid, hs).sid == sid
    decreases |hs|
  {
    RunsAreSound(sid, hs);
    if hs != [] {
      var w, h := Run(sid, hs[..|hs| - 1]), hs[|hs| - 1];
      RunsAreTold(sid, hs[..|hs| - 1]);
      if Possible(w, h) {
        match h
        case InSession(e) => SessionKeepsTold(w, e);
        case OnWire(d) => WireKeepsTold(w, d);
      }
    }
  }

  // --- theorems ------------------------------------------------------------------------------------

  /** Connection `v` of this socket was evicted, and `frame` says how. */
  ghost predicate TrueOf(w: World, v: nat, frame: Bytes) {
    && ConnOf(v) in w.sess.attaches
    && var a := w.sess.attaches[ConnOf(v)];
       && a.left.Some? && a.left.value.cause != R.OwnFinish && a.notice.Some? && frame == NoticeFrame(a.notice.value)
       && (frame[1] == EVENT_PREEMPTED ==>
             && a.left.value.cause.TakenOver?
             && a.left.value.cause.newer in w.sess.attaches && a.epoch < w.sess.attaches[a.left.value.cause.newer].epoch)
       && (a.left.value.cause == R.ByDestroy ==> frame[1] == EVENT_DESTROYED)
       && (frame[1] == EVENT_DESTROYED ==> w.sess.core.status == S.Destroyed)
  }

  lemma BackedIsTrue(w: World, o: Out)
    requires Sound(w) && Backed(w, o) && IsNotice(o.frame)
    ensures TrueOf(w, o.vid, o.frame)
  {
    R.EvictionIsLinearFor(w.sess, ConnOf(o.vid));
    assert R.Closed(w.sess, ConnOf(o.vid));
  }

  /** In every run, each SessionEvent a channel receives is about a connection of its own session that
      really was evicted as the event says, and that the channel itself or an earlier one attached; and
      no connection is ever announced twice. */
  lemma NoticesAreTrue(sid: Bytes, hs: seq<Happening>, c: nat, i: nat)
    requires var d := Run(sid, hs).down;
      c in d.got && i < |d.got[c]| && d.got[c][i] < |d.sent| && IsNotice(d.sent[d.got[c][i]].frame)
    ensures var w := Run(sid, hs); var o := w.down.sent[w.down.got[c][i]];
      && TrueOf(w, o.vid, o.frame) && HeardFrom(w.down, c, w.down.got[c][i])
      && forall k :: 0 <= k < |w.down.sent| && IsNotice(w.down.sent[k].frame) && w.down.sent[k].vid == o.vid ==>
           k == w.down.got[c][i]
  {
    RunsAreTold(sid, hs);
    var w := Run(sid, hs);
    assert HeardOk(w.down, c);
    assert Backed(w, w.down.sent[w.down.got[c][i]]);
    BackedIsTrue(w, w.down.sent[w.down.got[c][i]]);
  }

  /** Channel `c` is attached for session `sid` and open. */
  predicate OpenFor(n: M.Net, sid: Bytes, c: nat) {
    sid in n.attachments && n.attachments[sid] == c && c in n.chans && !n.chans[c].view.closed
  }

  /**
   The next frame to arrive is a SessionEvent about connection v. In every run, a channel is told of an
   eviction that was not its own exactly when a newer channel than v's is attached for the session and
   open. It may be the evictor's own channel, which then hears of the eviction it caused: exactly when
   that is the attached channel.
   */
  lemma ToldOfAnotherIff(sid: Bytes, hs: seq<Happening>)
    requires var d := Run(sid, hs).down; CanStep(d, Arrives) && IsNotice(d.sent[d.arrived].frame)
    ensures var w := Run(sid, hs); var n := w.down.net; var o := w.down.sent[w.down.arrived];
      var to := Receiver(n, WireBytes(o));
      && TrueOf(w, o.vid, o.frame) && o.sid == sid && o.vid in n.vcs
      && (to.Some? && to.value != n.vcs[o.vid].cid
          <==> sid in n.attachments && n.attachments[sid] > n.vcs[o.vid].cid && OpenFor(n, sid, n.attachments[sid]))
      && (forall u: nat :: u in n.vcs && w.sess.attaches[ConnOf(o.vid)].left.value.cause == R.TakenOver(ConnOf(u)) ==>
            (to == Some(n.vcs[u].cid) <==> OpenFor(n, sid, n.vcs[u].cid)))
  {
    RunsAreTold(sid, hs);
    var w := Run(sid, hs);
    var n, o := w.down.net, w.down.sent[w.down.arrived];
    assert OutOk(n, o) && Backed(w, o);
    BackedIsTrue(w, o);
    assert M.ConnOk(n, o.vid);
    ReceiverIs(n, o);
  }

  lemma CloseWrites(d: Down, v: nat, n: R.Notice)
    requires d.net.serving && v in d.net.vcs && d.net.vcs[v].started
    ensures Notify(d, Some(ConnOf(v)), n) == d.(sent := d.sent + [Out(v, d.net.vcs[v].sid, NoticeFrame(n))])
  {
    assert CanStep(d, Writes(v, NoticeFrame(n)));
  }

  lemma ClosingIsPossible(w: World, e: R.Event)
    requires Closing(w.sess, e).Some?
    ensures Possible(w, InSession(e))
  {
  }

  /** In every run, an evicted connection of this socket whose bridge has started is announced as soon as
      its evictor closes it, while the socket serves. */
  lemma EvictionIsAnnounced(sid: Bytes, hs: seq<Happening>, e: R.Event, v: nat)
    requires var w := Run(sid, hs);
      Closing(w.sess, e) == Some(ConnOf(v)) && w.down.net.serving && v in w.down.net.vcs && w.down.net.vcs[v].started
    ensures var w, m := Run(sid, hs), Run(sid, hs + [InSession(e)]);
      m.down.sent == w.down.sent + [Out(v, sid, NoticeFrame(Verdict(w.sess)))]
  {
    var w := Run(sid, hs);
    HappenSnoc(sid, hs, InSession(e));
    ClosingIsPossible(w, e);
    CloseWrites(w.down, v, Verdict(w.sess));
    ClosedHere(sid, hs, e, v);
  }

  /** A connection that gets closed was attached by this socket for this session. */
  lemma ClosedHere(sid: Bytes, hs: seq<Happening>, e: R.Event, v: nat)
    requires Closing(Run(sid, hs).sess, e) == Some(ConnOf(v))
    ensures v in Run(sid, hs).down.net.vcs && Run(sid, hs).down.net.vcs[v].sid == sid
  {
    RunsAreTold(sid, hs);
    ClosingTells(Run(sid, hs).sess, e, ConnOf(v));
  }

  // --- a run in which a channel hears of the eviction it caused -----------------------------------------

  function OnWires(es: seq<DownEvent>): seq<Happening> {
    if es == [] then [] else OnWires(es[..|es| - 1]) + [OnWire(es[|es| - 1])]
  }

  lemma HappenSnoc(sid: Bytes, hs: seq<Happening>, h: Happening)
    ensures Run(sid, hs + [h]) == Happen(Run(sid, hs), h)
  {
    assert (hs + [h])[..|hs|] == hs;
  }

  lemma {:induction false} OnlyWire(sid: Bytes, es: seq<DownEvent>)
    requires forall i :: 0 <= i < |es| ==> !es[i].Writes?
    ensures Run(sid, OnWires(es)) == World(sid, R.INIT, DownRun(es))
    decreases |es|
  {
    if es != [] {
      OnlyWire(sid, es[..|es| - 1]);
      HappenSnoc(sid, OnWires(es[..|es| - 1]), OnWire(es[|es| - 1]));
    }
  }

  /** The old bridge attaches first and the new one evicts it. */
  lemma NewEvictsOld()
    ensures var s := R.Step(R.Step(R.INIT, R.Install(0)), R.Install(4));
      && 0 in s.attaches && 4 in s.attaches && s.attaches[4].evicts == Some(0) && !s.attaches[4].closedOld
      && s.attaches[0].left.Some? && s.attaches[0].left.value.cause == R.TakenOver(4) && s.core.status == S.Running
  {
    var s1 := R.Step(R.INIT, R.Install(0));
    assert s1.core.conn == Some(0) && s1.attaches.Keys == {0};
  }

  /** Up to where the old connection has written its event and nothing has arrived yet. */
  lemma OldIsEvicted(a: Bytes, b: Bytes) returns (hs: seq<Happening>)
    requires M.ProperId(a) && M.ProperId(b) && a != b
    ensures var w := Run(a, hs); var d := w.down;
      && d.sent == [Out(0, a, NoticeFrame(R.NoticePreempted))] && d.arrived == 0 && d.got == map[] && d.net.isOpen
      && d.net.attachments == map[a := 2, b := 1] && 2 in d.net.chans && !d.net.chans[2].view.closed && M.Ordered(d.net)
      && 0 in d.net.vcs && d.net.vcs[0].sid == a && 2 in d.net.vcs && d.net.vcs[2].cid == 2
      && ConnOf(0) in w.sess.attaches && w.sess.attaches[ConnOf(0)].left.Some?
      && w.sess.attaches[ConnOf(0)].left.value.cause == R.TakenOver(ConnOf(2))
  {
    var es := BothStarted(a, b);
    OnlyWire(a, es);
    hs := OnWires(es);
    var d := DownRun(es);
    NewEvictsOld();
    HappenSnoc(a, hs, InSession(R.Install(0)));
    hs := hs + [InSession(R.Install(0))];
    HappenSnoc(a, hs, InSession(R.Install(4)));
    hs := hs + [InSession(R.Install(4))];
    var s := R.Step(R.Step(R.INIT, R.Install(0)), R.Install(4));
    assert Run(a, hs) == World(a, s, d);
    HappenSnoc(a, hs, InSession(R.CloseOld(4)));
    hs := hs + [InSession(R.CloseOld(4))];
    EvictionIsWritten(a, s, d);
    DownRunsAreGood(es);
  }

  lemma EventArrives(w: World, a: Bytes)
    requires var d := w.down;
      && d.sent == [Out(0, a, NoticeFrame(R.NoticePreempted))] && d.arrived == 0 && d.got == map[] && d.net.isOpen
      && a in d.net.attachments && d.net.attachments[a] == 2 && 2 in d.net.chans && !d.net.chans[2].view.closed
      && M.Ordered(d.net) && 0 in d.net.vcs && d.net.vcs[0].sid == a
    ensures Happen(w, OnWire(Arrives)) == w.(down := w.down.(arrived := 1, got := map[2 := [0]]))
  {
    ReceiverIs(w.down.net, w.down.sent[0]);
    assert Heard(w.down, 2) + [0] == [0];
  }

  /** Two channels one after the other on one socket: the new bridge attaches before the old one has
      ended. The old connection is closed and writes EventPreempted, and the new channel, whose own
      attach was the preemption, is told that it was preempted. */
  lemma PreemptorIsToldPreempted(a: Bytes, b: Bytes) returns (hs: seq<Happening>)
    requires M.ProperId(a) && M.ProperId(b) && a != b
    ensures var w := Run(a, hs); var d := w.down;
      && 2 in d.got && d.got[2] == [0] && |d.sent| == 1
      && d.sent[0].vid == 0 && d.sent[0].frame == NoticeFrame(R.NoticePreempted)
      && 2 in d.net.vcs && d.net.vcs[2].cid == 2
      && ConnOf(0) in w.sess.attaches && w.sess.attaches[ConnOf(0)].left.Some?
      && w.sess.attaches[ConnOf(0)].left.value.cause == R.TakenOver(ConnOf(2))
  {
    hs := OldIsEvicted(a, b);
    EventArrives(Run(a, hs), a);
    HappenSnoc(a, hs, OnWire(Arrives));
    hs := hs + [OnWire(Arrives)];
  }

  lemma EvictionIsWritten(a: Bytes, s: R.System, d: Down)
    requires 0 in s.attaches && 4 in s.attaches && s.attaches[4].evicts == Some(0) && !s.attaches[4].closedOld
    requires s.attaches[0].left.Some? && s.core.status == S.Running
    requires d.sent == [] && d.net.serving && 0 in d.net.vcs && d.net.vcs[0].sid == a && d.net.vcs[0].started
    ensures var w := Happen(World(a, s, d), InSession(R.CloseOld(4)));
      && w.down == d.(sent := [Out(0, a, NoticeFrame(R.NoticePreempted))])
      && 0 in w.sess.attaches && w.sess.attaches[0].left == s.attaches[0].left
  {
    assert Closing(s, R.CloseOld(4)) == Some(0);
    assert CanStep(d, Writes(0, NoticeFrame(R.NoticePreempted)));
  }
}
