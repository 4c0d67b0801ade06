/**
 One WebSocket from end to end: browser channels, the wire, the router's table, the
 virtual connections and the goroutines that clean them up, in every interleaving.

 Wire items and queued frames carry, as history, the browser channel that sent them and
 their number among that channel's sends. The server decides everything from the bytes.
 */
module Multiplex {
  import opened Bytes
  import opened Codec
  import opened Channels

  /** A session-level message an application hands to its channel. */
  datatype Msg = Msg(kind: byte, payload: Bytes)

  datatype Held = Held(idx: nat, msg: Msg)

  /** A routed frame in flight; `idx` is None for the channel's own Attach and Detach. */
  datatype Item = Item(cid: nat, idx: Option<nat>, bytes: Bytes)

  datatype Tagged = Tagged(cid: nat, idx: nat, frame: Bytes)

  datatype Chan = Chan(sid: Bytes, view: Client<Held>, sent: seq<Msg>)

  datatype VChan = VChan(
    sid: Bytes,
    cid: nat,                    // the browser channel whose Attach created it
    pipe: Pipe<Tagged>,
    started: bool,               // its goroutine has answered the Attach
    ending: bool,                // detached, evicted, attach over, or connection gone
    accepted: seq<Tagged>,       // everything ever queued
    taken: seq<Tagged>,          // everything the bridge has read
    eof: bool)

  datatype Net = Net(
    chans: map<nat, Chan>,
    attachments: map<Bytes, nat>,
    isOpen: bool,                // the browser still holds the socket
    wire: seq<Item>,
    acks: seq<Bytes>,            // AttachOK frames on their way to the browser
    serving: bool,
    table: map<Bytes, nat>,
    vcs: map<nat, VChan>,
    nextChan: nat,
    nextConn: nat)

  datatype Event =
    | AppAttach(sid: Bytes)
    | AppSend(cid: nat, msg: Msg)
    | AppClose(cid: nat)
    | AckArrives
    | FrameArrives(found: bool)
    | AttachStarts(vid: nat, ok: bool)
    | AttachEnds(vid: nat)
    | MarkClosed(vid: nat)
    | RemoveFromTable(vid: nat)
    | BridgeReads(vid: nat)
    | Teardown

  const INIT: Net := Net(map[], map[], true, [], [], true, map[], map[], 0, 0)

  predicate ProperId(sid: Bytes) {
    |sid| == SESSION_ID_LEN && !IsConnId(sid)
  }

  predicate Enabled(n: Net, e: Event) {
    match e
    case AppAttach(sid) => n.isOpen && ProperId(sid)
    case AppSend(c, _) => c in n.chans
    case AppClose(c) => c in n.chans
    case AckArrives => n.acks != []
    case FrameArrives(_) => n.serving && n.wire != []
    case AttachStarts(v, _) => v in n.vcs && !n.vcs[v].started
    case AttachEnds(v) => v in n.vcs && n.vcs[v].started
    case MarkClosed(v) => v in n.vcs && n.vcs[v].ending
    case RemoveFromTable(v) => v in n.vcs && n.vcs[v].ending
    case BridgeReads(v) => v in n.vcs
    case Teardown => n.serving
  }

  // --- the browser ---------------------------------------------------------------

  function Route(sid: Bytes, cid: nat, h: Held): Item {
    Item(cid, Some(h.idx), Layout(sid, h.msg.kind, h.msg.payload))
  }

  function Routes(sid: Bytes, cid: nat, hs: seq<Held>): seq<Item> {
    seq(|hs|, i requires 0 <= i < |hs| => Route(sid, cid, hs[i]))
  }

  function Control(sid: Bytes, cid: nat, kind: byte): Item {
    Item(cid, None, Layout(sid, kind, []))
  }

  function Emit(n: Net, items: seq<Item>): seq<Item> {
    if n.isOpen then n.wire + items else n.wire
  }

  function DoAttach(n: Net, sid: Bytes): Net {
    if sid in n.attachments && n.attachments[sid] in n.chans then
      var c := n.attachments[sid];
      n.(chans := n.chans[c := n.chans[c].(view := n.chans[c].view.(closed := false))])
    else
      var c := n.nextChan;
      n.(nextChan := c + 1,
         chans := n.chans[c := Chan(sid, Client(false, false, []), [])],
         attachments := n.attachments[sid := c],
         wire := Emit(n, [Control(sid, c, ATTACH)]))
  }

  function DoSend(n: Net, c: nat, msg: Msg): Net
    requires c in n.chans
  {
    var ch := n.chans[c];
    if ch.view.closed then n
    else
      var (view, out) := Send(ch.view, Held(|ch.sent|, msg));
      n.(chans := n.chans[c := ch.(view := view, sent := ch.sent + [msg])],
         wire := Emit(n, Routes(ch.sid, c, out)))
  }

  /** Closing the last channel also gives up the socket. */
  function DoClose(n: Net, c: nat): Net
    requires c in n.chans
  {
    var ch := n.chans[c];
    if ch.view.closed then n
    else
      var m := n.(chans := n.chans[c := ch.(view := ch.view.(closed := true))]);
      if ch.sid !in n.attachments then m
      else
        var rest := n.attachments - {ch.sid};
        m.(attachments := rest, wire := Emit(n, [Control(ch.sid, c, DETACH)]),
           isOpen := n.isOpen && rest != map[])
  }

  function DoAck(n: Net): Net
    requires n.acks != []
  {
    var sid := n.acks[0];
    var m := n.(acks := n.acks[1..]);
    if sid !in n.attachments || n.attachments[sid] !in n.chans then m
    else
      var c := n.attachments[sid];
      var (view, out) := Open(n.chans[c].view);
      m.(chans := n.chans[c := n.chans[c].(view := view)],
         wire := Emit(n, Routes(n.chans[c].sid, c, out)))
  }

  // --- the server ------------------------------------------------------------------

  function DoFrame(n: Net, found: bool): Net
    requires n.wire != []
  {
    Dispatch(n.(wire := n.wire[1..]), DecodeRouted(n.wire[0].bytes), n.wire[0], found)
  }

  function Dispatch(m: Net, d: Result<Frame>, x: Item, found: bool): Net {
    if d.Err? || IsConnLevel(d.value) then m
    else if d.value.kind == ATTACH then DoRegister(m, d.value.sid, x.cid, found)
    else if d.value.kind == DETACH then DoDetach(m, d.value.sid)
    else DoDeliver(m, d.value, x)
  }

  function DoRegister(m: Net, sid: Bytes, cid: nat, found: bool): Net {
    if sid in m.table then m.(acks := m.acks + [sid])
    else if !Admits(m.table, sid, found) then m
    else
      var v := m.nextConn;
      m.(nextConn := v + 1,
         table := Entered(m.table, sid, v),
         vcs := m.vcs[v := VChan(sid, cid, Pipe([], false), false, false, [], [], false)])
  }

  function DoDetach(m: Net, sid: Bytes): Net {
    if sid !in m.table then m
    else
      var v := m.table[sid];
      m.(table := Left(m.table, sid),
         vcs := if v in m.vcs then m.vcs[v := m.vcs[v].(ending := true)] else m.vcs)
  }

  function DoDeliver(m: Net, f: Frame, x: Item): Net {
    if f.sid !in m.table || m.table[f.sid] !in m.vcs then m
    else
      var v := m.table[f.sid];
      var vc := m.vcs[v];
      var t := Tagged(x.cid, if x.idx.Some? then x.idx.value else 0, SessionFrame(f));
      m.(vcs := m.vcs[v := vc.(pipe := Deliver(vc.pipe, t),
                               accepted := if vc.pipe.closed then vc.accepted else vc.accepted + [t])])
  }

  function DoRead(n: Net, v: nat): Net
    requires v in n.vcs
  {
    var vc := n.vcs[v];
    var (pipe, r) := ReadFrom(vc.pipe);
    n.(vcs := n.vcs[v := vc.(pipe := pipe,
                             taken := if r.Message? then vc.taken + [r.frame] else vc.taken,
                             eof := vc.eof || r.Eof?)])
  }

  function DoStart(n: Net, v: nat, ok: bool): Net
    requires v in n.vcs
  {
    var vc := n.vcs[v].(started := true);
    if ok then n.(vcs := n.vcs[v := vc], acks := n.acks + [vc.sid])
    else n.(vcs := n.vcs[v := vc.(ending := true)])
  }

  function DoRemove(n: Net, v: nat): Net
    requires v in n.vcs
  {
    n.(table := CleanedUp(n.table, n.vcs[v].sid, v))
  }

  function DoTeardown(n: Net): Net {
    n.(serving := false, table := map[],
       vcs := map v | v in n.vcs :: n.vcs[v].(ending := n.vcs[v].ending || v in n.table.Values))
  }

  function Step(n: Net, e: Event): Net {
    if !Enabled(n, e) then n else
    match e
    case AppAttach(sid) => DoAttach(n, sid)
    case AppSend(c, msg) => DoSend(n, c, msg)
    case AppClose(c) => DoClose(n, c)
    case AckArrives => DoAck(n)
    case FrameArrives(found) => DoFrame(n, found)
    case AttachStarts(v, ok) => DoStart(n, v, ok)
    case AttachEnds(v) => n.(vcs := n.vcs[v := n.vcs[v].(ending := true)])
    case MarkClosed(v) => n.(vcs := n.vcs[v := n.vcs[v].(pipe := n.vcs[v].pipe.(closed := true))])
    case RemoveFromTable(v) => DoRemove(n, v)
    case BridgeReads(v) => DoRead(n, v)
    case Teardown => DoTeardown(n)
  }

  function Exec(n: Net, es: seq<Event>): Net {
    if es == [] then n else Step(Exec(n, es[..|es| - 1]), es[|es| - 1])
  }

  // --- registration ------------------------------------------------------------------

  /** Keys are the sessions of their channels, and a channel with no reason to end is mapped. */
  ghost predicate Registered(n: Net) {
    && (forall v :: v in n.vcs ==> v < n.nextConn)
    && (forall s :: s in n.table ==> n.table[s] in n.vcs && n.vcs[n.table[s]].sid == s)
    && (forall v :: v in n.vcs && !n.vcs[v].ending ==> n.vcs[v].sid in n.table && n.table[n.vcs[v].sid] == v)
  }

  lemma RegisterKeeps(m: Net, sid: Bytes, cid: nat, found: bool)
    requires Registered(m)
    ensures Registered(DoRegister(m, sid, cid, found))
  {
  }

  lemma DetachKeeps(m: Net, sid: Bytes)
    requires Registered(m)
    ensures Registered(DoDetach(m, sid))
  {
  }

  lemma DeliverKeeps(m: Net, f: Frame, x: Item)
    requires Registered(m)
    ensures Registered(DoDeliver(m, f, x))
  {
  }

  lemma FrameKeepsRegistered(n: Net, found: bool)
    requires Registered(n) && n.wire != []
    ensures Registered(DoFrame(n, found))
  {
    var m := n.(wire := n.wire[1..]);
    var d := DecodeRouted(n.wire[0].bytes);
    assert Registered(m);
    if d.Ok? {
      RegisterKeeps(m, d.value.sid, n.wire[0].cid, found);
      DetachKeeps(m, d.value.sid);
      DeliverKeeps(m, d.value, n.wire[0]);
    }
  }

  predicate AtBrowser(e: Event) {
    e.AppAttach? || e.AppSend? || e.AppClose? || e.AckArrives?
  }

  predicate SameServer(n: Net, m: Net) {
    m.table == n.table && m.vcs == n.vcs && m.nextConn == n.nextConn && m.serving == n.serving
  }

  lemma AttachAtBrowser(n: Net, sid: Bytes)
    ensures SameServer(n, DoAttach(n, sid))
  {
  }

  lemma SendAtBrowser(n: Net, c: nat, msg: Msg)
    requires c in n.chans
    ensures SameServer(n, DoSend(n, c, msg)) && SameServer(n, DoClose(n, c))
  {
  }

  lemma AckAtBrowser(n: Net)
    requires n.acks != []
    ensures SameServer(n, DoAck(n))
  {
  }

  lemma BrowserLeavesServerAlone(n: Net, e: Event)
    requires AtBrowser(e)
    ensures SameServer(n, Step(n, e))
  {
    if Enabled(n, e) {
      match e
      case AppAttach(sid) => AttachAtBrowser(n, sid);
      case AppSend(c, msg) => SendAtBrowser(n, c, msg);
      case AppClose(c) => SendAtBrowser(n, c, Msg(0, []));
      case AckArrives => AckAtBrowser(n);
    }
  }

  lemma RemoveKeepsRegistered(n: Net, v: nat)
    requires Registered(n) && v in n.vcs && n.vcs[v].ending
    ensures Registered(DoRemove(n, v))
  {
  }

  lemma TeardownKeepsRegistered(n: Net)
    requires Registered(n)
    ensures Registered(DoTeardown(n))
  {
    var m := DoTeardown(n);
    forall v | v in m.vcs ensures m.vcs[v].ending {
      assert !n.vcs[v].ending ==> n.table[n.vcs[v].sid] == v;
    }
  }

  /** Same connections, same table; a connection may only gain a reason to end. */
  ghost predicate SameTable(n: Net, m: Net) {
    && m.table == n.table && m.nextConn == n.nextConn && m.vcs.Keys == n.vcs.Keys
    && forall v :: v in n.vcs ==> m.vcs[v].sid == n.vcs[v].sid && (n.vcs[v].ending ==> m.vcs[v].ending)
  }

  lemma SameTableKeepsRegistered(n: Net, m: Net)
    requires Registered(n) && SameTable(n, m)
    ensures Registered(m)
  {
  }

  lemma ReadKeepsTable(n: Net, v: nat)
    requires v in n.vcs
    ensures SameTable(n, DoRead(n, v))
  {
  }

  lemma StartKeepsTable(n: Net, v: nat, ok: bool)
    requires v in n.vcs
    ensures SameTable(n, DoStart(n, v, ok))
  {
  }

  lemma OneConnKeepsTable(n: Net, v: nat, vc: VChan)
    requires v in n.vcs && vc.sid == n.vcs[v].sid && (n.vcs[v].ending ==> vc.ending)
    ensures SameTable(n, n.(vcs := n.vcs[v := vc]))
  {
  }

  lemma LocalEventsKeepTable(n: Net, e: Event)
    requires Enabled(n, e) && (e.AttachStarts? || e.AttachEnds? || e.MarkClosed? || e.BridgeReads?)
    ensures SameTable(n, Step(n, e))
  {
    match e
    case BridgeReads(v) => ReadKeepsTable(n, v);
    case AttachStarts(v, ok) => StartKeepsTable(n, v, ok);
    case AttachEnds(v) => OneConnKeepsTable(n, v, n.vcs[v].(ending := true));
    case MarkClosed(v) => OneConnKeepsTable(n, v, n.vcs[v].(pipe := n.vcs[v].pipe.(closed := true)));
  }

  lemma ServerStepKeepsRegistered(n: Net, e: Event)
    requires Registered(n) && Enabled(n, e) && !AtBrowser(e)
    ensures Registered(Step(n, e))
  {
    match e
    case FrameArrives(found) => FrameKeepsRegistered(n, found);
    case RemoveFromTable(v) => RemoveKeepsRegistered(n, v);
    case Teardown => TeardownKeepsRegistered(n);
    case _ =>
      LocalEventsKeepTable(n, e);
      SameTableKeepsRegistered(n, Step(n, e));
  }

  lemma StepKeepsRegistered(n: Net, e: Event)
    requires Registered(n)
    ensures Registered(Step(n, e))
  {
    if AtBrowser(e) {
      BrowserLeavesServerAlone(n, e);
      assert Registered(Step(n, e));
    } else if Enabled(n, e) {
      ServerStepKeepsRegistered(n, e);
    }
  }

  // --- queues -------------------------------------------------------------------------

  predicate DrainedSoFar(vc: VChan) {
    && vc.accepted == vc.taken + vc.pipe.queue
    && (vc.eof ==> vc.pipe.closed && vc.pipe.queue == [])
  }

  ghost predicate Drained(n: Net) {
    forall v {:trigger n.vcs[v]} :: v in n.vcs ==> DrainedSoFar(n.vcs[v])
  }

  lemma DeliverKeepsDrained(m: Net, f: Frame, x: Item)
    requires Drained(m)
    ensures Drained(DoDeliver(m, f, x))
  {
  }

  lemma RegisterKeepsDrained(m: Net, sid: Bytes, cid: nat, found: bool)
    requires Drained(m)
    ensures Drained(DoRegister(m, sid, cid, found)) && Drained(DoDetach(m, sid))
  {
  }

  lemma FrameKeepsDrained(n: Net, found: bool)
    requires Drained(n) && n.wire != []
    ensures Drained(DoFrame(n, found))
  {
    var m, d := n.(wire := n.wire[1..]), DecodeRouted(n.wire[0].bytes);
    assert Drained(m);
    if d.Ok? {
      DeliverKeepsDrained(m, d.value, n.wire[0]);
      RegisterKeepsDrained(m, d.value.sid, n.wire[0].cid, found);
    }
  }

  lemma StepKeepsDrained(n: Net, e: Event)
    requires Drained(n)
    ensures Drained(Step(n, e))
  {
    if AtBrowser(e) {
      BrowserLeavesServerAlone(n, e);
    } else if Enabled(n, e) {
      match e
      case FrameArrives(found) => FrameKeepsDrained(n, found);
      case _ =>
    }
  }

  // --- order and origin ------------------------------------------------------------------

  ghost predicate Increasing(s: seq<nat>) {
    forall i, j :: 0 <= i < j < |s| ==> s[i] < s[j]
  }

  ghost predicate Below(s: seq<nat>, k: nat) {
    forall i :: 0 <= i < |s| ==> s[i] < k
  }

  lemma IncreasingSnoc(s: seq<nat>, k: nat)
    requires Increasing(s) && Below(s, k)
    ensures Increasing(s + [k]) && Below(s + [k], k + 1)
  {
  }

  /** The send numbers of channel `c` on the wire, front first. */
  function WireIdx(wire: seq<Item>, c: nat): seq<nat> {
    if wire == [] then []
    else (if wire[0].cid == c && wire[0].idx.Some? then [wire[0].idx.value] else []) + WireIdx(wire[1..], c)
  }

  lemma {:induction false} WireIdxAppend(a: seq<Item>, b: seq<Item>, c: nat)
    ensures WireIdx(a + b, c) == WireIdx(a, c) + WireIdx(b, c)
  {
    if a == [] {
      assert a + b == b;
    } else {
      assert (a + b)[1..] == a[1..] + b;
      WireIdxAppend(a[1..], b, c);
    }
  }

  function HeldIdx(hs: seq<Held>): seq<nat> {
    seq(|hs|, i requires 0 <= i < |hs| => hs[i].idx)
  }

  function TagIdx(ts: seq<Tagged>): seq<nat> {
    seq(|ts|, i requires 0 <= i < |ts| => ts[i].idx)
  }

  lemma {:induction false} RoutesIdx(sid: Bytes, c: nat, hs: seq<Held>, d: nat)
    ensures WireIdx(Routes(sid, c, hs), d) == if d == c then HeldIdx(hs) else []
  {
    if hs != [] {
      assert Routes(sid, c, hs)[1..] == Routes(sid, c, hs[1..]);
      RoutesIdx(sid, c, hs[1..], d);
      assert HeldIdx(hs) == [hs[0].idx] + HeldIdx(hs[1..]);
    }
  }

  /** Everything of channel `c` that is still on its way: the wire, then the held frames. */
  function Ahead(n: Net, c: nat): seq<nat>
    requires c in n.chans
  {
    WireIdx(n.wire, c) + HeldIdx(n.chans[c].view.pending)
  }

  predicate SentAs(ch: Chan, idx: nat, bytes: Bytes) {
    idx < |ch.sent| && bytes == Layout(ch.sid, ch.sent[idx].kind, ch.sent[idx].payload)
  }

  /** A browser channel keeps its bounds, its numbering and its place in the attachments. */
  ghost predicate ChanOk(n: Net, c: nat)
    requires c in n.chans
  {
    var ch := n.chans[c];
    && c < n.nextChan && ProperId(ch.sid)
    && |ch.view.pending| <= PENDING_LIMIT && (ch.view.isOpen ==> ch.view.pending == [])
    && (forall i :: 0 <= i < |ch.view.pending| ==>
          ch.view.pending[i].idx < |ch.sent| && ch.view.pending[i].msg == ch.sent[ch.view.pending[i].idx])
    && (!ch.view.closed ==> ch.sid in n.attachments && n.attachments[ch.sid] == c)
    && Increasing(Ahead(n, c)) && Below(Ahead(n, c), |ch.sent|)
  }

  ghost predicate ItemOk(n: Net, x: Item) {
    && x.cid in n.chans
    && (x.idx.Some? ==> SentAs(n.chans[x.cid], x.idx.value, x.bytes))
    && (x.idx.None? ==> exists k :: k in {ATTACH, DETACH} && x.bytes == Layout(n.chans[x.cid].sid, k, []))
  }

  /** What a virtual connection accepted came, in order, from the channel that attached it. */
  ghost predicate ConnOk(n: Net, v: nat)
    requires v in n.vcs
  {
    var vc := n.vcs[v];
    && vc.cid in n.chans && n.chans[vc.cid].sid == vc.sid
    && (forall i :: 0 <= i < |vc.accepted| ==>
          var t := vc.accepted[i];
          && t.cid == vc.cid && t.idx < |n.chans[vc.cid].sent|
          && t.frame == [n.chans[vc.cid].sent[t.idx].kind] + n.chans[vc.cid].sent[t.idx].payload)
    && Increasing(TagIdx(vc.accepted) + Ahead(n, vc.cid))
  }

  ghost predicate Ordered(n: Net) {
    && (!n.isOpen ==> n.attachments == map[])
    && (forall s :: s in n.attachments ==> n.attachments[s] in n.chans && n.chans[n.attachments[s]].sid == s)
    && (forall c {:trigger ChanOk(n, c)} :: c in n.chans ==> ChanOk(n, c))
    && (forall i :: 0 <= i < |n.wire| ==> ItemOk(n, n.wire[i]))
    && (forall v {:trigger ConnOk(n, v)} :: v in n.vcs ==> ConnOk(n, v))
  }

  // --- which channel a registered connection can hear -----------------------------------

  datatype Belief = Broken | Maybe(cid: Option<nat>)

  /** Follow one routed frame: who may be registered for `sid` after it was processed. */
  function Meet(b: Belief, sid: Bytes, x: Item): Belief {
    var d := DecodeRouted(x.bytes);
    if b.Broken? || d.Err? || d.value.sid != sid then b
    else if d.value.kind == DETACH then Maybe(None)
    else if b.cid.Some? && b.cid.value != x.cid then Broken
    else if d.value.kind == ATTACH then Maybe(Some(x.cid))
    else b
  }

  function Scan(b: Belief, sid: Bytes, wire: seq<Item>): Belief
    decreases |wire|
  {
    if wire == [] then b else Scan(Meet(b, sid, wire[0]), sid, wire[1..])
  }

  lemma {:induction false} ScanSnoc(b: Belief, sid: Bytes, wire: seq<Item>, x: Item)
    ensures Scan(b, sid, wire + [x]) == Meet(Scan(b, sid, wire), sid, x)
    decreases |wire|
  {
    if wire != [] {
      assert (wire + [x])[1..] == wire[1..] + [x];
      ScanSnoc(Meet(b, sid, wire[0]), sid, wire[1..], x);
    }
  }

  predicate LessCommitted(a: Belief, b: Belief) {
    a.Maybe? && b.Maybe? && (a.cid.None? || a.cid == b.cid)
  }

  lemma {:induction false} ScanWeakens(a: Belief, b: Belief, sid: Bytes, wire: seq<Item>)
    requires LessCommitted(a, b) && Scan(b, sid, wire).Maybe?
    ensures LessCommitted(Scan(a, sid, wire), Scan(b, sid, wire))
    decreases |wire|
  {
    if wire != [] {
      if Meet(b, sid, wire[0]).Broken? {
        BrokenStays(sid, wire[1..]);
      }
      ScanWeakens(Meet(a, sid, wire[0]), Meet(b, sid, wire[0]), sid, wire[1..]);
    }
  }

  lemma {:induction false} BrokenStays(sid: Bytes, wire: seq<Item>)
    ensures Scan(Broken, sid, wire) == Broken
  {
    if wire != [] {
      BrokenStays(sid, wire[1..]);
    }
  }

  function Current(n: Net, sid: Bytes): Belief {
    Maybe(if sid in n.table && n.table[sid] in n.vcs then Some(n.vcs[n.table[sid]].cid) else None)
  }

  /** Whatever is registered for `sid` once the wire has drained belongs to the attached channel. */
  ghost predicate Hears(n: Net, sid: Bytes) {
    var b := Scan(Current(n, sid), sid, n.wire);
    b.Maybe? && (b.cid.Some? ==> sid in n.attachments && n.attachments[sid] == b.cid.value)
  }

  ghost predicate Routing(n: Net) {
    forall sid {:trigger Hears(n, sid)} :: sid != [] ==> Hears(n, sid)
  }

  // --- the browser's steps keep the order ----------------------------------------------

  /** `m` differs from `n` at the browser only: items were appended, channels only gained
      sends, and each channel's frames on the way are the same or one newer. */
  ghost predicate BrowserMove(n: Net, m: Net, items: seq<Item>) {
    && m.vcs == n.vcs && m.wire == n.wire + items
    && n.chans.Keys <= m.chans.Keys
    && (forall c {:trigger m.chans[c]} :: c in n.chans ==>
          && m.chans[c].sid == n.chans[c].sid && n.chans[c].sent <= m.chans[c].sent
          && (Ahead(m, c) == Ahead(n, c) || Ahead(m, c) == Ahead(n, c) + [|n.chans[c].sent|]))
    && (forall i :: 0 <= i < |items| ==> ItemOk(m, items[i]))
  }

  lemma BrowserMoveKeepsConn(n: Net, m: Net, items: seq<Item>, v: nat)
    requires BrowserMove(n, m, items) && v in n.vcs && ConnOk(n, v) && ChanOk(n, n.vcs[v].cid)
    ensures ConnOk(m, v)
  {
    var c := n.vcs[v].cid;
    var t, a, k := TagIdx(n.vcs[v].accepted), Ahead(n, c), |n.chans[c].sent|;
    assert m.chans[c].sid == n.chans[c].sid;
    if Ahead(m, c) == a + [k] {
      assert t + Ahead(m, c) == (t + a) + [k];
      assert Below(t, k) && Below(a, k);
      assert Below(t + a, k);
      IncreasingSnoc(t + a, k);
    }
  }

  lemma BrowserMoveKeepsItem(n: Net, m: Net, items: seq<Item>, x: Item)
    requires BrowserMove(n, m, items) && ItemOk(n, x)
    ensures ItemOk(m, x)
  {
    assert m.chans[x.cid].sid == n.chans[x.cid].sid;
  }

  lemma BrowserMoveKeepsOrder(n: Net, m: Net, items: seq<Item>)
    requires Ordered(n) && BrowserMove(n, m, items)
    requires !m.isOpen ==> m.attachments == map[]
    requires forall s :: s in m.attachments ==> m.attachments[s] in m.chans && m.chans[m.attachments[s]].sid == s
    requires forall c {:trigger ChanOk(m, c)} :: c in m.chans ==> ChanOk(m, c)
    ensures Ordered(m)
  {
    forall i | 0 <= i < |m.wire| ensures ItemOk(m, m.wire[i]) {
      if i < |n.wire| {
        BrowserMoveKeepsItem(n, m, items, n.wire[i]);
      } else {
        assert m.wire[i] == items[i - |n.wire|];
      }
    }
    forall v | v in m.vcs ensures ConnOk(m, v) {
      assert ConnOk(n, v);
      assert ChanOk(n, n.vcs[v].cid);
      BrowserMoveKeepsConn(n, m, items, v);
    }
  }

  lemma ControlIdx(wire: seq<Item>, sid: Bytes, c: nat, kind: byte, d: nat)
    ensures WireIdx(wire + [Control(sid, c, kind)], d) == WireIdx(wire, d)
  {
    WireIdxAppend(wire, [Control(sid, c, kind)], d);
  }

  /** A channel is untouched when its own record, its place and its frames ahead are. */
  lemma ChanStays(n: Net, m: Net, d: nat)
    requires d in n.chans && ChanOk(n, d)
    requires d in m.chans && m.nextChan >= n.nextChan && Ahead(m, d) == Ahead(n, d)
    requires m.chans[d].sid == n.chans[d].sid && m.chans[d].sent == n.chans[d].sent
    requires m.chans[d].view == n.chans[d].view.(closed := m.chans[d].view.closed)
    requires !m.chans[d].view.closed ==> m.chans[d].sid in m.attachments && m.attachments[m.chans[d].sid] == d
    ensures ChanOk(m, d)
  {
  }

  lemma ReattachKeepsChan(n: Net, sid: Bytes, d: nat)
    requires Ordered(n) && sid in n.attachments && d in n.chans
    ensures var m := DoAttach(n, sid); d in m.chans && ChanOk(m, d) && Ahead(m, d) == Ahead(n, d)
    ensures var m := DoAttach(n, sid); m.chans[d].sid == n.chans[d].sid && m.chans[d].sent == n.chans[d].sent
  {
    var m := DoAttach(n, sid);
    assert ChanOk(n, d);
    assert m.wire == n.wire && m.chans[d].view.pending == n.chans[d].view.pending;
    ChanStays(n, m, d);
  }

  lemma ReattachShape(n: Net, sid: Bytes)
    requires Ordered(n) && sid in n.attachments
    ensures var m := DoAttach(n, sid);
      && m.vcs == n.vcs && m.wire == n.wire + [] && m.chans.Keys == n.chans.Keys
      && m.attachments == n.attachments && m.isOpen == n.isOpen
  {
    assert n.wire + [] == n.wire;
  }

  lemma ReattachKeepsOrder(n: Net, sid: Bytes)
    requires Ordered(n) && sid in n.attachments
    ensures Ordered(DoAttach(n, sid))
  {
    var m := DoAttach(n, sid);
    ReattachShape(n, sid);
    forall d | d in n.chans
      ensures ChanOk(m, d) && Ahead(m, d) == Ahead(n, d)
      ensures m.chans[d].sid == n.chans[d].sid && m.chans[d].sent == n.chans[d].sent
    {
      ReattachKeepsChan(n, sid, d);
    }
    BrowserMoveKeepsOrder(n, m, []);
  }

  lemma AttachKeepsChans(n: Net, sid: Bytes, d: nat)
    requires Ordered(n) && n.isOpen && ProperId(sid) && sid !in n.attachments && d in DoAttach(n, sid).chans
    ensures ChanOk(DoAttach(n, sid), d)
    ensures d in n.chans ==> d != n.nextChan && Ahead(DoAttach(n, sid), d) == Ahead(n, d)
  {
    var m := DoAttach(n, sid);
    var c := n.nextChan;
    assert c in n.chans ==> ChanOk(n, c);
    ControlIdx(n.wire, sid, c, ATTACH, d);
    if d == c {
      NobodyElsesIdx(n, c);
      assert Ahead(m, c) == [];
    } else {
      assert ChanOk(n, d);
      ChanStays(n, m, d);
    }
  }

  lemma ControlOk(m: Net, c: nat, kind: byte)
    requires c in m.chans && kind in {ATTACH, DETACH}
    ensures ItemOk(m, Control(m.chans[c].sid, c, kind))
  {
    assert Control(m.chans[c].sid, c, kind).bytes == Layout(m.chans[c].sid, kind, []);
  }

  lemma AttachKeepsOrder(n: Net, sid: Bytes)
    requires Ordered(n) && n.isOpen && ProperId(sid) && sid !in n.attachments
    ensures Ordered(DoAttach(n, sid))
  {
    var m := DoAttach(n, sid);
    var items := [Control(sid, n.nextChan, ATTACH)];
    forall d | d in m.chans
      ensures ChanOk(m, d)
      ensures d in n.chans ==> d != n.nextChan && Ahead(m, d) == Ahead(n, d)
    {
      AttachKeepsChans(n, sid, d);
    }
    ControlOk(m, n.nextChan, ATTACH);
    assert BrowserMove(n, m, items);
    BrowserMoveKeepsOrder(n, m, items);
  }

  lemma {:induction false} NoIdx(wire: seq<Item>, c: nat)
    requires forall i :: 0 <= i < |wire| ==> wire[i].cid != c
    ensures WireIdx(wire, c) == []
  {
    if wire != [] {
      NoIdx(wire[1..], c);
    }
  }

  lemma NobodyElsesIdx(n: Net, c: nat)
    requires Ordered(n) && c !in n.chans
    ensures WireIdx(n.wire, c) == []
  {
    forall i | 0 <= i < |n.wire| ensures n.wire[i].cid != c {
      assert ItemOk(n, n.wire[i]);
    }
    NoIdx(n.wire, c);
  }

  lemma CloseKeepsChans(n: Net, c: nat, d: nat)
    requires c in n.chans && !n.chans[c].view.closed && ChanOk(n, c) && n.isOpen
    requires d in n.chans && ChanOk(n, d)
    ensures ChanOk(DoClose(n, c), d) && Ahead(DoClose(n, c), d) == Ahead(n, d)
  {
    var m := DoClose(n, c);
    ControlIdx(n.wire, n.chans[c].sid, c, DETACH, d);
    assert Ahead(m, d) == Ahead(n, d);
    ChanStays(n, m, d);
  }

  lemma CloseShape(n: Net, c: nat)
    requires Ordered(n) && c in n.chans && !n.chans[c].view.closed
    ensures var m := DoClose(n, c); var ch := n.chans[c];
      && n.isOpen && m.vcs == n.vcs && m.wire == n.wire + [Control(ch.sid, c, DETACH)] && m.chans.Keys == n.chans.Keys
      && m.attachments == n.attachments - {ch.sid} && (!m.isOpen ==> m.attachments == map[])
      && (forall d :: d in n.chans ==> m.chans[d].sid == n.chans[d].sid && m.chans[d].sent == n.chans[d].sent)
      && (forall s :: s in m.attachments ==> m.attachments[s] in m.chans && m.chans[m.attachments[s]].sid == s)
      && ItemOk(m, Control(ch.sid, c, DETACH))
  {
    assert ChanOk(n, c);
    ControlOk(DoClose(n, c), c, DETACH);
  }

  lemma CloseMoves(n: Net, c: nat)
    requires Ordered(n) && c in n.chans && !n.chans[c].view.closed
    ensures var m := DoClose(n, c); forall d {:trigger ChanOk(m, d)} :: d in n.chans ==> d in m.chans && ChanOk(m, d)
    ensures BrowserMove(n, DoClose(n, c), [Control(n.chans[c].sid, c, DETACH)])
  {
    var m := DoClose(n, c);
    CloseShape(n, c);
    assert ChanOk(n, c);
    forall d | d in n.chans ensures ChanOk(m, d) && Ahead(m, d) == Ahead(n, d) {
      assert ChanOk(n, d);
      CloseKeepsChans(n, c, d);
    }
  }

  lemma CloseKeepsOrder(n: Net, c: nat)
    requires Ordered(n) && c in n.chans && !n.chans[c].view.closed
    ensures Ordered(DoClose(n, c))
  {
    CloseShape(n, c);
    CloseMoves(n, c);
    BrowserMoveKeepsOrder(n, DoClose(n, c), [Control(n.chans[c].sid, c, DETACH)]);
  }

  lemma SendAhead(n: Net, c: nat, msg: Msg, d: nat)
    requires n.isOpen && c in n.chans && !n.chans[c].view.closed && d in n.chans
    requires n.chans[c].view.isOpen ==> n.chans[c].view.pending == []
    ensures Ahead(DoSend(n, c, msg), d) ==
      Ahead(n, d) + if d == c && (n.chans[c].view.isOpen || |n.chans[c].view.pending| < PENDING_LIMIT)
                    then [|n.chans[c].sent|] else []
  {
    var ch := n.chans[c];
    var h := Held(|ch.sent|, msg);
    var out := Send(ch.view, h).1;
    WireIdxAppend(n.wire, Routes(ch.sid, c, out), d);
    RoutesIdx(ch.sid, c, out, d);
    var m := DoSend(n, c, msg);
    var w, k := WireIdx(n.wire, d), HeldIdx(n.chans[d].view.pending);
    assert WireIdx(m.wire, d) == w + if d == c then HeldIdx(out) else [];
    if d == c && !ch.view.isOpen && |ch.view.pending| < PENDING_LIMIT {
      assert HeldIdx(m.chans[d].view.pending) == k + [h.idx];
      Assoc(w, k, [h.idx]);
    } else {
      assert HeldIdx(m.chans[d].view.pending) == k;
      assert d == c && ch.view.isOpen ==> HeldIdx(out) == [h.idx] && k == [];
    }
  }

  lemma SendKeepsChan(n: Net, c: nat, msg: Msg, d: nat)
    requires n.isOpen && c in n.chans && !n.chans[c].view.closed && d in n.chans
    requires ChanOk(n, c) && ChanOk(n, d)
    ensures ChanOk(DoSend(n, c, msg), d)
  {
    SendAhead(n, c, msg, d);
    if d == c {
      IncreasingSnoc(Ahead(n, c), |n.chans[c].sent|);
    } else {
      ChanStays(n, DoSend(n, c, msg), d);
    }
  }

  lemma RouteOk(m: Net, c: nat, h: Held)
    requires c in m.chans && h.idx < |m.chans[c].sent| && h.msg == m.chans[c].sent[h.idx]
    ensures ItemOk(m, Route(m.chans[c].sid, c, h))
  {
  }

  lemma RoutesOk(m: Net, c: nat, hs: seq<Held>)
    requires c in m.chans
    requires forall i :: 0 <= i < |hs| ==> hs[i].idx < |m.chans[c].sent| && hs[i].msg == m.chans[c].sent[hs[i].idx]
    ensures forall i :: 0 <= i < |hs| ==> ItemOk(m, Routes(m.chans[c].sid, c, hs)[i])
  {
    forall i | 0 <= i < |hs| ensures ItemOk(m, Routes(m.chans[c].sid, c, hs)[i]) {
      RouteOk(m, c, hs[i]);
    }
  }

  lemma SendShape(n: Net, c: nat, msg: Msg)
    requires Ordered(n) && c in n.chans && !n.chans[c].view.closed
    ensures var m := DoSend(n, c, msg); var ch := n.chans[c];
      && n.isOpen && m.vcs == n.vcs && m.wire == n.wire + Routes(ch.sid, c, Send(ch.view, Held(|ch.sent|, msg)).1)
      && m.chans.Keys == n.chans.Keys && m.attachments == n.attachments && m.isOpen == n.isOpen
      && m.chans[c].sid == ch.sid && m.chans[c].sent == ch.sent + [msg]
      && forall d :: d in n.chans && d != c ==> m.chans[d] == n.chans[d]
  {
    assert ChanOk(n, c);
  }

  lemma SentItemsOk(n: Net, c: nat, msg: Msg)
    requires c in n.chans && !n.chans[c].view.closed
    ensures var m := DoSend(n, c, msg); var items := Routes(n.chans[c].sid, c, Send(n.chans[c].view, Held(|n.chans[c].sent|, msg)).1);
      forall i :: 0 <= i < |items| ==> ItemOk(m, items[i])
  {
    var m := DoSend(n, c, msg);
    var ch := n.chans[c];
    assert m.chans[c].sid == ch.sid && m.chans[c].sent == ch.sent + [msg];
    RoutesOk(m, c, Send(ch.view, Held(|ch.sent|, msg)).1);
  }

  lemma SendKeepsOrder(n: Net, c: nat, msg: Msg)
    requires Ordered(n) && c in n.chans && !n.chans[c].view.closed
    ensures Ordered(DoSend(n, c, msg))
  {
    var m := DoSend(n, c, msg);
    var ch := n.chans[c];
    var items := Routes(ch.sid, c, Send(ch.view, Held(|ch.sent|, msg)).1);
    SendShape(n, c, msg);
    assert ChanOk(n, c);
    forall d | d in n.chans
      ensures ChanOk(m, d)
      ensures m.chans[d].sid == n.chans[d].sid && n.chans[d].sent <= m.chans[d].sent
      ensures Ahead(m, d) == Ahead(n, d) || Ahead(m, d) == Ahead(n, d) + [|n.chans[d].sent|]
    {
      assert ChanOk(n, d);
      SendAhead(n, c, msg, d);
      SendKeepsChan(n, c, msg, d);
    }
    SentItemsOk(n, c, msg);
    BrowserMoveKeepsOrder(n, m, items);
  }

  lemma OpenAhead(n: Net, c: nat, d: nat)
    requires n.acks != [] && n.isOpen && n.acks[0] in n.attachments && n.attachments[n.acks[0]] == c
    requires c in n.chans && d in n.chans
    ensures Ahead(DoAck(n), d) == Ahead(n, d)
  {
    var ch := n.chans[c];
    var out := Open(ch.view).1;
    WireIdxAppend(n.wire, Routes(ch.sid, c, out), d);
    RoutesIdx(ch.sid, c, out, d);
  }

  lemma AckKeepsChan(n: Net, c: nat, d: nat)
    requires Ordered(n) && n.acks != [] && n.acks[0] in n.attachments && n.attachments[n.acks[0]] == c && d in n.chans
    ensures var m := DoAck(n); d in m.chans && ChanOk(m, d) && Ahead(m, d) == Ahead(n, d)
    ensures var m := DoAck(n); m.chans[d].sid == n.chans[d].sid && m.chans[d].sent == n.chans[d].sent
  {
    assert ChanOk(n, c) && ChanOk(n, d);
    OpenAhead(n, c, d);
    if d != c {
      ChanStays(n, DoAck(n), d);
    }
  }

  lemma AckShape(n: Net, c: nat)
    requires Ordered(n) && n.acks != [] && n.acks[0] in n.attachments && n.attachments[n.acks[0]] == c
    ensures var m := DoAck(n);
      && m.vcs == n.vcs && m.wire == n.wire + Routes(n.chans[c].sid, c, Open(n.chans[c].view).1)
      && m.chans.Keys == n.chans.Keys && m.attachments == n.attachments && m.isOpen == n.isOpen
  {
  }

  lemma AckKeepsOrder(n: Net)
    requires Ordered(n) && n.acks != [] && n.acks[0] in n.attachments
    ensures Ordered(DoAck(n))
  {
    var m := DoAck(n);
    var c := n.attachments[n.acks[0]];
    var out := Open(n.chans[c].view).1;
    AckShape(n, c);
    assert ChanOk(n, c);
    forall d | d in n.chans
      ensures ChanOk(m, d) && Ahead(m, d) == Ahead(n, d)
      ensures m.chans[d].sid == n.chans[d].sid && m.chans[d].sent == n.chans[d].sent
    {
      AckKeepsChan(n, c, d);
    }
    RoutesOk(m, c, out);
    BrowserMoveKeepsOrder(n, m, Routes(n.chans[c].sid, c, out));
  }

  lemma StrayAckKeepsOrder(n: Net)
    requires Ordered(n) && n.acks != [] && n.acks[0] !in n.attachments
    ensures Ordered(DoAck(n))
  {
    var m := DoAck(n);
    assert m.wire == n.wire + [];
    forall d | d in n.chans ensures ChanOk(m, d) && Ahead(m, d) == Ahead(n, d) {
      assert ChanOk(n, d);
      assert Ahead(m, d) == Ahead(n, d);
      ChanStays(n, m, d);
    }
    BrowserMoveKeepsOrder(n, m, []);
  }

  lemma BrowserKeepsOrder(n: Net, e: Event)
    requires Ordered(n) && AtBrowser(e)
    ensures Ordered(Step(n, e))
  {
    if Enabled(n, e) {
      match e
      case AppAttach(sid) =>
        if sid in n.attachments {
          ReattachKeepsOrder(n, sid);
        } else {
          AttachKeepsOrder(n, sid);
        }
      case AppSend(c, msg) =>
        if !n.chans[c].view.closed {
          SendKeepsOrder(n, c, msg);
        }
      case AppClose(c) =>
        if !n.chans[c].view.closed {
          CloseKeepsOrder(n, c);
        }
      case AckArrives =>
        if n.acks[0] in n.attachments {
          AckKeepsOrder(n);
        } else {
          StrayAckKeepsOrder(n);
        }
    }
  }

  // --- the server's steps keep the order -------------------------------------------------

  lemma IncreasingWithout(a: seq<nat>, k: nat, b: seq<nat>)
    requires Increasing(a + [k] + b)
    ensures Increasing(a + b)
  {
    forall i, j | 0 <= i < j < |a + b| ensures (a + b)[i] < (a + b)[j] {
      var i', j' := if i < |a| then i else i + 1, if j < |a| then j else j + 1;
      assert (a + [k] + b)[i'] < (a + [k] + b)[j'];
    }
  }

  /** What the router reads out of an item is what its channel sent. */
  lemma ItemDecodes(n: Net, x: Item)
    requires ItemOk(n, x) && ProperId(n.chans[x.cid].sid) && DecodeRouted(x.bytes).Ok?
    ensures var f := DecodeRouted(x.bytes).value;
      && f.sid == n.chans[x.cid].sid && !IsConnLevel(f)
      && (x.idx.None? ==> f.kind in {ATTACH, DETACH})
      && (x.idx.Some? ==>
            && x.idx.value < |n.chans[x.cid].sent|
            && SessionFrame(f) == [n.chans[x.cid].sent[x.idx.value].kind] + n.chans[x.cid].sent[x.idx.value].payload)
  {
    var ch := n.chans[x.cid];
    if x.idx.Some? {
      LayoutDecodes(ch.sid, ch.sent[x.idx.value].kind, ch.sent[x.idx.value].payload);
    } else {
      var k :| k in {ATTACH, DETACH} && x.bytes == Layout(ch.sid, k, []);
      LayoutDecodes(ch.sid, k, []);
    }
  }

  /** Consuming the head of the wire takes at most one frame off the way of one channel. */
  lemma HeadConsumed(n: Net, m: Net, c: nat)
    requires n.wire != [] && m.wire == n.wire[1..] && m.chans == n.chans && c in n.chans
    ensures Ahead(n, c) ==
      (if n.wire[0].cid == c && n.wire[0].idx.Some? then [n.wire[0].idx.value] else []) + Ahead(m, c)
  {
  }

  lemma ConsumeKeepsChan(n: Net, m: Net, c: nat)
    requires n.wire != [] && m.wire == n.wire[1..] && m.chans == n.chans && c in n.chans
    requires m.nextChan == n.nextChan && m.attachments == n.attachments
    requires ChanOk(n, c)
    ensures ChanOk(m, c)
  {
    HeadConsumed(n, m, c);
    var a := Ahead(n, c);
    if a != Ahead(m, c) {
      assert Ahead(m, c) == a[1..];
    }
  }

  lemma ConsumeKeepsConn(n: Net, m: Net, v: nat)
    requires n.wire != [] && m.wire == n.wire[1..] && m.chans == n.chans
    requires v in n.vcs && ConnOk(n, v) && v in m.vcs
    requires m.vcs[v].accepted == n.vcs[v].accepted && m.vcs[v].sid == n.vcs[v].sid && m.vcs[v].cid == n.vcs[v].cid
    ensures ConnOk(m, v)
  {
    var c := n.vcs[v].cid;
    HeadConsumed(n, m, c);
    if Ahead(n, c) != Ahead(m, c) {
      assert TagIdx(n.vcs[v].accepted) + Ahead(n, c)
          == TagIdx(n.vcs[v].accepted) + [n.wire[0].idx.value] + Ahead(m, c);
      IncreasingWithout(TagIdx(n.vcs[v].accepted), n.wire[0].idx.value, Ahead(m, c));
    }
  }

  lemma AcceptKeepsConn(n: Net, m: Net, v: nat)
    requires n.wire != [] && m.wire == n.wire[1..] && m.chans == n.chans
    requires v in n.vcs && ConnOk(n, v) && v in m.vcs && ItemOk(n, n.wire[0])
    requires n.wire[0].idx.Some? && n.wire[0].cid == n.vcs[v].cid
    requires m.vcs[v].sid == n.vcs[v].sid && m.vcs[v].cid == n.vcs[v].cid
    requires var msg := n.chans[n.vcs[v].cid].sent[n.wire[0].idx.value];
      m.vcs[v].accepted == n.vcs[v].accepted + [Tagged(n.wire[0].cid, n.wire[0].idx.value, [msg.kind] + msg.payload)]
    ensures ConnOk(m, v)
  {
    var k := n.wire[0].idx.value;
    HeadConsumed(n, m, n.vcs[v].cid);
    assert TagIdx(m.vcs[v].accepted) == TagIdx(n.vcs[v].accepted) + [k];
    assert TagIdx(m.vcs[v].accepted) + Ahead(m, n.vcs[v].cid)
        == TagIdx(n.vcs[v].accepted) + Ahead(n, n.vcs[v].cid);
  }

  /** A registered connection only ever hears the channel that attached it. */
  lemma HearsOwnChannel(n: Net)
    requires n.wire != [] && DecodeRouted(n.wire[0].bytes).Ok?
    requires var f := DecodeRouted(n.wire[0].bytes).value;
      Hears(n, f.sid) && f.kind != DETACH && f.sid in n.table && n.table[f.sid] in n.vcs
    ensures n.vcs[n.table[DecodeRouted(n.wire[0].bytes).value.sid]].cid == n.wire[0].cid
  {
    var sid := DecodeRouted(n.wire[0].bytes).value.sid;
    if Meet(Current(n, sid), sid, n.wire[0]).Broken? {
      BrokenStays(sid, n.wire[1..]);
    }
  }

  ghost predicate SameBrowser(n: Net, m: Net) {
    && m.wire == n.wire && m.chans == n.chans && m.attachments == n.attachments
    && m.nextChan == n.nextChan && m.isOpen == n.isOpen
  }

  lemma DispatchLeavesBrowser(m: Net, d: Result<Frame>, x: Item, found: bool)
    ensures SameBrowser(m, Dispatch(m, d, x, found))
  {
  }

  lemma FrameShape(n: Net, found: bool)
    requires n.wire != []
    ensures SameBrowser(n.(wire := n.wire[1..]), DoFrame(n, found))
  {
    DispatchLeavesBrowser(n.(wire := n.wire[1..]), DecodeRouted(n.wire[0].bytes), n.wire[0], found);
  }

  /** What one dispatched frame did to a connection that already existed. */
  ghost predicate GotFrame(m: Net, k: Net, d: Result<Frame>, x: Item, v: nat)
    requires v in m.vcs && v in k.vcs
  {
    && k.vcs[v].sid == m.vcs[v].sid && k.vcs[v].cid == m.vcs[v].cid
    && (k.vcs[v].accepted == m.vcs[v].accepted
        || (&& d.Ok? && !IsConnLevel(d.value) && d.value.kind !in {ATTACH, DETACH}
            && d.value.sid in m.table && m.table[d.value.sid] == v
            && k.vcs[v].accepted == m.vcs[v].accepted
                 + [Tagged(x.cid, if x.idx.Some? then x.idx.value else 0, SessionFrame(d.value))]))
  }

  lemma DispatchReceived(m: Net, d: Result<Frame>, x: Item, found: bool, v: nat)
    requires v in m.vcs && v < m.nextConn
    ensures v in Dispatch(m, d, x, found).vcs && GotFrame(m, Dispatch(m, d, x, found), d, x, v)
  {
    if d.Ok? && !IsConnLevel(d.value) {
      if d.value.kind == ATTACH {
        RegisterSpares(m, d.value.sid, x.cid, found, v);
      } else if d.value.kind == DETACH {
        DetachSpares(m, d.value.sid, v);
      } else {
        DeliverReceived(m, d.value, x, v);
      }
    }
  }

  predicate SameHistory(m: Net, k: Net, v: nat) {
    && v in m.vcs && v in k.vcs
    && k.vcs[v].sid == m.vcs[v].sid && k.vcs[v].cid == m.vcs[v].cid && k.vcs[v].accepted == m.vcs[v].accepted
  }

  lemma RegisterSpares(m: Net, sid: Bytes, cid: nat, found: bool, v: nat)
    requires v in m.vcs && v < m.nextConn
    ensures SameHistory(m, DoRegister(m, sid, cid, found), v)
  {
  }

  lemma DetachSpares(m: Net, sid: Bytes, v: nat)
    requires v in m.vcs
    ensures SameHistory(m, DoDetach(m, sid), v)
  {
  }

  lemma DeliverReceived(m: Net, f: Frame, x: Item, v: nat)
    requires v in m.vcs
    ensures var k := DoDeliver(m, f, x);
      || SameHistory(m, k, v)
      || (&& v in k.vcs && k.vcs[v].sid == m.vcs[v].sid && k.vcs[v].cid == m.vcs[v].cid
          && f.sid in m.table && m.table[f.sid] == v
          && k.vcs[v].accepted == m.vcs[v].accepted
               + [Tagged(x.cid, if x.idx.Some? then x.idx.value else 0, SessionFrame(f))])
  {
  }

  lemma DispatchCreates(m: Net, d: Result<Frame>, x: Item, found: bool, v: nat)
    requires v !in m.vcs && v in Dispatch(m, d, x, found).vcs
    ensures d.Ok?
    ensures var vc := Dispatch(m, d, x, found).vcs[v];
      vc.accepted == [] && vc.cid == x.cid && vc.sid == d.value.sid
  {
  }

  lemma ReceivedKeepsConn(n: Net, m: Net, v: nat)
    requires n.wire != [] && m.wire == n.wire[1..] && m.chans == n.chans
    requires v in n.vcs && v in m.vcs && ConnOk(n, v)
    requires GotFrame(n, m, DecodeRouted(n.wire[0].bytes), n.wire[0], v)
    requires ItemOk(n, n.wire[0]) && ProperId(n.chans[n.wire[0].cid].sid) && Routing(n)
    ensures ConnOk(m, v)
  {
    if m.vcs[v].accepted == n.vcs[v].accepted {
      ConsumeKeepsConn(n, m, v);
    } else {
      ItemDecodes(n, n.wire[0]);
      assert Hears(n, DecodeRouted(n.wire[0].bytes).value.sid);
      HearsOwnChannel(n);
      AcceptKeepsConn(n, m, v);
    }
  }

  lemma FrameKeepsConn(n: Net, found: bool, v: nat)
    requires Ordered(n) && Routing(n) && Registered(n) && n.wire != [] && v in DoFrame(n, found).vcs
    ensures ConnOk(DoFrame(n, found), v)
  {
    var x := n.wire[0];
    var n' := n.(wire := n.wire[1..]);
    FrameShape(n, found);
    assert ItemOk(n, x);
    assert ChanOk(n, x.cid);
    if v in n.vcs {
      assert ConnOk(n, v);
      DispatchReceived(n', DecodeRouted(x.bytes), x, found, v);
      ReceivedKeepsConn(n, DoFrame(n, found), v);
    } else {
      DispatchCreates(n', DecodeRouted(x.bytes), x, found, v);
      ItemDecodes(n, x);
      FirstConnOk(n, DoFrame(n, found), v);
    }
  }

  lemma FirstConnOk(n: Net, m: Net, v: nat)
    requires n.wire != [] && m.wire == n.wire[1..] && m.chans == n.chans && v in m.vcs
    requires m.nextChan == n.nextChan && m.attachments == n.attachments
    requires m.vcs[v].accepted == [] && m.vcs[v].cid in n.chans && ChanOk(n, m.vcs[v].cid)
    requires n.chans[m.vcs[v].cid].sid == m.vcs[v].sid
    ensures ConnOk(m, v)
  {
    ConsumeKeepsChan(n, m, m.vcs[v].cid);
    assert TagIdx([]) + Ahead(m, m.vcs[v].cid) == Ahead(m, m.vcs[v].cid);
  }

  lemma FrameKeepsOrder(n: Net, found: bool)
    requires Ordered(n) && Routing(n) && Registered(n) && n.wire != []
    ensures Ordered(DoFrame(n, found))
  {
    var m := DoFrame(n, found);
    FrameShape(n, found);
    forall v | v in m.vcs ensures ConnOk(m, v) {
      FrameKeepsConn(n, found, v);
    }
    forall c | c in m.chans ensures ChanOk(m, c) {
      assert ChanOk(n, c);
      ConsumeKeepsChan(n, m, c);
    }
    forall i | 0 <= i < |m.wire| ensures ItemOk(m, m.wire[i]) {
      ItemStays(n, m, n.wire[i + 1]);
    }
  }

  lemma ItemStays(n: Net, m: Net, x: Item)
    requires ItemOk(n, x) && m.chans == n.chans
    ensures ItemOk(m, x)
  {
  }

  ghost predicate SameQueues(n: Net, m: Net) {
    && m.vcs.Keys == n.vcs.Keys
    && forall v {:trigger m.vcs[v]} :: v in n.vcs ==>
         m.vcs[v].sid == n.vcs[v].sid && m.vcs[v].cid == n.vcs[v].cid && m.vcs[v].accepted == n.vcs[v].accepted
  }

  predicate TableShrinks(n: Net, m: Net) {
    forall s :: s in m.table ==> s in n.table && m.table[s] == n.table[s]
  }

  ghost predicate Quiet(n: Net, m: Net) {
    SameBrowser(n, m) && SameQueues(n, m) && TableShrinks(n, m)
  }

  lemma StartIsQuiet(n: Net, v: nat, ok: bool)
    requires v in n.vcs
    ensures Quiet(n, DoStart(n, v, ok))
  {
  }

  lemma RemoveIsQuiet(n: Net, v: nat)
    requires v in n.vcs
    ensures Quiet(n, DoRemove(n, v))
  {
  }

  lemma ReadIsQuiet(n: Net, v: nat)
    requires v in n.vcs
    ensures Quiet(n, DoRead(n, v))
  {
  }

  lemma TeardownIsQuiet(n: Net)
    ensures Quiet(n, DoTeardown(n))
  {
  }

  lemma OneConnIsQuiet(n: Net, v: nat, vc: VChan)
    requires v in n.vcs
    requires vc.sid == n.vcs[v].sid && vc.cid == n.vcs[v].cid && vc.accepted == n.vcs[v].accepted
    ensures Quiet(n, n.(vcs := n.vcs[v := vc]))
  {
  }

  lemma QuietShape(n: Net, e: Event)
    requires !AtBrowser(e) && !e.FrameArrives?
    ensures Quiet(n, Step(n, e))
  {
    if Enabled(n, e) {
      match e
      case AttachStarts(v, ok) => StartIsQuiet(n, v, ok);
      case AttachEnds(v) => OneConnIsQuiet(n, v, n.vcs[v].(ending := true));
      case MarkClosed(v) => OneConnIsQuiet(n, v, n.vcs[v].(pipe := n.vcs[v].pipe.(closed := true)));
      case RemoveFromTable(v) => RemoveIsQuiet(n, v);
      case BridgeReads(v) => ReadIsQuiet(n, v);
      case Teardown => TeardownIsQuiet(n);
    }
  }

  lemma ConnStays(n: Net, m: Net, v: nat)
    requires v in n.vcs && v in m.vcs && ConnOk(n, v) && m.chans == n.chans && m.wire == n.wire
    requires m.vcs[v].sid == n.vcs[v].sid && m.vcs[v].cid == n.vcs[v].cid && m.vcs[v].accepted == n.vcs[v].accepted
    ensures ConnOk(m, v)
  {
    assert Ahead(m, n.vcs[v].cid) == Ahead(n, n.vcs[v].cid);
  }

  lemma QuietStepKeepsOrder(n: Net, e: Event)
    requires Ordered(n) && !AtBrowser(e) && !e.FrameArrives?
    ensures Ordered(Step(n, e))
  {
    var m := Step(n, e);
    QuietShape(n, e);
    forall c | c in m.chans ensures ChanOk(m, c) {
      assert ChanOk(n, c);
      assert Ahead(m, c) == Ahead(n, c);
      ChanStays(n, m, c);
    }
    forall v | v in m.vcs ensures ConnOk(m, v) {
      assert ConnOk(n, v);
      ConnStays(n, m, v);
    }
    forall i | 0 <= i < |m.wire| ensures ItemOk(m, m.wire[i]) {
      ItemStays(n, m, n.wire[i]);
    }
  }

  lemma StepKeepsOrder(n: Net, e: Event)
    requires Ordered(n) && Routing(n) && Registered(n)
    ensures Ordered(Step(n, e))
  {
    if AtBrowser(e) {
      BrowserKeepsOrder(n, e);
    } else if e.FrameArrives? {
      if Enabled(n, e) {
        FrameKeepsOrder(n, e.found);
      }
    } else {
      QuietStepKeepsOrder(n, e);
    }
  }

  // --- routing ---------------------------------------------------------------------------

  /** Appending an item of the attached channel keeps the promise about the drained wire. */
  lemma AppendKeepsHearing(n: Net, m: Net, sid: Bytes, x: Item)
    requires Hears(n, sid) && m.wire == n.wire + [x] && Current(m, sid) == Current(n, sid)
    requires DecodeRouted(x.bytes).Ok? && DecodeRouted(x.bytes).value.sid == sid ==>
      var k := DecodeRouted(x.bytes).value.kind;
      && (k != DETACH ==> sid in m.attachments && m.attachments[sid] == x.cid)
      && (k != DETACH && sid in n.attachments ==> n.attachments[sid] == x.cid)
    requires sid in n.attachments && (sid !in m.attachments || m.attachments[sid] != n.attachments[sid]) ==>
      DecodeRouted(x.bytes).Ok? && DecodeRouted(x.bytes).value.sid == sid && DecodeRouted(x.bytes).value.kind == DETACH
    ensures Hears(m, sid)
  {
    ScanSnoc(Current(n, sid), sid, n.wire, x);
  }

  lemma {:induction false} AppendsKeepHearing(b: Belief, sid: Bytes, wire: seq<Item>, items: seq<Item>, c: nat)
    requires Scan(b, sid, wire).Maybe? && (Scan(b, sid, wire).cid.Some? ==> Scan(b, sid, wire).cid.value == c)
    requires forall i :: 0 <= i < |items| ==> items[i].cid == c
    ensures Scan(b, sid, wire + items).Maybe?
    ensures Scan(b, sid, wire + items).cid.Some? ==> Scan(b, sid, wire + items).cid.value == c
    decreases |items|
  {
    if items == [] {
      assert wire + items == wire;
    } else {
      AppendsKeepHearing(b, sid, wire, items[..|items| - 1], c);
      assert wire + items == (wire + items[..|items| - 1]) + [items[|items| - 1]];
      ScanSnoc(b, sid, wire + items[..|items| - 1], items[|items| - 1]);
    }
  }

  lemma {:induction false} OthersKeepHearing(b: Belief, sid: Bytes, wire: seq<Item>, items: seq<Item>)
    requires forall i :: 0 <= i < |items| && DecodeRouted(items[i].bytes).Ok? ==> DecodeRouted(items[i].bytes).value.sid != sid
    ensures Scan(b, sid, wire + items) == Scan(b, sid, wire)
    decreases |items|
  {
    if items == [] {
      assert wire + items == wire;
    } else {
      OthersKeepHearing(b, sid, wire, items[..|items| - 1]);
      assert wire + items == (wire + items[..|items| - 1]) + [items[|items| - 1]];
      ScanSnoc(b, sid, wire + items[..|items| - 1], items[|items| - 1]);
    }
  }

  lemma RoutesDecode(sid: Bytes, c: nat, hs: seq<Held>, i: nat)
    requires ProperId(sid) && i < |hs| && DecodeRouted(Routes(sid, c, hs)[i].bytes).Ok?
    ensures DecodeRouted(Routes(sid, c, hs)[i].bytes).value.sid == sid && Routes(sid, c, hs)[i].cid == c
  {
    LayoutDecodes(sid, hs[i].msg.kind, hs[i].msg.payload);
  }

  /** Data frames of the channel attached for their session disturb nobody. */
  lemma RoutesKeepHearing(n: Net, m: Net, c: nat, hs: seq<Held>, sid: Bytes)
    requires Hears(n, sid) && c in n.chans && ProperId(n.chans[c].sid)
    requires n.chans[c].sid in n.attachments && n.attachments[n.chans[c].sid] == c
    requires m.wire == n.wire + Routes(n.chans[c].sid, c, hs)
    requires m.attachments == n.attachments && Current(m, sid) == Current(n, sid)
    ensures Hears(m, sid)
  {
    var items := Routes(n.chans[c].sid, c, hs);
    if sid == n.chans[c].sid {
      AppendsKeepHearing(Current(n, sid), sid, n.wire, items, c);
    } else {
      forall i | 0 <= i < |items| && DecodeRouted(items[i].bytes).Ok? ensures DecodeRouted(items[i].bytes).value.sid != sid {
        RoutesDecode(n.chans[c].sid, c, hs, i);
      }
      OthersKeepHearing(Current(n, sid), sid, n.wire, items);
    }
  }

  lemma AttachKeepsHearing(n: Net, s: Bytes, sid: Bytes)
    requires Hears(n, sid) && n.isOpen && ProperId(s) && s !in n.attachments
    ensures Hears(DoAttach(n, s), sid)
  {
    LayoutDecodes(s, ATTACH, []);
    AppendKeepsHearing(n, DoAttach(n, s), sid, Control(s, n.nextChan, ATTACH));
  }

  lemma CloseKeepsHearing(n: Net, c: nat, sid: Bytes)
    requires Hears(n, sid) && c in n.chans && ChanOk(n, c) && !n.chans[c].view.closed && n.isOpen
    ensures Hears(DoClose(n, c), sid)
  {
    LayoutDecodes(n.chans[c].sid, DETACH, []);
    AppendKeepsHearing(n, DoClose(n, c), sid, Control(n.chans[c].sid, c, DETACH));
  }

  lemma SendKeepsHearing(n: Net, c: nat, msg: Msg, sid: Bytes)
    requires Hears(n, sid) && c in n.chans && ChanOk(n, c) && !n.chans[c].view.closed && n.isOpen
    ensures Hears(DoSend(n, c, msg), sid)
  {
    var ch := n.chans[c];
    RoutesKeepHearing(n, DoSend(n, c, msg), c, Send(ch.view, Held(|ch.sent|, msg)).1, sid);
  }

  lemma AckKeepsHearing(n: Net, c: nat, sid: Bytes)
    requires Hears(n, sid) && n.acks != [] && n.acks[0] in n.attachments && n.attachments[n.acks[0]] == c
    requires c in n.chans && ProperId(n.chans[c].sid) && n.chans[c].sid == n.acks[0] && n.isOpen
    ensures Hears(DoAck(n), sid)
  {
    RoutesKeepHearing(n, DoAck(n), c, Open(n.chans[c].view).1, sid);
  }

  lemma BrowserKeepsHearing(n: Net, e: Event, sid: Bytes)
    requires Ordered(n) && Hears(n, sid) && AtBrowser(e) && Enabled(n, e)
    ensures Hears(Step(n, e), sid)
  {
    match e
    case AppAttach(s) =>
      if s !in n.attachments {
        AttachKeepsHearing(n, s, sid);
      }
    case AppSend(c, msg) =>
      assert ChanOk(n, c);
      if !n.chans[c].view.closed {
        SendKeepsHearing(n, c, msg, sid);
      }
    case AppClose(c) =>
      assert ChanOk(n, c);
      if !n.chans[c].view.closed {
        CloseKeepsHearing(n, c, sid);
      }
    case AckArrives =>
      if n.acks[0] in n.attachments {
        var c := n.attachments[n.acks[0]];
        assert ChanOk(n, c);
        AckKeepsHearing(n, c, sid);
      }
  }

  lemma ForgettingKeepsHearing(n: Net, m: Net, sid: Bytes)
    requires Hears(n, sid) && m.wire == n.wire && m.attachments == n.attachments
    requires LessCommitted(Current(m, sid), Current(n, sid))
    ensures Hears(m, sid)
  {
    ScanWeakens(Current(m, sid), Current(n, sid), sid, n.wire);
  }

  /** The table after a dispatch commits to no more than the frame allows. */
  lemma DispatchCommits(m: Net, x: Item, found: bool, sid: Bytes)
    requires sid != [] && Registered(m) && Meet(Current(m, sid), sid, x).Maybe?
    ensures LessCommitted(Current(Dispatch(m, DecodeRouted(x.bytes), x, found), sid), Meet(Current(m, sid), sid, x))
  {
    var d := DecodeRouted(x.bytes);
    if d.Ok? && d.value.sid == sid {
      assert m.nextConn !in m.vcs;
    } else if d.Ok? && d.value.sid != [] {
      OthersStay(m, d.value, x, found, sid);
    }
  }

  lemma OthersStay(m: Net, f: Frame, x: Item, found: bool, sid: Bytes)
    requires f.sid != sid && Registered(m)
    ensures Current(Dispatch(m, Ok(f), x, found), sid) == Current(m, sid)
  {
    assert m.nextConn !in m.vcs;
  }

  lemma FrameKeepsHearing(n: Net, found: bool, sid: Bytes)
    requires Registered(n) && Hears(n, sid) && n.wire != [] && sid != []
    ensures Hears(DoFrame(n, found), sid)
  {
    var m := DoFrame(n, found);
    FrameShape(n, found);
    var n' := n.(wire := n.wire[1..]);
    assert Registered(n') && Current(n', sid) == Current(n, sid);
    var b := Meet(Current(n, sid), sid, n.wire[0]);
    if b.Broken? {
      BrokenStays(sid, n.wire[1..]);
    }
    DispatchCommits(n', n.wire[0], found, sid);
    ScanWeakens(Current(m, sid), b, sid, n.wire[1..]);
  }

  lemma QuietKeepsHearing(n: Net, e: Event, sid: Bytes)
    requires Registered(n) && Hears(n, sid) && !AtBrowser(e) && !e.FrameArrives?
    ensures Hears(Step(n, e), sid)
  {
    var m := Step(n, e);
    QuietShape(n, e);
    if sid in m.table {
      assert m.vcs[m.table[sid]].cid == n.vcs[n.table[sid]].cid;
    }
    ForgettingKeepsHearing(n, m, sid);
  }

  lemma StepKeepsRouting(n: Net, e: Event)
    requires Ordered(n) && Routing(n) && Registered(n)
    ensures Routing(Step(n, e))
  {
    forall sid: Bytes | sid != [] ensures Hears(Step(n, e), sid) {
      assert Hears(n, sid);
      if AtBrowser(e) {
        if Enabled(n, e) {
          BrowserKeepsHearing(n, e, sid);
        }
      } else if e.FrameArrives? {
        if Enabled(n, e) {
          FrameKeepsHearing(n, e.found, sid);
        }
      } else {
        QuietKeepsHearing(n, e, sid);
      }
    }
  }

  // --- theorems about every run ------------------------------------------------------------

  lemma {:induction false} ReachableNetsAreGood(es: seq<Event>)
    ensures var n := Exec(INIT, es); Registered(n) && Drained(n) && Ordered(n) && Routing(n)
    decreases |es|
  {
    if es == [] {
      forall sid: Bytes | sid != [] ensures Hears(INIT, sid) {
      }
    } else {
      var n, e := Exec(INIT, es[..|es| - 1]), es[|es| - 1];
      ReachableNetsAreGood(es[..|es| - 1]);
      StepKeepsRegistered(n, e);
      StepKeepsDrained(n, e);
      StepKeepsOrder(n, e);
      StepKeepsRouting(n, e);
    }
  }

  /** What the bridge of a connection reads is an in-order subsequence of what the one
      browser channel that attached it sent, byte for byte, and that channel is for the
      same session. */
  lemma BridgeReadsOwnChannelInOrder(es: seq<Event>, v: nat)
    requires v in Exec(INIT, es).vcs
    ensures var n := Exec(INIT, es); var vc := n.vcs[v];
      && vc.cid in n.chans && n.chans[vc.cid].sid == vc.sid
      && Increasing(TagIdx(vc.taken))
      && forall i :: 0 <= i < |vc.taken| ==>
           && vc.taken[i].cid == vc.cid && vc.taken[i].idx < |n.chans[vc.cid].sent|
           && vc.taken[i].frame == [n.chans[vc.cid].sent[vc.taken[i].idx].kind] + n.chans[vc.cid].sent[vc.taken[i].idx].payload
  {
    ReachableNetsAreGood(es);
    var n := Exec(INIT, es);
    var vc := n.vcs[v];
    assert ConnOk(n, v);
    TakenIsPrefix(n, v);
  }

  lemma TakenIsPrefix(n: Net, v: nat)
    requires v in n.vcs && ConnOk(n, v) && DrainedSoFar(n.vcs[v])
    ensures Increasing(TagIdx(n.vcs[v].taken))
    ensures forall i :: 0 <= i < |n.vcs[v].taken| ==> n.vcs[v].taken[i] == n.vcs[v].accepted[i]
  {
    var vc := n.vcs[v];
    var all := TagIdx(vc.accepted) + Ahead(n, vc.cid);
    forall i, j | 0 <= i < j < |vc.taken| ensures TagIdx(vc.taken)[i] < TagIdx(vc.taken)[j] {
      assert all[i] < all[j];
    }
  }

  /** Held frames are bounded, only held before the channel opens, and everything of a
      channel that is still on its way is in the order it was sent: the flushed buffer is
      ahead of every later send. */
  lemma HeldFramesGoFirst(es: seq<Event>, c: nat)
    requires c in Exec(INIT, es).chans
    ensures var n := Exec(INIT, es); var ch := n.chans[c];
      && |ch.view.pending| <= PENDING_LIMIT
      && (ch.view.isOpen ==> ch.view.pending == [])
      && Increasing(WireIdx(n.wire, c) + HeldIdx(ch.view.pending))
      && Below(WireIdx(n.wire, c) + HeldIdx(ch.view.pending), |ch.sent|)
  {
    ReachableNetsAreGood(es);
    assert ChanOk(Exec(INIT, es), c);
  }

  /** End of file is only seen after every queued frame has been read. */
  lemma DrainsBeforeEof(es: seq<Event>, v: nat)
    requires v in Exec(INIT, es).vcs
    ensures var vc := Exec(INIT, es).vcs[v];
      && vc.taken <= vc.accepted
      && (vc.eof ==> vc.pipe.closed && vc.taken == vc.accepted)
  {
    ReachableNetsAreGood(es);
    assert DrainedSoFar(Exec(INIT, es).vcs[v]);
  }

  lemma ClosedStays(n: Net, e: Event, v: nat)
    requires Registered(n) && v in n.vcs && n.vcs[v].pipe.closed
    ensures v in Step(n, e).vcs && Step(n, e).vcs[v].pipe.closed
    ensures Step(n, e).vcs[v].accepted == n.vcs[v].accepted
  {
    if AtBrowser(e) {
      BrowserLeavesServerAlone(n, e);
    } else if e.FrameArrives? {
      if Enabled(n, e) {
        ClosedStaysAtDispatch(n.(wire := n.wire[1..]), DecodeRouted(n.wire[0].bytes), n.wire[0], e.found, v);
      }
    } else if Enabled(n, e) {
      ClosedStaysQuietly(n, e, v);
    }
  }

  lemma ClosedStaysQuietly(n: Net, e: Event, v: nat)
    requires !AtBrowser(e) && !e.FrameArrives? && Enabled(n, e) && v in n.vcs && n.vcs[v].pipe.closed
    ensures v in Step(n, e).vcs && Step(n, e).vcs[v].pipe.closed
    ensures Step(n, e).vcs[v].accepted == n.vcs[v].accepted
  {
    match e
    case BridgeReads(w) => assert Step(n, e) == DoRead(n, w);
    case Teardown => assert Step(n, e) == DoTeardown(n);
    case _ =>
  }

  lemma ClosedStaysAtDispatch(m: Net, d: Result<Frame>, x: Item, found: bool, v: nat)
    requires v in m.vcs && m.vcs[v].pipe.closed && v < m.nextConn
    ensures var k := Dispatch(m, d, x, found);
      v in k.vcs && k.vcs[v].pipe.closed && k.vcs[v].accepted == m.vcs[v].accepted
  {
    DispatchReceived(m, d, x, found, v);
    if d.Ok? && !IsConnLevel(d.value) && d.value.kind !in {ATTACH, DETACH} {
      assert Dispatch(m, d, x, found) == DoDeliver(m, d.value, x);
    }
  }

  /** A closed connection never queues another frame. */
  lemma {:induction false} ClosedAcceptsNothing(es: seq<Event>, more: seq<Event>, v: nat)
    requires v in Exec(INIT, es).vcs && Exec(INIT, es).vcs[v].pipe.closed
    ensures v in Exec(INIT, es + more).vcs && Exec(INIT, es + more).vcs[v].pipe.closed
    ensures Exec(INIT, es + more).vcs[v].accepted == Exec(INIT, es).vcs[v].accepted
    decreases |more|
  {
    if more == [] {
      assert es + more == es;
    } else {
      var m0 := more[..|more| - 1];
      assert (es + more)[..|es + more| - 1] == es + m0;
      ClosedAcceptsNothing(es, m0, v);
      ReachableNetsAreGood(es + m0);
      ClosedStays(Exec(INIT, es + m0), more[|more| - 1], v);
    }
  }

  /** Every key is its channel's session, and a channel stays registered until something of
      its own ends it. */
  lemma StaysRegistered(es: seq<Event>)
    ensures var n := Exec(INIT, es);
      && (forall s :: s in n.table ==> n.table[s] in n.vcs && n.vcs[n.table[s]].sid == s)
      && (forall v :: v in n.vcs && !n.vcs[v].ending ==> n.vcs[v].sid in n.table && n.table[n.vcs[v].sid] == v)
  {
    ReachableNetsAreGood(es);
  }

  /** In every run, the only things that end a channel are its own Detach frame, its own attach,
      or the connection's teardown. Cleanup of another channel is not among them. */
  lemma OnlyOwnEventsEndAChannel(es: seq<Event>, e: Event, v: nat)
    requires v in Exec(INIT, es).vcs && !Exec(INIT, es).vcs[v].ending
    requires v in Exec(INIT, es + [e]).vcs && Exec(INIT, es + [e]).vcs[v].ending
    ensures
      || e == AttachStarts(v, false) || e == AttachEnds(v) || e == Teardown
      || (e.FrameArrives? && DetachNext(Exec(INIT, es), Exec(INIT, es).vcs[v].sid))
  {
    assert (es + [e])[..|es|] == es;
    ReachableNetsAreGood(es);
    EndedByOwnEvent(Exec(INIT, es), e, v);
  }

  /** The next frame on the wire is a Detach of session `sid`. */
  predicate DetachNext(n: Net, sid: Bytes) {
    && n.wire != [] && DecodeRouted(n.wire[0].bytes).Ok?
    && DecodeRouted(n.wire[0].bytes).value.kind == DETACH && DecodeRouted(n.wire[0].bytes).value.sid == sid
  }

  lemma EndedByOwnEvent(n: Net, e: Event, v: nat)
    requires Registered(n) && v in n.vcs && !n.vcs[v].ending && v in Step(n, e).vcs && Step(n, e).vcs[v].ending
    ensures
      || e == AttachStarts(v, false) || e == AttachEnds(v) || e == Teardown
      || (e.FrameArrives? && DetachNext(n, n.vcs[v].sid))
  {
    if AtBrowser(e) {
      BrowserLeavesServerAlone(n, e);
    } else if e.FrameArrives? && Enabled(n, e) {
      DetachEndsOwn(n.(wire := n.wire[1..]), DecodeRouted(n.wire[0].bytes), n.wire[0], e.found, v);
    }
  }

  lemma DetachEndsOwn(m: Net, d: Result<Frame>, x: Item, found: bool, v: nat)
    requires Registered(m) && v in m.vcs && !m.vcs[v].ending
    requires v in Dispatch(m, d, x, found).vcs && Dispatch(m, d, x, found).vcs[v].ending
    ensures d.Ok? && d.value.kind == DETACH && d.value.sid == m.vcs[v].sid
  {
    if d.Ok? && d.value.kind == DETACH {
      assert d.value.sid in m.table ==> m.vcs[m.table[d.value.sid]].sid == d.value.sid;
    }
  }

  /** In every run a session has at most one connection that nothing has ended. */
  lemma OneLiveConnection(es: seq<Event>, v: nat, w: nat)
    requires var n := Exec(INIT, es);
      v in n.vcs && w in n.vcs && n.vcs[v].sid == n.vcs[w].sid && !n.vcs[v].ending && !n.vcs[w].ending
    ensures v == w
  {
    ReachableNetsAreGood(es);
  }

  lemma ExecSnoc(n: Net, es: seq<Event>, e: Event)
    ensures Exec(n, es + [e]) == Step(Exec(n, es), e)
  {
    assert (es + [e])[..|es|] == es;
  }

  /** In every run, the late cleanup of another connection leaves a live one registered, and so does a
      repeated Attach, which also makes no second connection. */
  lemma LiveConnectionStays(es: seq<Event>, w: nat, e: Event)
    requires w in Exec(INIT, es).vcs && !Exec(INIT, es).vcs[w].ending
    requires (e.RemoveFromTable? && e.vid != w) || (e.FrameArrives? && AttachNext(Exec(INIT, es), Exec(INIT, es).vcs[w].sid))
    ensures var n, m := Exec(INIT, es), Exec(INIT, es + [e]);
      && n.vcs[w].sid in m.table && m.table[n.vcs[w].sid] == w && m.vcs == n.vcs
      && (e.FrameArrives? ==> m.table == n.table)
  {
    ReachableNetsAreGood(es);
    ExecSnoc(INIT, es, e);
    var n := Exec(INIT, es);
    assert ConnOk(n, w) && ChanOk(n, n.vcs[w].cid);
    if Enabled(n, e) {
      if e.RemoveFromTable? {
        assert Step(n, e) == DoRemove(n, e.vid);
      } else {
        var k := n.(wire := n.wire[1..]);
        assert Step(n, e) == DoRegister(k, n.vcs[w].sid, n.wire[0].cid, e.found);
      }
    }
  }

  /** The next frame on the wire is an Attach of session `sid`. */
  predicate AttachNext(n: Net, sid: Bytes) {
    && n.wire != [] && DecodeRouted(n.wire[0].bytes).Ok?
    && DecodeRouted(n.wire[0].bytes).value.kind == ATTACH && DecodeRouted(n.wire[0].bytes).value.sid == sid
  }
}
