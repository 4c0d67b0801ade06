/**
 All interleavings of attaches, destroys and the output pump on one session.

 A goroutine is a record of where it is between two locked sections; an event is one such
 section (or one unlocked effect between two of them). `Step` ignores an event whose
 goroutine is not at that point, so `Exec` is defined on every sequence of events and
 every interleaving of the code is one of them.
 */
module SessionRuns {
  import opened Bytes
  import opened Session

  /** A piece of terminal output together with its offset in the whole output. */
  datatype Chunk = Chunk(start: nat, data: Bytes)

  /** How a connection left the slot. */
  datatype Cause = OwnFinish | TakenOver(newer: Conn) | ByDestroy

  datatype Leave = Leave(cause: Cause, at: nat)

  /** The status byte of the SessionEvent frame a closed virtual connection sends. */
  datatype Notice = NoticePreempted | NoticeDestroyed

  datatype Outcome = BridgeResult | ErrPreempted

  /** What bridge captured: the boundary, the bytes, and how many chunks had been offered. */
  datatype Snapshot = Snapshot(at: nat, bytes: Bytes, before: nat)

  datatype Attach = Attach(
    epoch: nat,
    installedAt: nat,
    evicts: Option<Conn>,        // the connection this attach found in the slot
    closedOld: bool,             // it is past closing that connection
    snap: Option<Snapshot>,
    outcome: Option<Outcome>,
    left: Option<Leave>,
    offered: seq<Chunk>,         // chunks the pump captured for it
    written: seq<Chunk>,         // those whose Write returned without error
    writeFailed: bool,
    closes: nat,                 // how often an evictor closed it
    notice: Option<Notice>)

  /** The pump holds outMu in `Appended`, and no lock in the other two. */
  datatype Pump = Reading | Appended(chunk: Chunk) | Captured(chunk: Chunk, to: Option<Conn>)

  /** The one destroyer that found the session alive. */
  datatype Destroyer = Absent | Owes(evicted: Option<Conn>) | Paid(evicted: Option<Conn>)

  datatype System = System(
    core: Core,
    stream: Bytes,
    attaches: map<Conn, Attach>,
    pump: Pump,
    destroyer: Destroyer)

  datatype Event =
    | Install(conn: Conn)
    | CloseOld(conn: Conn)
    | Snap(conn: Conn)
    | Finish(conn: Conn)
    | Destroy
    | DestroyClose
    | Append(data: Bytes)
    | Capture
    | Deliver(ok: bool)

  const INIT: System := System(FRESH, [], map[], Reading, Absent)

  /** Output whose receiver has been decided: everything except a chunk still inside outMu. */
  function Decided(s: System): nat {
    if s.pump.Appended? then s.pump.chunk.start else s.core.total
  }

  predicate Enabled(s: System, e: Event) {
    match e
    case Install(c) => c !in s.attaches && s.core.status != Destroyed
    case CloseOld(c) => c in s.attaches && !s.attaches[c].closedOld
    case Snap(c) =>
      c in s.attaches && s.attaches[c].closedOld && s.attaches[c].snap.None? && !s.pump.Appended?
    case Finish(c) => c in s.attaches && s.attaches[c].snap.Some? && s.attaches[c].outcome.None?
    case Destroy => s.core.status != Destroyed
    case DestroyClose => s.destroyer.Owes?
    case Append(data) => s.pump == Reading && 0 < |data| <= READ_BUFFER
    case Capture => s.pump.Appended?
    case Deliver(_) => s.pump.Captured?
  }

  function Evict(attaches: map<Conn, Attach>, c: Option<Conn>, why: Leave): map<Conn, Attach> {
    if c.Some? && c.value in attaches
    then attaches[c.value := attaches[c.value].(left := Some(why))]
    else attaches
  }

  /** virtualConn.Close: read the session state, then tell the client. */
  function Close(s: System, c: Option<Conn>): map<Conn, Attach> {
    if c.Some? && c.value in s.attaches
    then
      var n := if s.core.status == Destroyed then NoticeDestroyed else NoticePreempted;
      var a := s.attaches[c.value];
      s.attaches[c.value := a.(closes := a.closes + 1, notice := Some(n))]
    else s.attaches
  }

  function Step(s: System, e: Event): System {
    if !Enabled(s, e) then s else
    match e
    case Install(c) =>
      var core := InstallCore(s.core, c);
      var rest := Evict(s.attaches, s.core.conn, Leave(TakenOver(c), Decided(s)));
      s.(core := core,
         attaches := rest[c := Attach(core.epoch, Decided(s), s.core.conn, false, None, None,
                                      None, [], [], false, 0, None)])
    case CloseOld(c) =>
      var closed := Close(s, s.attaches[c].evicts);
      s.(attaches := if c in closed then closed[c := closed[c].(closedOld := true)] else closed)
    case Snap(c) =>
      var a := s.attaches[c];
      s.(core := SnapshotCore(s.core),
         attaches := s.attaches[c := a.(snap := Some(Snapshot(s.core.total, s.core.ring, |a.offered|)))])
    case Finish(c) =>
      var a := s.attaches[c];
      var core := FinishCore(s.core, c, a.epoch);
      var out := if FinishPreempted(s.core, a.epoch) then ErrPreempted else BridgeResult;
      var left := if s.core.conn == Some(c) && core.conn.None?
                  then Some(Leave(OwnFinish, Decided(s))) else a.left;
      s.(core := core, attaches := s.attaches[c := a.(outcome := Some(out), left := left)])
    case Destroy =>
      s.(core := DestroyCore(s.core),
         attaches := Evict(s.attaches, s.core.conn, Leave(ByDestroy, Decided(s))),
         destroyer := Owes(s.core.conn))
    case DestroyClose =>
      s.(attaches := Close(s, s.destroyer.evicted), destroyer := Paid(s.destroyer.evicted))
    case Append(data) =>
      s.(core := AppendCore(s.core, data), stream := s.stream + data,
         pump := Appended(Chunk(s.core.total, data)))
    case Capture =>
      var to := CaptureTarget(s.core, s.pump.chunk.start);
      s.(pump := Captured(s.pump.chunk, to),
         attaches := if to.Some? && to.value in s.attaches
                     then s.attaches[to.value := s.attaches[to.value].(offered := s.attaches[to.value].offered + [s.pump.chunk])]
                     else s.attaches)
    case Deliver(ok) =>
      var to := s.pump.to;
      s.(pump := Reading,
         attaches := if to.None? || to.value !in s.attaches then s.attaches
                     else
                       var a := s.attaches[to.value];
                       s.attaches[to.value := if ok then a.(written := a.written + [s.pump.chunk])
                                              else a.(writeFailed := true)])
  }

  function Exec(s: System, es: seq<Event>): System {
    if es == [] then s else Step(Exec(s, es[..|es| - 1]), es[|es| - 1])
  }

  // --- slot ownership ------------------------------------------------------------

  /** `c` is an attach that is still running and whose token is the session's. */
  predicate Owner(s: System, c: Conn) {
    c in s.attaches && s.attaches[c].outcome.None? && s.attaches[c].epoch == s.core.epoch
  }

  ghost predicate Ownership(s: System) {
    && (s.core.conn.Some? <==> s.core.status == Running)
    && (forall c: Conn :: s.core.conn == Some(c) <==> Owner(s, c))
    && (forall c :: c in s.attaches ==> 0 < s.attaches[c].epoch <= s.core.epoch)
    && (forall c, d :: c in s.attaches && d in s.attaches && s.attaches[c].epoch == s.attaches[d].epoch ==> c == d)
    && (forall c :: c in s.attaches ==> (s.attaches[c].left.None? <==> s.core.conn == Some(c)))
    && (s.core.status != Destroyed && s.core.epoch > 0 ==>
          exists c :: c in s.attaches && s.attaches[c].epoch == s.core.epoch)
    && (s.core.status == Destroyed ==> forall c :: c in s.attaches ==> s.attaches[c].epoch < s.core.epoch)
  }

  /** The two states agree on everything slot ownership talks about. */
  ghost predicate SameSlot(s: System, t: System) {
    && t.core.status == s.core.status && t.core.conn == s.core.conn && t.core.epoch == s.core.epoch
    && t.attaches.Keys == s.attaches.Keys
    && forall c :: c in s.attaches ==>
         && t.attaches[c].epoch == s.attaches[c].epoch
         && t.attaches[c].outcome == s.attaches[c].outcome
         && t.attaches[c].left == s.attaches[c].left
  }

  lemma SameSlotKeepsOwnership(s: System, t: System)
    requires Ownership(s) && SameSlot(s, t)
    ensures Ownership(t)
  {
    forall c: Conn ensures t.core.conn == Some(c) <==> Owner(t, c) {
      assert Owner(t, c) == Owner(s, c);
    }
    if t.core.status != Destroyed && t.core.epoch > 0 {
      var c :| c in s.attaches && s.attaches[c].epoch == s.core.epoch;
      assert c in t.attaches && t.attaches[c].epoch == t.core.epoch;
    }
  }

  predicate MovesSlot(e: Event) {
    e.Install? || e.Finish? || e.Destroy?
  }

  lemma OtherStepsKeepSlot(s: System, e: Event)
    requires !MovesSlot(e)
    ensures SameSlot(s, Step(s, e))
  {
  }

  /** `t` is `s` after attach `c` took the slot from whoever held it. */
  ghost predicate Took(s: System, t: System, c: Conn) {
    && t.core.status == Running && t.core.conn == Some(c) && t.core.epoch == s.core.epoch + 1
    && t.attaches.Keys == s.attaches.Keys + {c}
    && t.attaches[c].epoch == t.core.epoch && t.attaches[c].outcome.None? && t.attaches[c].left.None?
    && forall d :: d in s.attaches ==> t.attaches[d].epoch == s.attaches[d].epoch && t.attaches[d].left.Some?
  }

  lemma TookKeepsOwnership(s: System, t: System, c: Conn)
    requires Ownership(s) && c !in s.attaches && Took(s, t, c)
    ensures Ownership(t)
  {
    forall d: Conn ensures t.core.conn == Some(d) <==> Owner(t, d) {
      assert d in s.attaches ==> t.attaches[d].epoch < t.core.epoch;
    }
  }

  lemma InstallKeepsOwnership(s: System, c: Conn)
    requires Ownership(s) && Enabled(s, Install(c))
    ensures Ownership(Step(s, Install(c)))
  {
    assert Took(s, Step(s, Install(c)), c);
    TookKeepsOwnership(s, Step(s, Install(c)), c);
  }

  /** `t` is `s` after attach `c` returned, and left the slot if it still held it. */
  ghost predicate Returned(s: System, t: System, c: Conn) {
    && t.core.epoch == s.core.epoch && t.attaches.Keys == s.attaches.Keys && c in s.attaches
    && t.core.conn == (if s.core.conn == Some(c) then None else s.core.conn)
    && t.core.status == (if s.core.conn == Some(c) then Idle else s.core.status)
    && t.attaches[c].outcome.Some? && t.attaches[c].epoch == s.attaches[c].epoch && t.attaches[c].left.Some?
    && forall d :: d in s.attaches && d != c ==> t.attaches[d] == s.attaches[d]
  }

  lemma ReturnedKeepsOwnership(s: System, t: System, c: Conn)
    requires Ownership(s) && Returned(s, t, c)
    ensures Ownership(t)
  {
    assert forall d :: d in s.attaches ==> t.attaches[d].epoch == s.attaches[d].epoch;
    forall d: Conn ensures t.core.conn == Some(d) <==> Owner(t, d) {
      assert Owner(s, d) <==> s.core.conn == Some(d);
      assert Owner(s, c) <==> s.core.conn == Some(c);
    }
    if s.core.status != Destroyed && s.core.epoch > 0 {
      var d :| d in s.attaches && s.attaches[d].epoch == s.core.epoch;
      assert d in t.attaches && t.attaches[d].epoch == t.core.epoch;
    }
  }

  lemma FinishKeepsOwnership(s: System, c: Conn)
    requires Ownership(s) && Enabled(s, Finish(c))
    ensures Ownership(Step(s, Finish(c)))
  {
    assert Owner(s, c) <==> s.core.conn == Some(c);
    assert Returned(s, Step(s, Finish(c)), c);
    ReturnedKeepsOwnership(s, Step(s, Finish(c)), c);
  }

  lemma DestroyKeepsOwnership(s: System)
    requires Ownership(s) && Enabled(s, Destroy)
    ensures Ownership(Step(s, Destroy))
  {
    var t := Step(s, Destroy);
    assert t.attaches.Keys == s.attaches.Keys;
    assert forall d :: d in s.attaches ==> t.attaches[d].epoch == s.attaches[d].epoch;
  }

  lemma StepKeepsOwnership(s: System, e: Event)
    requires Ownership(s)
    ensures Ownership(Step(s, e))
  {
    if !MovesSlot(e) {
      OtherStepsKeepSlot(s, e);
      SameSlotKeepsOwnership(s, Step(s, e));
    } else if Enabled(s, e) {
      match e
      case Install(c) => InstallKeepsOwnership(s, c);
      case Finish(c) => FinishKeepsOwnership(s, c);
      case Destroy => DestroyKeepsOwnership(s);
    }
  }

  // --- eviction ------------------------------------------------------------------

  /** How many closes the evictor of `c` has performed so far. */
  function ClosesPerformed(s: System, c: Conn): nat
    requires c in s.attaches
  {
    match s.attaches[c].left
    case Some(Leave(TakenOver(d), _)) => if d in s.attaches && s.attaches[d].closedOld then 1 else 0
    case Some(Leave(ByDestroy, _)) => if s.destroyer.Paid? then 1 else 0
    case _ => 0
  }

  predicate Evictors(s: System, c: Conn)
    requires c in s.attaches
  {
    var a := s.attaches[c];
    && (a.left.Some? && a.left.value.cause.TakenOver? ==>
          var d := a.left.value.cause.newer;
          d in s.attaches && s.attaches[d].evicts == Some(c) && a.epoch < s.attaches[d].epoch)
    && (a.left.Some? && a.left.value.cause == ByDestroy ==>
          !s.destroyer.Absent? && s.destroyer.evicted == Some(c))
    && (a.evicts.Some? ==>
          var b := a.evicts.value;
          b in s.attaches && s.attaches[b].left.Some? && s.attaches[b].left.value.cause == TakenOver(c))
  }

  predicate Closed(s: System, c: Conn)
    requires c in s.attaches
  {
    var a := s.attaches[c];
    && a.closes == ClosesPerformed(s, c)
    && (a.notice.Some? <==> a.closes == 1)
    && (a.notice == Some(NoticePreempted) ==> a.left.Some? && a.left.value.cause.TakenOver?)
    && (a.notice == Some(NoticeDestroyed) ==> s.core.status == Destroyed)
    && (a.outcome == Some(ErrPreempted) ==> a.left.Some? && a.left.value.cause.TakenOver?)
    && (a.left.Some? && a.left.value.cause == OwnFinish ==> a.outcome == Some(BridgeResult))
  }

  ghost predicate Eviction(s: System) {
    && (s.destroyer.Absent? <==> s.core.status != Destroyed)
    && (!s.destroyer.Absent? && s.destroyer.evicted.Some? ==>
          var c := s.destroyer.evicted.value;
          c in s.attaches && s.attaches[c].left.Some? && s.attaches[c].left.value.cause == ByDestroy)
    && (forall c {:trigger Evictors(s, c)} :: c in s.attaches ==> Evictors(s, c))
    && (forall c {:trigger Closed(s, c)} :: c in s.attaches ==> Closed(s, c))
  }

  /** What the eviction argument needs to know about the slot. */
  ghost predicate HolderIsIn(s: System) {
    && (s.core.conn.Some? ==>
          var c := s.core.conn.value;
          c in s.attaches && s.attaches[c].left.None? && s.attaches[c].epoch == s.core.epoch)
    && (forall c {:trigger s.attaches[c]} :: c in s.attaches ==> s.attaches[c].epoch <= s.core.epoch)
    && (s.core.conn.Some? <==> s.core.status == Running)
  }

  lemma OwnershipGivesHolder(s: System)
    requires Ownership(s)
    ensures HolderIsIn(s)
  {
    assert s.core.conn.Some? ==> Owner(s, s.core.conn.value);
  }

  lemma InstallKeepsEviction(s: System, c: Conn)
    requires HolderIsIn(s) && Eviction(s) && Enabled(s, Install(c))
    ensures Eviction(Step(s, Install(c)))
  {
    var t := Step(s, Install(c));
    forall d | d in t.attaches ensures Evictors(t, d) && Closed(t, d) {
      if d != c {
        assert Evictors(s, d) && Closed(s, d);
      }
    }
  }

  /** Nobody evicts himself, and nobody is evicted by two. */
  lemma EvictionIsLinear(s: System, c: Conn, d: Conn)
    requires Eviction(s) && c in s.attaches && d in s.attaches
    ensures s.attaches[c].evicts != Some(c)
    ensures c != d && s.attaches[c].evicts.Some? ==> s.attaches[d].evicts != s.attaches[c].evicts
  {
    assert Evictors(s, c) && Evictors(s, d);
  }

  /** Closing changes nothing about who evicted whom. */
  ghost predicate SameEvictions(s: System, t: System) {
    && t.attaches.Keys == s.attaches.Keys && t.core == s.core && t.destroyer == s.destroyer
    && forall d :: d in s.attaches ==>
         && t.attaches[d].left == s.attaches[d].left && t.attaches[d].evicts == s.attaches[d].evicts
         && t.attaches[d].epoch == s.attaches[d].epoch && t.attaches[d].outcome == s.attaches[d].outcome
  }

  lemma CloseOldKeepsStanding(s: System, c: Conn)
    requires Enabled(s, CloseOld(c))
    ensures SameEvictions(s, Step(s, CloseOld(c)))
  {
  }

  /** The old connection gets its one close, and nobody else's count moves. */
  lemma CloseOldKeepsOne(s: System, c: Conn, d: Conn)
    requires Eviction(s) && Enabled(s, CloseOld(c)) && d in s.attaches
    ensures var t := Step(s, CloseOld(c)); d in t.attaches && Closed(t, d)
  {
    assert Evictors(s, c) && Closed(s, c) && Evictors(s, d) && Closed(s, d);
    EvictionIsLinear(s, c, d);
  }

  lemma CloseOldKeepsEviction(s: System, c: Conn)
    requires Eviction(s) && Enabled(s, CloseOld(c))
    ensures Eviction(Step(s, CloseOld(c)))
  {
    var t := Step(s, CloseOld(c));
    CloseOldKeepsStanding(s, c);
    forall d | d in t.attaches ensures Evictors(t, d) && Closed(t, d) {
      assert Evictors(s, d);
      CloseOldKeepsOne(s, c, d);
    }
  }

  /** What may finish: an attach that owns the slot, or one that was taken over or destroyed. */
  predicate MayFinish(s: System, c: Conn)
    requires c in s.attaches
  {
    && (s.attaches[c].left.None? <==> s.core.conn == Some(c))
    && (s.core.conn == Some(c) ==> s.core.status == Running && s.attaches[c].epoch == s.core.epoch)
    && (s.attaches[c].left.Some? && s.attaches[c].epoch != s.core.epoch && s.core.status != Destroyed ==>
          s.attaches[c].left.value.cause != OwnFinish)
  }

  lemma FinishKeepsOne(s: System, c: Conn, d: Conn)
    requires Eviction(s) && Enabled(s, Finish(c)) && MayFinish(s, c) && d in s.attaches
    ensures var t := Step(s, Finish(c)); d in t.attaches && Evictors(t, d) && Closed(t, d)
  {
    var t := Step(s, Finish(c));
    assert Evictors(s, c) && Closed(s, c) && Evictors(s, d) && Closed(s, d);
    assert d != c ==> t.attaches[d] == s.attaches[d];
    assert t.attaches[c].evicts == s.attaches[c].evicts && t.attaches[c].epoch == s.attaches[c].epoch
        && t.attaches[c].closedOld == s.attaches[c].closedOld;
  }

  lemma FinishKeepsEviction(s: System, c: Conn)
    requires Eviction(s) && Enabled(s, Finish(c)) && MayFinish(s, c)
    ensures Eviction(Step(s, Finish(c)))
  {
    var t := Step(s, Finish(c));
    assert t.attaches.Keys == s.attaches.Keys && t.destroyer == s.destroyer;
    forall d | d in t.attaches ensures Evictors(t, d) && Closed(t, d) {
      FinishKeepsOne(s, c, d);
    }
  }

  lemma DestroyKeepsEviction(s: System)
    requires HolderIsIn(s) && Eviction(s) && Enabled(s, Destroy)
    ensures Eviction(Step(s, Destroy))
  {
    var t := Step(s, Destroy);
    forall d | d in t.attaches ensures Evictors(t, d) && Closed(t, d) {
      assert Evictors(s, d) && Closed(s, d);
    }
  }

  lemma DestroyCloseKeepsEviction(s: System)
    requires Eviction(s) && Enabled(s, DestroyClose)
    ensures Eviction(Step(s, DestroyClose))
  {
    var t := Step(s, DestroyClose);
    forall d | d in t.attaches ensures Evictors(t, d) && Closed(t, d) {
      assert Evictors(s, d) && Closed(s, d);
    }
  }

  /** The two attach records agree on everything eviction talks about. */
  predicate SameStanding(a: Attach, b: Attach) {
    && a.epoch == b.epoch && a.evicts == b.evicts && a.closedOld == b.closedOld && a.outcome == b.outcome
    && a.left == b.left && a.closes == b.closes && a.notice == b.notice
  }

  ghost predicate SameStandings(s: System, t: System) {
    && t.core.status == s.core.status && t.destroyer == s.destroyer && t.attaches.Keys == s.attaches.Keys
    && forall c {:trigger t.attaches[c]} :: c in s.attaches ==> SameStanding(s.attaches[c], t.attaches[c])
  }

  lemma SameStandingsKeepEviction(s: System, t: System)
    requires Eviction(s) && SameStandings(s, t)
    ensures Eviction(t)
  {
    forall d | d in t.attaches ensures Evictors(t, d) && Closed(t, d) {
      assert Evictors(s, d) && Closed(s, d);
    }
  }

  lemma DataStepsKeepStandings(s: System, e: Event)
    requires e.Snap? || e.Append? || e.Capture? || e.Deliver?
    ensures SameStandings(s, Step(s, e))
  {
  }

  lemma StepKeepsEviction(s: System, e: Event)
    requires Ownership(s) && Eviction(s)
    ensures Eviction(Step(s, e))
  {
    OwnershipGivesHolder(s);
    if Enabled(s, e) {
      match e
      case Install(c) => InstallKeepsEviction(s, c);
      case CloseOld(c) => CloseOldKeepsEviction(s, c);
      case Finish(c) =>
        assert Owner(s, c) <==> s.core.conn == Some(c);
        assert Closed(s, c);
        FinishKeepsEviction(s, c);
      case Destroy => DestroyKeepsEviction(s);
      case DestroyClose => DestroyCloseKeepsEviction(s);
      case _ =>
        DataStepsKeepStandings(s, e);
        SameStandingsKeepEviction(s, Step(s, e));
    }
  }

  // --- the flow of output ----------------------------------------------------------

  /** `cs` are consecutive non-empty reads of `stream` that together make up stream[from..to]. */
  ghost predicate Chain(cs: seq<Chunk>, from: nat, to: nat, stream: Bytes) {
    if cs == [] then from == to <= |stream|
    else
      var z := cs[|cs| - 1];
      && 0 < |z.data| <= READ_BUFFER && z.start + |z.data| == to <= |stream|
      && stream[z.start..to] == z.data
      && Chain(cs[..|cs| - 1], from, z.start, stream)
  }

  lemma {:induction false} ChainGrows(cs: seq<Chunk>, from: nat, to: nat, stream: Bytes, more: Bytes)
    requires Chain(cs, from, to, stream)
    ensures Chain(cs, from, to, stream + more)
    decreases |cs|
  {
    if cs != [] {
      var z := cs[|cs| - 1];
      assert (stream + more)[z.start..to] == stream[z.start..to];
      ChainGrows(cs[..|cs| - 1], from, z.start, stream, more);
    }
  }

  lemma ChainSnoc(cs: seq<Chunk>, from: nat, z: Chunk, stream: Bytes)
    requires Chain(cs, from, z.start, stream) && 0 < |z.data| <= READ_BUFFER
    requires z.start + |z.data| <= |stream| && stream[z.start..z.start + |z.data|] == z.data
    ensures Chain(cs + [z], from, z.start + |z.data|, stream)
  {
    assert (cs + [z])[..|cs|] == cs;
  }

  /** A chain spells out its stretch of the stream, and no piece starts before it. */
  lemma {:induction false} ChainSpells(cs: seq<Chunk>, from: nat, to: nat, stream: Bytes)
    requires Chain(cs, from, to, stream)
    ensures from <= to && Concat(Datas(cs)) == stream[from..to]
    ensures forall i :: 0 <= i < |cs| ==> from <= cs[i].start < to && 0 < |cs[i].data| <= READ_BUFFER
    decreases |cs|
  {
    if cs != [] {
      var z := cs[|cs| - 1];
      ChainSpells(cs[..|cs| - 1], from, z.start, stream);
      assert Datas(cs)[..|cs| - 1] == Datas(cs[..|cs| - 1]);
      assert stream[from..z.start] + stream[z.start..to] == stream[from..to];
    }
  }

  function Datas(cs: seq<Chunk>): seq<Bytes> {
    seq(|cs|, i requires 0 <= i < |cs| => cs[i].data)
  }

  /** Where the attach's share of the output ends: where it left the slot, or now. */
  function End(s: System, c: Conn): nat
    requires c in s.attaches
  {
    if s.attaches[c].left.Some? then s.attaches[c].left.value.at else Decided(s)
  }

  ghost predicate Covered(s: System, c: Conn)
    requires c in s.attaches
  {
    var a := s.attaches[c];
    && End(s, c) <= Decided(s)
    && Chain(a.offered, a.installedAt, End(s, c), s.stream)
    && (a.snap.Some? ==>
          var q := a.snap.value;
          && q.at <= Decided(s) <= |s.stream|
          && q.bytes == Tail(s.stream[..q.at], RING_CAPACITY)
          && q.before <= |a.offered|
          && (if q.at <= End(s, c) then Splits(a.offered, a.installedAt, q, End(s, c), s.stream)
              else q.before == |a.offered|))
    && (!a.writeFailed ==>
          a.written + (if s.pump.Captured? && s.pump.to == Some(c) then [s.pump.chunk] else []) == a.offered)
  }

  ghost predicate PumpOk(s: System) {
    && s.core.total == |s.stream|
    && s.core.ring == Tail(s.stream, RING_CAPACITY)
    && s.core.replaySeq <= Decided(s)
    && (s.pump.Appended? ==>
          var k := s.pump.chunk;
          0 < |k.data| <= READ_BUFFER && k.start + |k.data| == s.core.total && s.stream[k.start..] == k.data)
    && (s.pump.Captured? && s.pump.to.Some? ==> s.pump.to.value in s.attaches)
  }

  ghost predicate Flow(s: System) {
    && PumpOk(s)
    && forall c {:trigger Covered(s, c)} :: c in s.attaches ==> Covered(s, c)
  }

  lemma AppendKeepsFlow(s: System, data: Bytes)
    requires Ownership(s) && Flow(s) && Enabled(s, Append(data))
    ensures Flow(Step(s, Append(data)))
  {
    var t := Step(s, Append(data));
    TailAppend(s.stream, data, RING_CAPACITY);
    assert t.stream[|s.stream|..] == data;
    forall c | c in t.attaches ensures Covered(t, c) {
      assert Covered(s, c);
      var a := s.attaches[c];
      ChainGrows(a.offered, a.installedAt, End(s, c), s.stream, data);
      if a.snap.Some? {
        var q := a.snap.value;
        assert t.stream[..q.at] == s.stream[..q.at];
        if q.at <= End(s, c) {
          ChainGrows(a.offered[..q.before], a.installedAt, q.at, s.stream, data);
          ChainGrows(a.offered[q.before..], q.at, End(s, c), s.stream, data);
        }
      }
    }
  }

  /** The snapshot `q` splits a share: what was offered before it, and what was offered since. */
  ghost predicate Splits(offered: seq<Chunk>, from: nat, q: Snapshot, to: nat, stream: Bytes) {
    && q.before <= |offered|
    && Chain(offered[..q.before], from, q.at, stream) && Chain(offered[q.before..], q.at, to, stream)
  }

  /** A share after chunk `k` was captured for it. */
  lemma ShareGrows(offered: seq<Chunk>, from: nat, k: Chunk, stream: Bytes)
    requires 0 < |k.data| <= READ_BUFFER && k.start + |k.data| <= |stream| && stream[k.start..k.start + |k.data|] == k.data
    requires Chain(offered, from, k.start, stream)
    ensures Chain(offered + [k], from, k.start + |k.data|, stream)
    ensures forall q :: Splits(offered, from, q, k.start, stream) ==> Splits(offered + [k], from, q, k.start + |k.data|, stream)
  {
    ChainSnoc(offered, from, k, stream);
    forall q | Splits(offered, from, q, k.start, stream)
      ensures Splits(offered + [k], from, q, k.start + |k.data|, stream)
    {
      SnocSlices(offered, k, q.before);
      ChainSnoc(offered[q.before..], q.at, k, stream);
    }
  }

  lemma CaptureCovers(s: System, c: Conn)
    requires PumpOk(s) && s.pump.Appended? && s.core.conn == Some(c)
    requires c in s.attaches && s.attaches[c].left.None? && Covered(s, c)
    ensures Covered(Step(s, Capture), c)
  {
    var k := s.pump.chunk;
    var a := s.attaches[c];
    assert s.stream[k.start..k.start + |k.data|] == k.data;
    ShareGrows(a.offered, a.installedAt, k, s.stream);
    var t := Step(s, Capture);
    assert t.attaches[c] == a.(offered := a.offered + [k]);
    assert t.stream == s.stream && t.pump == Captured(k, Some(c)) && End(t, c) == k.start + |k.data| && End(s, c) == k.start;
  }

  lemma CaptureKeepsFlow(s: System)
    requires HolderIsIn(s) && Flow(s) && Enabled(s, Capture)
    requires forall c {:trigger s.attaches[c]} :: c in s.attaches && s.core.conn != Some(c) ==> s.attaches[c].left.Some?
    ensures Flow(Step(s, Capture))
  {
    var t := Step(s, Capture);
    forall c | c in t.attaches ensures Covered(t, c) {
      assert Covered(s, c);
      if s.core.conn == Some(c) {
        CaptureCovers(s, c);
      } else {
        assert t.attaches[c] == s.attaches[c];
      }
    }
  }

  lemma SnapKeepsFlow(s: System, c: Conn)
    requires Ownership(s) && Flow(s) && Enabled(s, Snap(c))
    ensures Flow(Step(s, Snap(c)))
  {
    var t := Step(s, Snap(c));
    assert s.stream[..s.core.total] == s.stream;
    forall d | d in t.attaches ensures Covered(t, d) {
      assert Covered(s, d);
      if d == c {
        var a := s.attaches[c];
        assert a.offered[..|a.offered|] == a.offered;
      }
    }
  }

  /** The share of `c` is the same in both states. */
  predicate SameShare(s: System, t: System, c: Conn)
    requires c in s.attaches && c in t.attaches
  {
    var a, b := s.attaches[c], t.attaches[c];
    && a.installedAt == b.installedAt && a.snap == b.snap && a.offered == b.offered
    && a.written == b.written && a.writeFailed == b.writeFailed
    && End(s, c) == End(t, c)
  }

  predicate IsControl(e: Event) {
    e.Install? || e.CloseOld? || e.Finish? || e.Destroy? || e.DestroyClose?
  }

  lemma ControlStepsKeepShares(s: System, e: Event, c: Conn)
    requires HolderIsIn(s) && Enabled(s, e) && IsControl(e) && c in s.attaches
    requires e.Finish? && s.core.conn == Some(e.conn) ==> s.attaches[e.conn].left.None?
    ensures c in Step(s, e).attaches && SameShare(s, Step(s, e), c)
  {
  }

  lemma ControlStepsKeepPump(s: System, e: Event)
    requires PumpOk(s) && Enabled(s, e) && IsControl(e)
    ensures PumpOk(Step(s, e)) && Step(s, e).stream == s.stream && Step(s, e).pump == s.pump
    ensures Decided(Step(s, e)) == Decided(s)
    ensures forall c :: c in Step(s, e).attaches ==> c in s.attaches || e == Install(c)
  {
  }

  lemma ControlStepsKeepFlow(s: System, e: Event)
    requires HolderIsIn(s) && Flow(s) && Enabled(s, e) && IsControl(e)
    requires e.Finish? && s.core.conn == Some(e.conn) ==> s.attaches[e.conn].left.None?
    ensures Flow(Step(s, e))
  {
    var t := Step(s, e);
    ControlStepsKeepPump(s, e);
    forall c | c in t.attaches ensures Covered(t, c) {
      if c in s.attaches {
        assert Covered(s, c);
        ControlStepsKeepShares(s, e, c);
        CoveredCarries(s, t, c);
      }
    }
  }

  lemma CoveredCarries(s: System, t: System, c: Conn)
    requires c in s.attaches && c in t.attaches && SameShare(s, t, c) && Covered(s, c)
    requires s.stream == t.stream && s.pump == t.pump && Decided(s) == Decided(t)
    ensures Covered(t, c)
  {
  }

  lemma DeliverCovers(s: System, ok: bool, c: Conn)
    requires PumpOk(s) && s.pump.Captured? && c in s.attaches && Covered(s, c)
    ensures c in Step(s, Deliver(ok)).attaches && Covered(Step(s, Deliver(ok)), c)
  {
    var t := Step(s, Deliver(ok));
    var a, b := s.attaches[c], t.attaches[c];
    assert b.installedAt == a.installedAt && b.snap == a.snap && b.offered == a.offered && b.left == a.left;
    assert End(t, c) == End(s, c) && t.stream == s.stream && Decided(t) == Decided(s);
    assert !b.writeFailed ==> b.written == b.offered;
  }

  lemma DeliverKeepsFlow(s: System, ok: bool)
    requires Flow(s) && Enabled(s, Deliver(ok))
    ensures Flow(Step(s, Deliver(ok)))
  {
    var t := Step(s, Deliver(ok));
    assert t.core == s.core && t.stream == s.stream && t.pump == Reading && t.attaches.Keys == s.attaches.Keys;
    forall c | c in t.attaches ensures Covered(t, c) {
      assert Covered(s, c);
      DeliverCovers(s, ok, c);
    }
  }

  lemma StepKeepsFlow(s: System, e: Event)
    requires Ownership(s) && Flow(s)
    ensures Flow(Step(s, e))
  {
    OwnershipGivesHolder(s);
    if Enabled(s, e) {
      match e
      case Append(data) => AppendKeepsFlow(s, data);
      case Capture => CaptureKeepsFlow(s);
      case Snap(c) => SnapKeepsFlow(s, c);
      case Deliver(ok) => DeliverKeepsFlow(s, ok);
      case _ => ControlStepsKeepFlow(s, e);
    }
  }

  // --- theorems about every run ------------------------------------------------------

  lemma {:induction false} ReachableStatesAreGood(es: seq<Event>)
    ensures Ownership(Exec(INIT, es)) && Eviction(Exec(INIT, es)) && Flow(Exec(INIT, es))
    decreases |es|
  {
    if es != [] {
      var s, e := Exec(INIT, es[..|es| - 1]), es[|es| - 1];
      ReachableStatesAreGood(es[..|es| - 1]);
      StepKeepsOwnership(s, e);
      StepKeepsEviction(s, e);
      StepKeepsFlow(s, e);
    }
  }

  /** Running means exactly one unfinished attach holds the current token, and then the
      slot holds its connection; otherwise no unfinished attach holds it and the slot is empty.
      Destroy invalidates every token ever handed out. */
  lemma SlotOwnership(es: seq<Event>)
    ensures var s := Exec(INIT, es);
      && (s.core.status == Running <==> exists c: Conn :: Owner(s, c))
      && (forall c: Conn, d: Conn :: Owner(s, c) && Owner(s, d) ==> c == d)
      && (forall c: Conn :: s.core.conn == Some(c) <==> Owner(s, c))
      && (s.core.status == Destroyed ==> forall c :: c in s.attaches ==> s.attaches[c].epoch < s.core.epoch)
  {
    ReachableStatesAreGood(es);
    var s := Exec(INIT, es);
    assert s.core.conn.Some? ==> Owner(s, s.core.conn.value);
  }

  /** Tokens only grow, and a destroyed session stays destroyed. */
  lemma {:induction false} TokensGrowAndDestroyedStays(s: System, es: seq<Event>)
    ensures s.core.epoch <= Exec(s, es).core.epoch
    ensures s.core.status == Destroyed ==> Exec(s, es).core.status == Destroyed
    decreases |es|
  {
    if es != [] {
      TokensGrowAndDestroyedStays(s, es[..|es| - 1]);
    }
  }

  /** Once a connection has left the slot, how and where it left never changes. */
  lemma {:induction false} ConnectionLeavesOnce(es: seq<Event>, more: seq<Event>, c: Conn)
    requires c in Exec(INIT, es).attaches && Exec(INIT, es).attaches[c].left.Some?
    ensures c in Exec(INIT, es + more).attaches
    ensures Exec(INIT, es + more).attaches[c].left == Exec(INIT, es).attaches[c].left
    decreases |more|
  {
    if more == [] {
      assert es + more == es;
    } else {
      var m0 := more[..|more| - 1];
      assert (es + more)[..|es + more| - 1] == es + m0;
      ConnectionLeavesOnce(es, m0, c);
      ReachableStatesAreGood(es + m0);
      LeftStays(Exec(INIT, es + m0), more[|more| - 1], c);
    }
  }

  lemma LeftStays(s: System, e: Event, c: Conn)
    requires Ownership(s) && c in s.attaches && s.attaches[c].left.Some?
    ensures c in Step(s, e).attaches && Step(s, e).attaches[c].left == s.attaches[c].left
  {
    OwnershipGivesHolder(s);
    if !MovesSlot(e) {
      OtherStepsKeepSlot(s, e);
    }
  }

  /** What an eviction amounts to for the connection `c`. */
  ghost predicate EvictedLinearly(s: System, c: Conn)
    requires c in s.attaches
  {
    var a := s.attaches[c];
    && a.closes == ClosesPerformed(s, c) <= 1
    && (a.closes == 1 ==> a.left.Some? && a.left.value.cause != OwnFinish)
    && (a.notice.Some? <==> a.closes == 1)
    && (a.notice == Some(NoticePreempted) ==> a.left.value.cause.TakenOver?)
    && (a.left.Some? && a.left.value.cause == ByDestroy && a.notice.Some? ==> a.notice == Some(NoticeDestroyed))
    && (a.left.Some? && a.left.value.cause.TakenOver? ==>
          var d := a.left.value.cause.newer;
          && d in s.attaches && a.epoch < s.attaches[d].epoch
          && forall o :: o in s.attaches && s.attaches[o].evicts == Some(c) ==> o == d)
  }

  lemma EvictionIsLinearFor(s: System, c: Conn)
    requires Eviction(s) && c in s.attaches
    ensures EvictedLinearly(s, c)
  {
    assert Evictors(s, c) && Closed(s, c);
    var a := s.attaches[c];
    assert a.notice.Some? ==> a.notice.value == NoticePreempted || a.notice.value == NoticeDestroyed;
    forall o | o in s.attaches && s.attaches[o].evicts == Some(c)
      ensures s.attaches[c].left.Some? && s.attaches[c].left.value.cause == TakenOver(o)
    {
      assert Evictors(s, o);
    }
  }

  /** A connection is closed at most once, only by whoever evicted it, and exactly once
      when that evictor is past its close. What the client is told matches the eviction:
      preempted only after a takeover, destroyed whenever the destroyer evicted it. */
  lemma LinearEviction(es: seq<Event>, c: Conn)
    requires c in Exec(INIT, es).attaches
    ensures EvictedLinearly(Exec(INIT, es), c)
  {
    ReachableStatesAreGood(es);
    EvictionIsLinearFor(Exec(INIT, es), c);
  }

  /** An attach returns ErrSessionPreempted iff, when it finishes, the session is alive and
      some newer attach has been installed. */
  lemma PreemptedIffNewerAttach(es: seq<Event>, c: Conn)
    requires Enabled(Exec(INIT, es), Finish(c))
    ensures var s := Exec(INIT, es);
      Exec(INIT, es + [Finish(c)]).attaches[c].outcome == Some(ErrPreempted)
      <==> s.core.status != Destroyed && exists d :: d in s.attaches && s.attaches[d].epoch > s.attaches[c].epoch
  {
    ReachableStatesAreGood(es);
    var s := Exec(INIT, es);
    assert (es + [Finish(c)])[..|es|] == es;
    if s.core.status != Destroyed {
      var d :| d in s.attaches && s.attaches[d].epoch == s.core.epoch;
      assert s.attaches[c].epoch <= s.attaches[d].epoch;
    }
  }

  /** The chunks of `cs` that start at or after `q`. */
  function Live(cs: seq<Chunk>, q: nat): seq<Chunk> {
    if cs == [] then []
    else Live(cs[..|cs| - 1], q) + (if cs[|cs| - 1].start >= q then [cs[|cs| - 1]] else [])
  }

  lemma {:induction false} NoneLive(a: seq<Chunk>, q: nat)
    requires forall i :: 0 <= i < |a| ==> a[i].start < q
    ensures Live(a, q) == []
    decreases |a|
  {
    if a != [] {
      NoneLive(a[..|a| - 1], q);
    }
  }

  lemma {:induction false} LiveSplits(a: seq<Chunk>, b: seq<Chunk>, q: nat)
    requires forall i :: 0 <= i < |a| ==> a[i].start < q
    requires forall i :: 0 <= i < |b| ==> b[i].start >= q
    ensures Live(a + b, q) == b
    decreases |b|
  {
    if b == [] {
      assert a + b == a;
      NoneLive(a, q);
    } else {
      var b0, z := b[..|b| - 1], b[|b| - 1];
      assert (a + b)[..|a + b| - 1] == a + b0;
      assert (a + b)[|a + b| - 1] == z;
      LiveSplits(a, b0, q);
    }
  }

  /** No output is lost, whatever the interleaving: an attach that took its snapshot at
      offset q holds exactly the ring's worth of output before q, and the live chunks from
      q on that were captured for it spell the output from q to where it left the slot. */
  lemma NoOutputGap(es: seq<Event>, c: Conn)
    requires c in Exec(INIT, es).attaches && Exec(INIT, es).attaches[c].snap.Some?
    ensures var s := Exec(INIT, es); var a := s.attaches[c]; var q := a.snap.value;
      && q.at <= |s.stream|
      && q.bytes == Tail(s.stream[..q.at], RING_CAPACITY)
      && End(s, c) <= |s.stream|
      && (q.at <= End(s, c) ==> Concat(Datas(Live(a.offered, q.at))) == s.stream[q.at..End(s, c)])
      && (q.at > End(s, c) ==> Live(a.offered, q.at) == [])
  {
    ReachableStatesAreGood(es);
    var s := Exec(INIT, es);
    assert Covered(s, c);
    var a := s.attaches[c];
    var q := a.snap.value;
    if q.at <= End(s, c) {
      ChainSpells(a.offered[..q.before], a.installedAt, q.at, s.stream);
      ChainSpells(a.offered[q.before..], q.at, End(s, c), s.stream);
      assert a.offered == a.offered[..q.before] + a.offered[q.before..];
      LiveSplits(a.offered[..q.before], a.offered[q.before..], q.at);
    } else {
      ChainSpells(a.offered, a.installedAt, End(s, c), s.stream);
      NoneLive(a.offered, q.at);
    }
  }

  lemma TailIsSuffix(stream: Bytes, q: nat, bytes: Bytes, live: Bytes)
    requires q <= |stream| && bytes == Tail(stream[..q], RING_CAPACITY) && live == stream[q..]
    ensures |bytes| <= q && bytes + live == stream[q - |bytes|..]
  {
    assert bytes == stream[q - |bytes|..q];
  }

  /** For the attach that holds the slot between two pump rounds, replay and live output
      together are one unbroken suffix of everything printed. */
  lemma HolderSeesUnbrokenSuffix(es: seq<Event>, c: Conn)
    requires Owner(Exec(INIT, es), c) && Exec(INIT, es).attaches[c].snap.Some? && Exec(INIT, es).pump == Reading
    ensures var s := Exec(INIT, es); var a := s.attaches[c]; var q := a.snap.value;
      && |q.bytes| <= q.at <= |s.stream|
      && q.bytes + Concat(Datas(Live(a.offered, q.at))) == s.stream[q.at - |q.bytes|..]
      && (!a.writeFailed ==> a.written == a.offered)
  {
    ReachableStatesAreGood(es);
    NoOutputGap(es, c);
    var s := Exec(INIT, es);
    assert Covered(s, c);
    assert s.core.conn == Some(c);
    var a := s.attaches[c];
    assert a.left.None?;
    assert End(s, c) == |s.stream|;
    TailIsSuffix(s.stream, a.snap.value.at, a.snap.value.bytes, Concat(Datas(Live(a.offered, a.snap.value.at))));
  }

  /** The ring is always the tail of the whole output, and the replay boundary is never
      ahead of it, so the pump's boundary test never withholds a chunk from the slot. */
  lemma RingAndBoundary(es: seq<Event>)
    ensures var s := Exec(INIT, es);
      && s.core.total == |s.stream|
      && s.core.ring == Tail(s.stream, RING_CAPACITY)
      && s.core.replaySeq <= s.core.total
      && (s.pump.Appended? ==> CaptureTarget(s.core, s.pump.chunk.start) == s.core.conn)
  {
    ReachableStatesAreGood(es);
  }

  function Least(a: int, b: int): int {
    if a < b then a else b
  }

  function Greatest(a: int, b: int): int {
    if a > b then a else b
  }

  /** Chunk `k` has a byte in the stretch [lo, hi) of the output. */
  predicate Meets(k: Chunk, lo: int, hi: int) {
    Greatest(k.start, lo) < Least(k.start + |k.data|, hi)
  }

  predicate SomeMeets(cs: seq<Chunk>, lo: int, hi: int) {
    exists i :: 0 <= i < |cs| && Meets(cs[i], lo, hi)
  }

  /** Some piece of a chain has a byte in a stretch exactly when the whole chain has. */
  lemma {:induction false} ChainMeets(cs: seq<Chunk>, from: nat, to: nat, stream: Bytes, lo: int, hi: int)
    requires Chain(cs, from, to, stream)
    ensures SomeMeets(cs, lo, hi) <==> Greatest(from, lo) < Least(to, hi)
    decreases |cs|
  {
    if cs != [] {
      var init, z := cs[..|cs| - 1], cs[|cs| - 1];
      ChainSpells(init, from, z.start, stream);
      ChainMeets(init, from, z.start, stream, lo, hi);
      assert SomeMeets(cs, lo, hi) <==> SomeMeets(init, lo, hi) || Meets(z, lo, hi) by {
        if i :| 0 <= i < |init| && Meets(init[i], lo, hi) {
          assert Meets(cs[i], lo, hi);
        }
        if Meets(z, lo, hi) {
          assert Meets(cs[|cs| - 1], lo, hi);
        }
      }
    }
  }

  /** Some chunk offered to `c` has a byte that is also in its snapshot. */
  predicate SeesTwice(s: System, c: Conn)
    requires c in s.attaches && s.attaches[c].snap.Some?
  {
    var q := s.attaches[c].snap.value;
    SomeMeets(s.attaches[c].offered, q.at - |q.bytes|, q.at)
  }

  lemma CoveredMeets(s: System, c: Conn)
    requires c in s.attaches && s.attaches[c].snap.Some? && Covered(s, c)
    ensures var a := s.attaches[c]; var q := a.snap.value;
      && |q.bytes| <= q.at <= |s.stream| && q.bytes == s.stream[q.at - |q.bytes|..q.at]
      && (SeesTwice(s, c) <==> Greatest(a.installedAt, q.at - |q.bytes|) < Least(End(s, c), q.at))
  {
    var a := s.attaches[c];
    var q := a.snap.value;
    TailIsSuffix(s.stream, q.at, q.bytes, s.stream[q.at..]);
    assert q.bytes == s.stream[q.at - |q.bytes|..q.at];
    ChainMeets(a.offered, a.installedAt, End(s, c), s.stream, q.at - |q.bytes|, q.at);
  }

  lemma CoveredSpells(s: System, c: Conn)
    requires c in s.attaches && s.attaches[c].snap.Some? && Covered(s, c)
    ensures var a := s.attaches[c]; var q := a.snap.value;
      && q.before <= |a.offered|
      && a.installedAt <= Least(q.at, End(s, c)) <= |s.stream|
      && Concat(Datas(a.offered[..q.before])) == s.stream[a.installedAt..Least(q.at, End(s, c))]
  {
    var a := s.attaches[c];
    var q := a.snap.value;
    if q.at <= End(s, c) {
      ChainSpells(a.offered[..q.before], a.installedAt, q.at, s.stream);
    } else {
      ChainSpells(a.offered, a.installedAt, End(s, c), s.stream);
      assert a.offered[..q.before] == a.offered;
    }
  }

  /** In every run a byte is both in the snapshot of `c` and offered to it exactly when some byte that the
      ring still held at the snapshot was printed after its install and before it left the slot. And
      the chunks offered before the snapshot spell all output from the install to the snapshot, or to
      where it left. */
  lemma SeesTwiceIff(es: seq<Event>, c: Conn)
    requires c in Exec(INIT, es).attaches && Exec(INIT, es).attaches[c].snap.Some?
    ensures var s := Exec(INIT, es); var a := s.attaches[c]; var q := a.snap.value;
      && |q.bytes| <= q.at <= |s.stream| && q.bytes == s.stream[q.at - |q.bytes|..q.at]
      && (SeesTwice(s, c) <==> Greatest(a.installedAt, q.at - |q.bytes|) < Least(End(s, c), q.at))
    ensures var s := Exec(INIT, es); var a := s.attaches[c]; var q := a.snap.value;
      && q.before <= |a.offered|
      && a.installedAt <= Least(q.at, End(s, c)) <= |s.stream|
      && Concat(Datas(a.offered[..q.before])) == s.stream[a.installedAt..Least(q.at, End(s, c))]
  {
    ReachableStatesAreGood(es);
    assert Covered(Exec(INIT, es), c);
    CoveredMeets(Exec(INIT, es), c);
    CoveredSpells(Exec(INIT, es), c);
  }

  lemma ExecSnoc(s: System, es: seq<Event>, e: Event)
    ensures Exec(s, es + [e]) == Step(Exec(s, es), e)
  {
    assert (es + [e])[..|es|] == es;
  }

  const EARLY: seq<Event> := [Install(0), CloseOld(0), Append([65]), Capture]

  /** A chunk pumped between an attach's install and its snapshot. */
  lemma PumpedBeforeSnapshot()
    ensures Exec(INIT, EARLY) ==
      System(Core(Running, Some(0), 1, 1, 0, [65]), [65],
             map[0 := Attach(1, 0, None, true, None, None, None, [Chunk(0, [65])], [], false, 0, None)],
             Captured(Chunk(0, [65]), Some(0)), Absent)
  {
    var s1 := Step(INIT, Install(0));
    var s2 := Step(s1, CloseOld(0));
    var s3 := Step(s2, Append([65]));
    assert [] + [Install(0)] == [Install(0)];
    ExecSnoc(INIT, [], Install(0));
    assert [Install(0)] + [CloseOld(0)] == [Install(0), CloseOld(0)];
    ExecSnoc(INIT, [Install(0)], CloseOld(0));
    assert s2 == System(Core(Running, Some(0), 1, 0, 0, []), [],
                        map[0 := Attach(1, 0, None, true, None, None, None, [], [], false, 0, None)], Reading, Absent);
    assert [Install(0), CloseOld(0)] + [Append([65])] == [Install(0), CloseOld(0), Append([65])];
    ExecSnoc(INIT, [Install(0), CloseOld(0)], Append([65]));
    assert s3.core.ring == [65] && s3.stream == [65];
    assert s3.pump == Appended(Chunk(0, [65])) && s3.attaches == s2.attaches;
    var s4 := Step(s3, Capture);
    assert s4.attaches[0].offered == [Chunk(0, [65])];
    assert [Install(0), CloseOld(0), Append([65])] + [Capture] == EARLY;
    ExecSnoc(INIT, [Install(0), CloseOld(0), Append([65])], Capture);
  }

  /** The boundary test does not keep it from the client: it is written live and is in the snapshot. */
  lemma ReplayedAndDelivered()
    ensures var s := Exec(INIT, EARLY + [Deliver(true)] + [Snap(0)]);
      && 0 in s.attaches && s.attaches[0].written == [Chunk(0, [65])]
      && s.attaches[0].snap == Some(Snapshot(1, [65], 1)) && SeesTwice(s, 0)
  {
    PumpedBeforeSnapshot();
    ExecSnoc(INIT, EARLY, Deliver(true));
    ExecSnoc(INIT, EARLY + [Deliver(true)], Snap(0));
    var s := Exec(INIT, EARLY + [Deliver(true)] + [Snap(0)]);
    assert Meets(s.attaches[0].offered[0], 0, 1);
  }
}
