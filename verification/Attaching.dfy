/**
 What the sections of an attach, of destroy and of the output pump achieve, in every run of a session
 (internal/session/session.go). SessionRuns says what can never go wrong; here nothing is left undone.
 */
module Attaching {
  import opened Bytes
  import opened Session
  import opened SessionRuns

  /** `t` is `s` with a new attach `c` in the slot, and whoever held it thrown out by `c`. */
  ghost predicate Entered(s: System, t: System, c: Conn) {
    && t.core.status == Running && t.core.conn == Some(c) && t.core.epoch == s.core.epoch + 1
    && t.attaches.Keys == s.attaches.Keys + {c}
    && t.attaches[c].epoch == t.core.epoch && t.attaches[c].evicts == s.core.conn && t.attaches[c].offered == []
    && (forall d :: d in s.attaches && s.core.conn != Some(d) ==> t.attaches[d] == s.attaches[d])
    && (s.core.conn.Some? ==>
          var d := s.core.conn.value;
          d in s.attaches && t.attaches[d].left.Some? && t.attaches[d].left.value.cause == TakenOver(c))
  }

  lemma InstallEnters(s: System, c: Conn)
    requires Ownership(s) && c !in s.attaches && s.core.status != Destroyed
    ensures Entered(s, Step(s, Install(c)), c)
  {
    assert s.core.conn.Some? ==> Owner(s, s.core.conn.value);
  }

  /** In every run, a new attach on a session that is not destroyed takes the slot with a new token. */
  lemma AttachTakesSlot(es: seq<Event>, c: Conn)
    requires c !in Exec(INIT, es).attaches && Exec(INIT, es).core.status != Destroyed
    ensures Entered(Exec(INIT, es), Exec(INIT, es + [Install(c)]), c)
  {
    ReachableStatesAreGood(es);
    ExecSnoc(INIT, es, Install(c));
    InstallEnters(Exec(INIT, es), c);
  }

  /** `t` is `s` destroyed: no token is current, the slot is empty and its holder was evicted. */
  ghost predicate Ended(s: System, t: System) {
    && t.core.status == Destroyed && t.core.conn.None? && t.destroyer == Owes(s.core.conn)
    && t.attaches.Keys == s.attaches.Keys
    && (forall d :: d in t.attaches ==> t.attaches[d].epoch < t.core.epoch)
    && (s.core.conn.Some? ==>
          var d := s.core.conn.value;
          d in t.attaches && t.attaches[d].left.Some? && t.attaches[d].left.value.cause == ByDestroy)
  }

  lemma DestroyStep(s: System)
    requires Ownership(s) && s.core.status != Destroyed
    ensures Ended(s, Step(s, Destroy))
  {
    assert s.core.conn.Some? ==> Owner(s, s.core.conn.value);
  }

  /** In every run, destroy ends a session that was not destroyed. */
  lemma DestroyEnds(es: seq<Event>)
    requires Exec(INIT, es).core.status != Destroyed
    ensures Ended(Exec(INIT, es), Exec(INIT, es + [Destroy]))
  {
    ReachableStatesAreGood(es);
    ExecSnoc(INIT, es, Destroy);
    DestroyStep(Exec(INIT, es));
  }

  /** `c` was closed, once, and its client was told what had become of the session. */
  ghost predicate ToldAndClosed(s: System, t: System, c: Conn) {
    && c in t.attaches && t.attaches[c].closes == 1
    && t.attaches[c].notice == Some(if s.core.status == Destroyed then NoticeDestroyed else NoticePreempted)
  }

  /** Event `e` is the close of `x` by the attach or the destroy that threw it out. */
  predicate ClosesNext(s: System, e: Event, x: Conn) {
    && x in s.attaches
    && match e
       case CloseOld(c) => c in s.attaches && !s.attaches[c].closedOld && s.attaches[c].evicts == Some(x)
       case DestroyClose => s.destroyer == Owes(Some(x))
       case _ => false
  }

  lemma CloseStep(s: System, e: Event, x: Conn)
    requires Eviction(s) && Eviction(Step(s, e)) && ClosesNext(s, e, x)
    ensures ToldAndClosed(s, Step(s, e), x)
  {
    EvictionIsLinearFor(s, x);
    EvictionIsLinearFor(Step(s, e), x);
  }

  /** In every run, an evictor that gets to it closes the connection it threw out. */
  lemma EvictedIsClosed(es: seq<Event>, e: Event, x: Conn)
    requires ClosesNext(Exec(INIT, es), e, x)
    ensures ToldAndClosed(Exec(INIT, es), Exec(INIT, es + [e]), x)
  {
    ReachableStatesAreGood(es);
    ReachableStatesAreGood(es + [e]);
    ExecSnoc(INIT, es, e);
    CloseStep(Exec(INIT, es), e, x);
  }

  /** In every run, an attach past its eviction gets its snapshot as soon as the pump is not appending:
      the last bytes of everything printed, up to the ring's capacity. */
  lemma SnapshotIsTaken(es: seq<Event>, c: Conn)
    requires var s := Exec(INIT, es);
      c in s.attaches && s.attaches[c].closedOld && s.attaches[c].snap.None? && !s.pump.Appended?
    ensures var s, t := Exec(INIT, es), Exec(INIT, es + [Snap(c)]);
      && c in t.attaches && t.attaches[c].snap.Some? && t.attaches[c].snap.value.at == |s.stream|
      && t.attaches[c].snap.value.bytes == Tail(s.stream, RING_CAPACITY)
  {
    ReachableStatesAreGood(es);
    ExecSnoc(INIT, es, Snap(c));
    assert PumpOk(Exec(INIT, es));
  }

  /** `t` is `s` after `c` returned: a slot it held is free again, and nobody else's is. */
  ghost predicate GaveBack(s: System, t: System, c: Conn) {
    && c in t.attaches && t.attaches[c].outcome.Some? && t.core.epoch == s.core.epoch
    && (if s.core.conn == Some(c) then t.core.conn.None? && t.core.status == Idle
        else t.core.conn == s.core.conn && t.core.status == s.core.status)
  }

  lemma FinishStep(s: System, c: Conn)
    requires Ownership(s) && c in s.attaches && s.attaches[c].snap.Some? && s.attaches[c].outcome.None?
    ensures GaveBack(s, Step(s, Finish(c)), c)
  {
    assert Owner(s, c) <==> s.core.conn == Some(c);
  }

  /** In every run, an attach whose bridge is over returns, and gives back exactly its own slot. */
  lemma AttachReturns(es: seq<Event>, c: Conn)
    requires var s := Exec(INIT, es); c in s.attaches && s.attaches[c].snap.Some? && s.attaches[c].outcome.None?
    ensures GaveBack(Exec(INIT, es), Exec(INIT, es + [Finish(c)]), c)
  {
    ReachableStatesAreGood(es);
    ExecSnoc(INIT, es, Finish(c));
    FinishStep(Exec(INIT, es), c);
  }

  /** `t` is `s` with `data` printed and pumped: the holder, if any, was offered and written it. */
  ghost predicate Pumped(s: System, t: System, data: Bytes) {
    var k := Chunk(|s.stream|, data);
    && t.stream == s.stream + data && t.core.ring == Tail(s.stream + data, RING_CAPACITY) && t.pump == Reading
    && t.core.conn == s.core.conn && t.attaches.Keys == s.attaches.Keys
    && forall c :: c in s.attaches ==>
         if s.core.conn == Some(c)
         then t.attaches[c].offered == s.attaches[c].offered + [k] && t.attaches[c].written == s.attaches[c].written + [k]
         else t.attaches[c] == s.attaches[c]
  }

  lemma PumpSteps(s: System, data: Bytes)
    requires Ownership(s) && Flow(s) && s.pump == Reading && 0 < |data| <= READ_BUFFER
    ensures Pumped(s, Step(Step(Step(s, Append(data)), Capture), Deliver(true)), data)
  {
    assert s.core.conn.Some? ==> Owner(s, s.core.conn.value);
    TailAppend(s.stream, data, RING_CAPACITY);
    var a := Step(s, Append(data));
    assert CaptureTarget(a.core, a.pump.chunk.start) == s.core.conn;
  }

  /** In every run, a chunk that the terminal prints goes into the ring and, through the pump, to exactly
      the attach that holds the slot. */
  lemma OutputReachesHolder(es: seq<Event>, data: Bytes)
    requires Exec(INIT, es).pump == Reading && 0 < |data| <= READ_BUFFER
    ensures Pumped(Exec(INIT, es), Exec(INIT, ((es + [Append(data)]) + [Capture]) + [Deliver(true)]), data)
  {
    ReachableStatesAreGood(es);
    ExecSnoc(INIT, es, Append(data));
    ExecSnoc(INIT, es + [Append(data)], Capture);
    ExecSnoc(INIT, (es + [Append(data)]) + [Capture], Deliver(true));
    PumpSteps(Exec(INIT, es), data);
  }
}
