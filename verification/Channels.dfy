/**
 The two ends of a multiplexed session channel: the server's virtualConn and wsRouter
 (internal/api/ws_handler.go) and the browser's SessionChannel
 (apps/web/src/utils/session-channel.ts). Frames are an arbitrary type here.
 */
module Channels {
  import opened Bytes
  import opened Codec

  // --- server: one virtual connection -------------------------------------------

  datatype Pipe<T> = Pipe(queue: seq<T>, closed: bool)

  datatype ReadOutcome<T> = Message(frame: T) | Eof | Blocked

  function Deliver<T>(p: Pipe<T>, x: T): Pipe<T> {
    if p.closed then p else p.(queue := p.queue + [x])
  }

  /** A reader drains the queue first and sees the end only on an empty closed queue. */
  function ReadFrom<T>(p: Pipe<T>): (Pipe<T>, ReadOutcome<T>) {
    if p.queue != [] then (p.(queue := p.queue[1..]), Message(p.queue[0]))
    else (p, if p.closed then Eof else Blocked)
  }

  class VirtualConn<T> {
    const sid: Bytes
    var queue: seq<T>
    var closed: bool

    ghost function View(): Pipe<T>
      reads this
    {
      Pipe(queue, closed)
    }

    constructor (sid: Bytes)
      ensures this.sid == sid && View() == Pipe([], false)
    {
      this.sid := sid;
      queue, closed := [], false;
    }

    method Put(frame: T)
      modifies this
      ensures View() == Deliver(old(View()), frame)
    {
      if closed {
        return;
      }
      queue := queue + [frame];
    }

    /** ReadMessage up to its wait: Blocked stands for waiting on the condition variable. */
    method ReadMessage() returns (r: ReadOutcome<T>)
      modifies this
      ensures (View(), r) == ReadFrom(old(View()))
    {
      if |queue| == 0 && !closed {
        return Blocked;
      }
      if |queue| == 0 {
        return Eof;
      }
      r := Message(queue[0]);
      queue := queue[1..];
    }

    method MarkClosed()
      modifies this
      ensures View() == old(View()).(closed := true)
    {
      closed := true;
    }
  }

  // --- server: the routing table --------------------------------------------------

  /** A session gets a channel if it exists and has none. */
  predicate Admits<V>(table: map<Bytes, V>, sid: Bytes, found: bool) {
    sid !in table && found
  }

  function Entered<V>(table: map<Bytes, V>, sid: Bytes, c: V): map<Bytes, V> {
    table[sid := c]
  }

  function Left<V>(table: map<Bytes, V>, sid: Bytes): map<Bytes, V> {
    table - {sid}
  }

  /** The late cleanup of channel `c`: its entry goes, a newer channel's stays. */
  function CleanedUp<V(==)>(table: map<Bytes, V>, sid: Bytes, c: V): map<Bytes, V> {
    if sid in table && table[sid] == c then table - {sid} else table
  }

  class Router<T> {
    var chans: map<Bytes, VirtualConn<T>>

    ghost predicate Valid()
      reads this
    {
      forall s :: s in chans ==> chans[s].sid == s
    }

    constructor ()
      ensures Valid() && chans == map[]
    {
      chans := map[];
    }

    /** An Attach frame: a session that already has a channel gets no second one. */
    method Register(sid: Bytes, found: bool) returns (vc: VirtualConn?<T>)
      requires Valid()
      modifies this
      ensures Valid()
      ensures vc != null <==> Admits(old(chans), sid, found)
      ensures vc == null ==> chans == old(chans)
      ensures vc != null ==> fresh(vc) && chans == Entered(old(chans), sid, vc) && vc.View() == Pipe([], false)
    {
      vc := null;
      if sid in chans || !found {
        return;
      }
      vc := new VirtualConn<T>(sid);
      chans := chans[sid := vc];
    }

    /** A Detach frame. */
    method Unregister(sid: Bytes)
      requires Valid()
      modifies this, chans.Values
      ensures Valid() && chans == Left(old(chans), sid)
      ensures forall c :: c in old(chans.Values) ==>
        c.queue == old(c.queue) && c.closed == (old(c.closed) || c.sid == sid)
    {
      if sid in chans {
        var c := chans[sid];
        chans := chans - {sid};
        c.MarkClosed();
      }
    }

    /** A session frame; one without a channel is dropped. */
    method Route(sid: Bytes, frame: T)
      requires Valid()
      modifies chans.Values
      ensures forall c :: c in chans.Values ==>
        c.View() == if c.sid == sid then Deliver(old(c.View()), frame) else old(c.View())
    {
      if sid in chans {
        chans[sid].Put(frame);
      }
    }

    /** The asynchronous cleanup of `c`: a newer channel for the same session is left alone. */
    method Remove(c: VirtualConn<T>)
      requires Valid()
      modifies this
      ensures Valid()
      ensures chans == CleanedUp(old(chans), c.sid, c)
    {
      if c.sid in chans && chans[c.sid] == c {
        chans := chans - {c.sid};
      }
    }

    /** Connection teardown: the table is emptied, then every channel it held is closed. */
    method CloseAll()
      requires Valid()
      modifies this, chans.Values
      ensures Valid() && chans == map[]
      ensures forall c :: c in old(chans.Values) ==> c.closed && c.queue == old(c.queue)
    {
      var left := chans.Values;
      chans := map[];
      while left != {}
        invariant left <= old(chans.Values) && Valid() && chans == map[]
        invariant forall c :: c in old(chans.Values) ==> c.queue == old(c.queue)
        invariant forall c :: c in old(chans.Values) && c !in left ==> c.closed
        decreases left
      {
        var c :| c in left;
        c.MarkClosed();
        left := left - {c};
      }
    }
  }

  // --- browser: one session channel -------------------------------------------------

  const PENDING_LIMIT: nat := 64

  datatype Client<T> = Client(isOpen: bool, closed: bool, pending: seq<T>)

  /** The new channel state and the frames put on the wire. */
  function Send<T>(c: Client<T>, x: T): (Client<T>, seq<T>) {
    if c.closed then (c, [])
    else if c.isOpen then (c, [x])
    else (if |c.pending| < PENDING_LIMIT then c.(pending := c.pending + [x]) else c, [])
  }

  function Open<T>(c: Client<T>): (Client<T>, seq<T>) {
    if c.isOpen || c.closed then (c, []) else (c.(isOpen := true, pending := []), c.pending)
  }

  class SessionChannel<T> {
    var isOpen: bool
    var closed: bool
    var pending: seq<T>
    /** Every frame handed to the wire so far. */
    var wire: seq<T>

    /** The buffer is bounded, and nothing is held back once the channel is open. */
    ghost predicate Valid()
      reads this
    {
      |pending| <= PENDING_LIMIT && (isOpen ==> pending == [])
    }

    ghost function View(): Client<T>
      reads this
    {
      Client(isOpen, closed, pending)
    }

    constructor ()
      ensures Valid() && View() == Client(false, false, []) && wire == []
    {
      isOpen, closed, pending, wire := false, false, [], [];
    }

    method SendFrame(x: T)
      requires Valid()
      modifies this
      ensures Valid()
      ensures View() == Send(old(View()), x).0 && wire == old(wire) + Send(old(View()), x).1
    {
      if closed {
        return;
      }
      if !isOpen {
        if |pending| < PENDING_LIMIT {
          pending := pending + [x];
        }
        return;
      }
      wire := wire + [x];
    }

    method DeliverOpen()
      requires Valid()
      modifies this
      ensures Valid()
      ensures View() == Open(old(View())).0 && wire == old(wire) + Open(old(View())).1
    {
      if isOpen || closed {
        return;
      }
      isOpen := true;
      var buffered := pending;
      pending := [];
      var i := 0;
      while i < |buffered|
        invariant 0 <= i <= |buffered|
        invariant isOpen && !closed && pending == []
        invariant wire == old(wire) + buffered[..i]
      {
        wire := wire + [buffered[i]];
        i := i + 1;
      }
    }

    /** The connection dropped: the channel waits to be isOpen again after a reconnect. */
    method DeliverClose()
      requires Valid()
      modifies this
      ensures Valid() && wire == old(wire)
      ensures View() == if old(closed) then old(View()) else old(View()).(closed := true, isOpen := false)
    {
      if closed {
        return;
      }
      closed := true;
      isOpen := false;
    }

    method Reopen()
      requires Valid()
      modifies this
      ensures Valid() && wire == old(wire) && View() == old(View()).(closed := false)
    {
      closed := false;
    }
  }
}
