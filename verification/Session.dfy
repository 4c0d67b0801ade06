/**
 The lock-protected sections of one terminal session (internal/session/session.go).

 `Core` is the part of a session guarded by `mu` and `outMu`. Each function below is one
 section that holds a lock; class `Session` performs the same sections in
 place, and SessionRuns interleaves them.
 */
module Session {
  import opened Bytes
  import Ring

  /** A client connection. Every attach is handed a connection object of its own. */
  type Conn = nat

  const RING_CAPACITY: nat := 4 * 1024 * 1024

  /** The pump reads the terminal into a buffer of 32 KiB. */
  const READ_BUFFER: nat := 32 * 1024

  datatype Status = Idle | Running | Destroyed

  datatype Core = Core(
    status: Status,
    conn: Option<Conn>,
    epoch: nat,
    total: nat,
    replaySeq: nat,
    ring: Bytes)

  const FRESH: Core := Core(Idle, None, 0, 0, 0, [])

  // --- sections under mu -------------------------------------------------------

  function InstallCore(c: Core, conn: Conn): Core {
    c.(epoch := c.epoch + 1, conn := Some(conn), status := Running)
  }

  /** The end of an attach that was given epoch `mine`. */
  function FinishCore(c: Core, conn: Conn, mine: nat): Core {
    if c.status == Destroyed || c.epoch != mine then c
    else c.(status := Idle, conn := if c.conn == Some(conn) then None else c.conn)
  }

  /** Whether the finishing attach reports ErrSessionPreempted instead of its bridge error. */
  predicate FinishPreempted(c: Core, mine: nat) {
    c.status != Destroyed && c.epoch != mine
  }

  function DestroyCore(c: Core): Core {
    if c.status == Destroyed then c
    else c.(status := Destroyed, epoch := c.epoch + 1, conn := None)
  }

  // --- sections under outMu ----------------------------------------------------

  function SnapshotCore(c: Core): Core {
    c.(replaySeq := c.total)
  }

  function AppendCore(c: Core, chunk: Bytes): Core {
    c.(total := c.total + |chunk|, ring := Tail(c.ring + chunk, RING_CAPACITY))
  }

  /** Who receives a chunk that started at `start`: the connection in the slot, provided
      the chunk is not below the replay boundary. */
  function CaptureTarget(c: Core, start: nat): Option<Conn> {
    if start >= c.replaySeq then c.conn else None
  }

  class Session {
    var state: Status
    var conn: Option<Conn>
    var attachEpoch: nat
    var total: nat
    var replaySeq: nat
    const out: Ring.Ring
    /** Everything the terminal ever printed. */
    ghost var printed: Bytes

    ghost predicate Valid()
      reads this, out
    {
      && out.capacity == RING_CAPACITY
      && out.Valid()
      && out.b == Tail(printed, RING_CAPACITY)
      && total == |printed|
      && replaySeq <= total
    }

    ghost function View(): Core
      reads this, out
    {
      Core(state, conn, attachEpoch, total, replaySeq, out.b)
    }

    constructor ()
      ensures Valid() && fresh(out) && View() == FRESH && printed == []
    {
      state, conn, attachEpoch, total, replaySeq := Idle, None, 0, 0, 0;
      out := new Ring.Ring(RING_CAPACITY);
      printed := [];
    }

    /** First section of Attach: take the slot and return the token plus the connection
        that was thrown out of it. Fails exactly on a destroyed session. */
    method Install(c: Conn) returns (granted: Option<nat>, evicted: Option<Conn>)
      requires Valid()
      modifies this
      ensures Valid() && printed == old(printed)
      ensures granted.None? <==> old(state) == Destroyed
      ensures granted.None? ==> View() == old(View()) && evicted == None
      ensures granted.Some? ==>
        && View() == InstallCore(old(View()), c)
        && granted.value == attachEpoch
        && evicted == old(conn)
    {
      if state == Destroyed {
        return None, None;
      }
      evicted := conn;
      attachEpoch := attachEpoch + 1;
      conn := Some(c);
      state := Running;
      granted := Some(attachEpoch);
    }

    /** Last section of Attach. */
    method Finish(c: Conn, mine: nat) returns (preempted: bool)
      requires Valid()
      modifies this
      ensures Valid() && printed == old(printed)
      ensures View() == FinishCore(old(View()), c, mine)
      ensures preempted <==> FinishPreempted(old(View()), mine)
    {
      preempted := false;
      if state == Destroyed {
      } else if attachEpoch == mine {
        state := Idle;
        if conn == Some(c) {
          conn := None;
        }
      } else {
        preempted := true;
      }
    }

    /** Locked part of Destroy; `evicted` is the connection the caller still has to close. */
    method Destroy() returns (evicted: Option<Conn>)
      requires Valid()
      modifies this
      ensures Valid() && printed == old(printed)
      ensures View() == DestroyCore(old(View()))
      ensures evicted == if old(state) == Destroyed then None else old(conn)
    {
      if state == Destroyed {
        return None;
      }
      state := Destroyed;
      attachEpoch := attachEpoch + 1;
      evicted := conn;
      conn := None;
    }

    /** The replay snapshot bridge takes before it writes anything. */
    method TakeSnapshot() returns (snapshot: Bytes)
      requires Valid()
      modifies this
      ensures Valid() && printed == old(printed)
      ensures View() == SnapshotCore(old(View()))
      ensures snapshot == Tail(printed, RING_CAPACITY) && replaySeq == |printed|
    {
      replaySeq := total;
      snapshot := out.Snapshot();
    }

    /** The locked part of pumpChunk. The boundary test never rejects a chunk. */
    method PumpChunk(chunk: Bytes) returns (deliverTo: Option<Conn>)
      requires Valid()
      modifies this, out
      ensures Valid() && printed == old(printed) + chunk
      ensures View() == AppendCore(old(View()), chunk)
      ensures deliverTo == CaptureTarget(View(), old(total)) == conn
    {
      TailAppend(printed, chunk, RING_CAPACITY);
      var chunkStart := total;
      total := total + |chunk|;
      out.Write(chunk, printed);
      printed := printed + chunk;
      deliverTo := None;
      if chunkStart >= replaySeq {
        deliverTo := conn;
      }
    }
  }
}
