/** The bounded output buffer of a session (internal/session/ring.go). */
module Ring {
  import opened Bytes

  class Ring {
    const capacity: nat
    var b: Bytes

    ghost predicate Valid()
      reads this
    {
      |b| <= capacity
    }

    constructor (capacity: nat)
      ensures Valid() && this.capacity == capacity && b == []
    {
      this.capacity := capacity;
      b := [];
    }

    /** After every write the buffer is the tail of everything it was ever given. */
    method Write(p: Bytes, ghost history: Bytes)
      requires Valid()
      requires b == Tail(history, capacity)
      modifies this
      ensures Valid()
      ensures b == Tail(history + p, capacity)
    {
      TailAppend(history, p, capacity);
      if |p| >= capacity {
        b := p[|p| - capacity..];
        return;
      }
      b := b + p;
      if |b| > capacity {
        var n := |b| - capacity;
        b := b[n..];
      }
    }

    method Snapshot() returns (copy: Bytes)
      requires Valid()
      ensures copy == b
    {
      copy := b;
    }
  }
}
