/**
 The session registry and its records (internal/session/manager.go). One step per section that
 holds the manager's lock; Destroy is three steps, because it closes the session between two locked
 sections.
 */
module Registry {
  import opened Bytes

  type Id = string

  datatype Spec = Spec(host: string, name: string, addr: string, user: string)

  datatype Record = Record(id: Id, spec: Spec, title: string, createdAt: int, runCount: int)

  /** A session in the registry; `serial` tells apart sessions that used the same id. */
  datatype Live = Live(serial: nat, spec: Spec, title: string, exited: bool, destroyed: bool)

  /** `started` lists the id of every session ever started; a session's serial is its place there. */
  datatype Reg = Reg(sessions: map<Id, Live>, store: map<Id, Record>, started: seq<Id>)

  datatype Outcome = Existing | Created | TooMany | NoHost | DialFailed

  // --- the locked sections ---------------------------------------------------------------------

  predicate Alive(reg: Reg, id: Id) {
    id != "" && id in reg.sessions && !reg.sessions[id].exited
  }

  /** The id a create request ends up with; `generated` is what the random generator returned. */
  function ChosenId(id: Id, generated: Id): Id {
    if id == "" then generated else id
  }

  function CreateOutcome(reg: Reg, cap: int, id: Id, spec: Spec, dialOk: bool): Outcome {
    if Alive(reg, id) then Existing
    else if cap > 0 && |reg.sessions| >= cap then TooMany
    else if !(id != "" && id in reg.store) && spec.host == "" then NoHost
    else if !dialOk then DialFailed
    else Created
  }

  /** The record and the session that a successful create leaves under `key`. */
  function Start(reg: Reg, key: Id, recorded: bool, spec: Spec, now: int): Reg
    requires recorded ==> key in reg.store
  {
    var sp := if recorded then reg.store[key].spec else spec;
    var record :=
      if recorded then Record(key, sp, reg.store[key].title, reg.store[key].createdAt, reg.store[key].runCount + 1)
      else Record(key, sp, "", now, 0);
    Reg(reg.sessions[key := Live(|reg.started|, sp, "", false, false)], reg.store[key := record], reg.started + [key])
  }

  function Create(reg: Reg, cap: int, id: Id, generated: Id, spec: Spec, dialOk: bool, now: int): Reg {
    if CreateOutcome(reg, cap, id, spec, dialOk) != Created then reg
    else Start(reg, ChosenId(id, generated), id != "" && id in reg.store, spec, now)
  }

  function Retitle(reg: Reg, id: Id, title: string): Reg {
    var sessions := if id in reg.sessions then reg.sessions[id := reg.sessions[id].(title := title)] else reg.sessions;
    var store := if id in reg.store then reg.store[id := reg.store[id].(title := title)] else reg.store;
    reg.(sessions := sessions, store := store)
  }

  /** Destroyed or exited sessions go, and so do those found idle for too long. */
  predicate Gone(l: Live, expired: bool) {
    l.destroyed || l.exited || expired
  }

  function Sweep(reg: Reg, expired: set<Id>): Reg {
    reg.(sessions := map id | id in reg.sessions && !Gone(reg.sessions[id], id in expired) :: reg.sessions[id])
  }

  /** The session with this serial, if it is still the one registered, is now destroyed. */
  function MarkDestroyed(reg: Reg, id: Id, serial: nat): Reg {
    if id in reg.sessions && reg.sessions[id].serial == serial
    then reg.(sessions := reg.sessions[id := reg.sessions[id].(destroyed := true)])
    else reg
  }

  /** Whatever session is registered under the id now. */
  function Unregister(reg: Reg, id: Id): Reg {
    reg.(sessions := reg.sessions - {id})
  }

  function ProcessExits(reg: Reg, id: Id): Reg {
    if id in reg.sessions then reg.(sessions := reg.sessions[id := reg.sessions[id].(exited := true)]) else reg
  }

  // --- the manager -------------------------------------------------------------------------------

  class Manager {
    const cap: int
    var sessions: map<Id, Live>
    var store: map<Id, Record>
    var started: seq<Id>

    ghost function View(): Reg
      reads this
    {
      Reg(sessions, store, started)
    }

    /** Records are filed under their own id. */
    ghost predicate Valid()
      reads this
    {
      forall id :: id in store ==> store[id].id == id
    }

    constructor (cap: int)
      ensures Valid() && this.cap == cap && View() == Reg(map[], map[], [])
    {
      this.cap := cap;
      sessions, store, started := map[], map[], [];
    }

    method CreateWithID(id: Id, spec: Spec, generated: Id, dialOk: bool, now: int) returns (outcome: Outcome)
      requires Valid()
      modifies this
      ensures Valid()
      ensures outcome == CreateOutcome(old(View()), cap, id, spec, dialOk)
      ensures View() == Create(old(View()), cap, id, generated, spec, dialOk, now)
    {
      if id != "" && id in sessions && !sessions[id].exited {
        return Existing;
      }
      if cap > 0 && |sessions| >= cap {
        return TooMany;
      }
      var recorded := false;
      var key, sp := id, spec;
      if id != "" && id in store {
        sp := store[id].spec;
        recorded := true;
      }
      if key == "" {
        key := generated;
      }
      if !recorded && sp.host == "" {
        return NoHost;
      }
      if !dialOk {
        return DialFailed;
      }
      sessions := sessions[key := Live(|started|, sp, "", false, false)];
      started := started + [key];
      var meta := Record(key, sp, "", now, 0);
      if recorded {
        meta := Record(key, sp, store[id].title, store[id].createdAt, store[id].runCount + 1);
      }
      store := store[key := meta];
      return Created;
    }

    /** Destroy, first section: find the session. */
    method Lookup(id: Id) returns (found: Option<Live>)
      ensures found.Some? <==> id in sessions
      ensures found.Some? ==> found.value == sessions[id]
    {
      if id in sessions {
        return Some(sessions[id]);
      }
      return None;
    }

    /** Destroy, last section: delete by id, whatever session has it now. */
    method Delete(id: Id)
      requires Valid()
      modifies this`sessions
      ensures Valid() && View() == Unregister(old(View()), id)
    {
      sessions := sessions - {id};
    }

    /** The search in UpdateTitle goes through all records, in no particular order. */
    method UpdateTitle(id: Id, title: string) returns (found: bool)
      requires Valid()
      modifies this`sessions, this`store
      ensures Valid() && View() == Retitle(old(View()), id, title)
      ensures found <==> id in old(store)
    {
      if id in sessions {
        sessions := sessions[id := sessions[id].(title := title)];
      }
      var keys := store.Keys;
      while keys != {}
        invariant keys <= store.Keys && store == old(store) && (id in store ==> id in keys)
        decreases |keys|
      {
        var k :| k in keys;
        keys := keys - {k};
        var meta := store[k];
        if meta.id != id {
          continue;
        }
        store := store[id := meta.(title := title)];
        return true;
      }
      return false;
    }

    /** The sweep deletes from the map while going through it. */
    method DestroyExpired(expired: set<Id>)
      requires Valid()
      modifies this`sessions
      ensures Valid() && View() == Sweep(old(View()), expired)
    {
      var keys := sessions.Keys;
      while keys != {}
        invariant keys <= sessions.Keys
        invariant forall id :: id in sessions ==> id in old(sessions) && sessions[id] == old(sessions)[id]
        invariant forall id :: id in old(sessions) && id !in keys ==>
                    (id in sessions <==> !Gone(old(sessions)[id], id in expired))
        invariant forall id :: id in old(sessions) && id in keys ==> id in sessions
        decreases |keys|
      {
        var id :| id in keys;
        keys := keys - {id};
        var s := sessions[id];
        if s.destroyed || s.exited {
          sessions := sessions - {id};
        } else if id in expired {
          sessions := sessions - {id};
        }
      }
    }

    /** The records of sessions that were not registered when `alive` was taken: each exactly once. */
    method History(alive: set<Id>) returns (history: seq<Record>)
      requires Valid()
      ensures forall r :: r in history <==> (r.id in store && r == store[r.id] && r.id !in alive)
      ensures forall i, j :: 0 <= i < j < |history| ==> history[i].id != history[j].id
    {
      history := [];
      var keys := store.Keys;
      while keys != {}
        invariant keys <= store.Keys
        invariant forall r :: r in history <==> (r.id in store && r == store[r.id] && r.id !in alive && r.id !in keys)
        invariant forall i, j :: 0 <= i < j < |history| ==> history[i].id != history[j].id
        decreases |keys|
      {
        var k :| k in keys;
        keys := keys - {k};
        if k !in alive {
          assert forall i :: 0 <= i < |history| ==> history[i] in history;
          history := history + [store[k]];
        }
      }
    }
  }
}
