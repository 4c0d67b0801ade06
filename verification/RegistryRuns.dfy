/**
 Every run of the registry: any number of callers, with the three sections of each Destroy
 interleaved with everything else. The store starts with whatever records were kept from before.
 */
module RegistryRuns {
  import opened Bytes
  import opened Registry

  datatype Stage = Found | Closed | Over

  /** A Destroy call in progress, with the session its lookup found. */
  datatype Op = Op(id: Id, serial: nat, stage: Stage)

  datatype Sys = Sys(reg: Reg, ops: seq<Op>)

  datatype Ev =
    | Creates(id: Id, generated: Id, spec: Spec, dialOk: bool, now: int)
    | Finds(id: Id)
    | Closes(op: nat, ok: bool)
    | Deletes(op: nat)
    | Retitles(id: Id, title: string)
    | Sweeps(expired: set<Id>)
    | Exits(id: Id)

  /** The random generator never repeats an id that has a record. */
  predicate Enabled(s: Sys, e: Ev) {
    match e
    case Creates(id, generated, _, _, _) => id == "" ==> generated != "" && generated !in s.reg.store
    case Finds(id) => id in s.reg.sessions
    case Closes(i, _) => i < |s.ops| && s.ops[i].stage == Found
    case Deletes(i) => i < |s.ops| && s.ops[i].stage == Closed
    case _ => true
  }

  function Fire(cap: int, s: Sys, e: Ev): Sys
    requires Enabled(s, e)
  {
    match e
    case Creates(id, generated, spec, dialOk, now) => s.(reg := Create(s.reg, cap, id, generated, spec, dialOk, now))
    case Finds(id) => s.(ops := s.ops + [Op(id, s.reg.sessions[id].serial, Found)])
    case Closes(i, ok) =>
      Sys(MarkDestroyed(s.reg, s.ops[i].id, s.ops[i].serial), s.ops[i := s.ops[i].(stage := if ok then Closed else Over)])
    case Deletes(i) => Sys(Unregister(s.reg, s.ops[i].id), s.ops[i := s.ops[i].(stage := Over)])
    case Retitles(id, title) => s.(reg := Retitle(s.reg, id, title))
    case Sweeps(expired) => s.(reg := Sweep(s.reg, expired))
    case Exits(id) => s.(reg := ProcessExits(s.reg, id))
  }

  function Step(cap: int, s: Sys, e: Ev): Sys {
    if Enabled(s, e) then Fire(cap, s, e) else s
  }

  function Exec(cap: int, s: Sys, es: seq<Ev>): Sys {
    if es == [] then s else Step(cap, Exec(cap, s, es[..|es| - 1]), es[|es| - 1])
  }

  function Boot(store: map<Id, Record>): Sys {
    Sys(Reg(map[], store, []), [])
  }

  predicate Filed(store: map<Id, Record>) {
    forall id :: id in store ==> store[id].id == id
  }

  // --- what holds of every id -----------------------------------------------------------------------

  /** How many sessions were started under an id. */
  function Starts(started: seq<Id>, id: Id): nat {
    if started == [] then 0
    else Starts(started[..|started| - 1], id) + if started[|started| - 1] == id then 1 else 0
  }

  /** The run count a record had at boot; one less than zero before the first start. */
  function Base(store: map<Id, Record>, id: Id): int {
    if id in store then store[id].runCount else -1
  }

  predicate RecordOk(base: map<Id, Record>, reg: Reg, id: Id) {
    && (id in base ==> id in reg.store)
    && (id in reg.store ==>
          && reg.store[id].id == id
          && reg.store[id].runCount == Base(base, id) + Starts(reg.started, id))
    && (id !in reg.store ==> Starts(reg.started, id) == 0)
  }

  /** A registered session has a record with its spec, and is the newest one started under its id. */
  predicate SessionOk(reg: Reg, id: Id) {
    id in reg.sessions ==>
      && id in reg.store && reg.sessions[id].spec == reg.store[id].spec
      && reg.sessions[id].serial < |reg.started| && reg.started[reg.sessions[id].serial] == id
      && forall m :: reg.sessions[id].serial < m < |reg.started| ==> reg.started[m] != id
  }

  /** A Destroy that has closed its session leaves it marked for as long as it is registered. */
  predicate OpOk(reg: Reg, op: Op) {
    && op.serial < |reg.started| && reg.started[op.serial] == op.id
    && (op.stage == Closed && op.id in reg.sessions && reg.sessions[op.id].serial == op.serial ==>
          reg.sessions[op.id].destroyed)
  }

  ghost predicate Good(base: map<Id, Record>, cap: int, s: Sys) {
    && (cap > 0 ==> |s.reg.sessions| <= cap)
    && (forall id {:trigger RecordOk(base, s.reg, id)} :: RecordOk(base, s.reg, id))
    && (forall id {:trigger SessionOk(s.reg, id)} :: SessionOk(s.reg, id))
    && (forall i :: 0 <= i < |s.ops| ==> OpOk(s.reg, s.ops[i]))
  }

  lemma Fewer(a: map<Id, Live>, b: map<Id, Live>)
    requires a.Keys <= b.Keys
    ensures |a| <= |b|
  {
    KeysSubset(a.Keys, b.Keys);
    assert |a.Keys| == |a| && |b.Keys| == |b|;
  }

  lemma {:induction false} KeysSubset(a: set<Id>, b: set<Id>)
    requires a <= b
    ensures |a| <= |b|
    decreases |a|
  {
    if a != {} {
      var x :| x in a;
      KeysSubset(a - {x}, b - {x});
    }
  }

  lemma StartsSnoc(started: seq<Id>, key: Id, id: Id)
    ensures Starts(started + [key], id) == Starts(started, id) + if key == id then 1 else 0
  {
    assert (started + [key])[..|started|] == started;
  }

  lemma StartKeepsId(base: map<Id, Record>, reg: Reg, key: Id, recorded: bool, spec: Spec, now: int, id: Id)
    requires RecordOk(base, reg, id) && SessionOk(reg, id)
    requires recorded <==> key in reg.store
    ensures RecordOk(base, Start(reg, key, recorded, spec, now), id)
    ensures SessionOk(Start(reg, key, recorded, spec, now), id)
  {
    StartsSnoc(reg.started, key, id);
  }

  lemma CreateKeepsGood(base: map<Id, Record>, cap: int, s: Sys, e: Ev)
    requires Good(base, cap, s) && e.Creates? && Enabled(s, e)
    ensures Good(base, cap, Fire(cap, s, e))
  {
    var s' := Fire(cap, s, e);
    if CreateOutcome(s.reg, cap, e.id, e.spec, e.dialOk) == Created {
      var key := ChosenId(e.id, e.generated);
      forall id
        ensures RecordOk(base, s'.reg, id) && SessionOk(s'.reg, id)
      {
        StartKeepsId(base, s.reg, key, key in s.reg.store, e.spec, e.now, id);
      }
      forall i | 0 <= i < |s'.ops|
        ensures OpOk(s'.reg, s'.ops[i])
      {
        assert OpOk(s.reg, s.ops[i]);
      }
    }
  }

  /** Nothing but create touches what was started, and nothing but create and rename a record. */
  predicate OnlySessions(reg: Reg, reg': Reg) {
    && reg'.store == reg.store && reg'.started == reg.started
    && reg'.sessions.Keys <= reg.sessions.Keys
    && forall id :: id in reg'.sessions ==>
         && reg'.sessions[id].serial == reg.sessions[id].serial
         && reg'.sessions[id].spec == reg.sessions[id].spec
         && (reg.sessions[id].destroyed ==> reg'.sessions[id].destroyed)
  }

  lemma ShrinkKeepsGood(base: map<Id, Record>, cap: int, s: Sys, reg': Reg)
    requires Good(base, cap, s) && OnlySessions(s.reg, reg')
    ensures Good(base, cap, s.(reg := reg'))
  {
    Fewer(reg'.sessions, s.reg.sessions);
    forall id
      ensures RecordOk(base, reg', id) && SessionOk(reg', id)
    {
      assert RecordOk(base, s.reg, id) && SessionOk(s.reg, id);
    }
    forall i | 0 <= i < |s.ops|
      ensures OpOk(reg', s.ops[i])
    {
      assert OpOk(s.reg, s.ops[i]);
    }
  }

  lemma RetitleKeepsGood(base: map<Id, Record>, cap: int, s: Sys, id: Id, title: string)
    requires Good(base, cap, s)
    ensures Good(base, cap, s.(reg := Retitle(s.reg, id, title)))
  {
    var reg' := Retitle(s.reg, id, title);
    forall k
      ensures RecordOk(base, reg', k) && SessionOk(reg', k)
    {
      assert RecordOk(base, s.reg, k) && SessionOk(s.reg, k);
    }
    forall i | 0 <= i < |s.ops|
      ensures OpOk(reg', s.ops[i])
    {
      assert OpOk(s.reg, s.ops[i]);
    }
  }

  lemma CloseKeepsGood(base: map<Id, Record>, cap: int, s: Sys, i: nat, ok: bool)
    requires Good(base, cap, s) && Enabled(s, Closes(i, ok))
    ensures Good(base, cap, Fire(cap, s, Closes(i, ok)))
  {
    var s' := Fire(cap, s, Closes(i, ok));
    assert OpOk(s.reg, s.ops[i]);
    ShrinkKeepsGood(base, cap, s, s'.reg);
    forall j | 0 <= j < |s'.ops|
      ensures OpOk(s'.reg, s'.ops[j])
    {
      assert OpOk(s'.reg, s.ops[j]);
    }
  }

  lemma DeleteKeepsGood(base: map<Id, Record>, cap: int, s: Sys, i: nat)
    requires Good(base, cap, s) && Enabled(s, Deletes(i))
    ensures Good(base, cap, Fire(cap, s, Deletes(i)))
  {
    var s' := Fire(cap, s, Deletes(i));
    ShrinkKeepsGood(base, cap, s, s'.reg);
    forall j | 0 <= j < |s'.ops|
      ensures OpOk(s'.reg, s'.ops[j])
    {
      assert OpOk(s'.reg, s.ops[j]);
    }
  }

  lemma StepKeepsGood(base: map<Id, Record>, cap: int, s: Sys, e: Ev)
    requires Good(base, cap, s)
    ensures Good(base, cap, Step(cap, s, e))
  {
    if Enabled(s, e) {
      match e
      case Creates(_, _, _, _, _) => CreateKeepsGood(base, cap, s, e);
      case Finds(id) => assert SessionOk(s.reg, id);
      case Closes(i, ok) => CloseKeepsGood(base, cap, s, i, ok);
      case Deletes(i) => DeleteKeepsGood(base, cap, s, i);
      case Retitles(id, title) => RetitleKeepsGood(base, cap, s, id, title);
      case Sweeps(_) => ShrinkKeepsGood(base, cap, s, Fire(cap, s, e).reg);
      case Exits(_) => ShrinkKeepsGood(base, cap, s, Fire(cap, s, e).reg);
    }
  }

  lemma {:induction false} RunKeepsGood(base: map<Id, Record>, cap: int, s: Sys, es: seq<Ev>)
    requires Good(base, cap, s)
    ensures Good(base, cap, Exec(cap, s, es))
    decreases |es|
  {
    if es != [] {
      RunKeepsGood(base, cap, s, es[..|es| - 1]);
      StepKeepsGood(base, cap, Exec(cap, s, es[..|es| - 1]), es[|es| - 1]);
    }
  }

  /**
   Over every run from any kept store: the number of registered sessions respects a positive cap,
   every registered id has a record with the same spec, and a record's run count is what it was at
   boot plus the number of sessions started since (less the first, if that one made the record).
   */
  lemma RegistryInvariants(base: map<Id, Record>, cap: int, es: seq<Ev>)
    requires Filed(base)
    ensures var reg := Exec(cap, Boot(base), es).reg;
            && (cap > 0 ==> |reg.sessions| <= cap)
            && Filed(reg.store)
            && (forall id :: id in reg.sessions ==> id in reg.store && reg.sessions[id].spec == reg.store[id].spec)
            && (forall id :: id in reg.store ==> reg.store[id].runCount == Base(base, id) + Starts(reg.started, id))
  {
    assert Good(base, cap, Boot(base));
    RunKeepsGood(base, cap, Boot(base), es);
    var reg := Exec(cap, Boot(base), es).reg;
    forall id | id in reg.sessions
      ensures id in reg.store && reg.sessions[id].spec == reg.store[id].spec
    {
      assert SessionOk(reg, id);
    }
    forall id | id in reg.store
      ensures reg.store[id].id == id && reg.store[id].runCount == Base(base, id) + Starts(reg.started, id)
    {
      assert RecordOk(base, reg, id);
    }
  }

  // --- one record over time ----------------------------------------------------------------------------

  /** The last title given to an id in a run, or `t` if none was. */
  function LastTitle(es: seq<Ev>, id: Id, t: string): string {
    if es == [] then t
    else if es[|es| - 1].Retitles? && es[|es| - 1].id == id then es[|es| - 1].title
    else LastTitle(es[..|es| - 1], id, t)
  }

  lemma CreateKeepsRecord(cap: int, s: Sys, e: Ev, id: Id)
    requires id in s.reg.store && e.Creates? && Enabled(s, e)
    ensures var r, reg := s.reg.store[id], Fire(cap, s, e).reg;
            && id in reg.store && reg.store[id].spec == r.spec && reg.store[id].createdAt == r.createdAt
            && reg.store[id].title == r.title
            && reg.store[id].runCount - r.runCount == Starts(reg.started, id) - Starts(s.reg.started, id)
  {
    StartsSnoc(s.reg.started, ChosenId(e.id, e.generated), id);
  }

  lemma StepKeepsRecord(cap: int, s: Sys, e: Ev, id: Id)
    requires id in s.reg.store
    ensures var r, reg := s.reg.store[id], Step(cap, s, e).reg;
            && id in reg.store && reg.store[id].spec == r.spec && reg.store[id].createdAt == r.createdAt
            && reg.store[id].title == (if e.Retitles? && e.id == id then e.title else r.title)
            && reg.store[id].runCount - r.runCount == Starts(reg.started, id) - Starts(s.reg.started, id)
  {
    if Enabled(s, e) {
      if e.Creates? {
        CreateKeepsRecord(cap, s, e, id);
      } else {
        assert Fire(cap, s, e).reg.started == s.reg.started;
      }
    }
  }

  /**
   From the moment a record exists, whatever happens: it stays, its spec and creation time never
   change, its title is the last one set, and its run count grows by one per session started under
   its id and by nothing else.
   */
  lemma {:induction false} RecordsAreStable(cap: int, s: Sys, es: seq<Ev>, id: Id)
    requires id in s.reg.store
    ensures var r, reg := s.reg.store[id], Exec(cap, s, es).reg;
            && id in reg.store && reg.store[id].spec == r.spec && reg.store[id].createdAt == r.createdAt
            && reg.store[id].title == LastTitle(es, id, r.title)
            && reg.store[id].runCount - r.runCount == Starts(reg.started, id) - Starts(s.reg.started, id)
    decreases |es|
  {
    if es != [] {
      RecordsAreStable(cap, s, es[..|es| - 1], id);
      StepKeepsRecord(cap, Exec(cap, s, es[..|es| - 1]), es[|es| - 1], id);
    }
  }

  // --- what each request achieves ---------------------------------------------------------------------

  /** There is room for one more session. */
  predicate HasRoom(reg: Reg, cap: int) {
    cap <= 0 || |reg.sessions| < cap
  }

  /** A new session is registered under `key` for `spec`, and nothing else changed. */
  predicate StartedUnder(reg: Reg, reg': Reg, key: Id, spec: Spec, record: Record) {
    && reg'.sessions == reg.sessions[key := Live(|reg.started|, spec, "", false, false)]
    && reg'.store == reg.store[key := record] && reg'.started == reg.started + [key]
  }

  /** In every run: an id with a record, not alive and with room, is resurrected when the dial succeeds, for
      the recorded host whatever host the request names, even none. Title and creation time stay, and the
      run count is one higher. */
  lemma ResurrectsRecorded(base: map<Id, Record>, cap: int, es: seq<Ev>, id: Id, generated: Id, spec: Spec, now: int)
    requires var reg := Exec(cap, Boot(base), es).reg;
      id != "" && id in reg.store && !(id in reg.sessions && !reg.sessions[id].exited) && HasRoom(reg, cap)
    ensures var reg, reg' := Exec(cap, Boot(base), es).reg, Exec(cap, Boot(base), es + [Creates(id, generated, spec, true, now)]).reg;
      var r := reg.store[id];
      StartedUnder(reg, reg', id, r.spec, Record(id, r.spec, r.title, r.createdAt, r.runCount + 1))
  {
    ExecSnoc(cap, Boot(base), es, Creates(id, generated, spec, true, now));
  }

  /** In every run: an id without a record, or a generated one, starts a session for the host the request
      names if there is one, with room and a good dial; its record is new. */
  lemma StartsFresh(base: map<Id, Record>, cap: int, es: seq<Ev>, id: Id, generated: Id, spec: Spec, now: int)
    requires Filed(base)
    requires var reg := Exec(cap, Boot(base), es).reg;
      var key := if id == "" then generated else id;
      key != "" && key !in reg.store && HasRoom(reg, cap) && spec.host != ""
    ensures var reg, reg' := Exec(cap, Boot(base), es).reg, Exec(cap, Boot(base), es + [Creates(id, generated, spec, true, now)]).reg;
      var key := if id == "" then generated else id;
      StartedUnder(reg, reg', key, spec, Record(key, spec, "", now, 0))
  {
    RegistryInvariants(base, cap, es);
    ExecSnoc(cap, Boot(base), es, Creates(id, generated, spec, true, now));
  }

  /** And in every other case nothing is started: the id is alive, there is no room, the dial failed, or
      there is neither a record nor a host. */
  lemma StartsNothing(base: map<Id, Record>, cap: int, es: seq<Ev>, e: Ev)
    requires e.Creates?
    requires var reg := Exec(cap, Boot(base), es).reg;
      || (e.id != "" && e.id in reg.sessions && !reg.sessions[e.id].exited)
      || !HasRoom(reg, cap) || !e.dialOk
      || ((e.id == "" || e.id !in reg.store) && e.spec.host == "")
    ensures Exec(cap, Boot(base), es + [e]).reg == Exec(cap, Boot(base), es).reg
  {
    ExecSnoc(cap, Boot(base), es, e);
  }

  /** In every run, a sweep leaves exactly the sessions that have not exited, were not destroyed and were
      not found idle for too long, each as it was, and no record changes. */
  lemma SweepLeaves(base: map<Id, Record>, cap: int, es: seq<Ev>, expired: set<Id>, id: Id)
    ensures var reg, reg' := Exec(cap, Boot(base), es).reg, Exec(cap, Boot(base), es + [Sweeps(expired)]).reg;
      && (id in reg'.sessions <==>
            id in reg.sessions && !reg.sessions[id].exited && !reg.sessions[id].destroyed && id !in expired)
      && (id in reg'.sessions ==> reg'.sessions[id] == reg.sessions[id])
      && reg'.store == reg.store && reg'.started == reg.started
  {
    ExecSnoc(cap, Boot(base), es, Sweeps(expired));
  }

  /** In every run, a Destroy that finds a session, and is not overtaken, closes it and takes it out of the
      registry; its record stays. */
  lemma DestroyRemoves(base: map<Id, Record>, cap: int, es: seq<Ev>, id: Id)
    requires id in Exec(cap, Boot(base), es).reg.sessions
    ensures var s := Exec(cap, Boot(base), es); var n := |s.ops|;
      var m := Exec(cap, Boot(base), ((es + [Finds(id)]) + [Closes(n, true)]) + [Deletes(n)]);
      m.reg.sessions == s.reg.sessions - {id} && m.reg.store == s.reg.store
    ensures var s := Exec(cap, Boot(base), es); var n := |s.ops|;
      var m := Exec(cap, Boot(base), (es + [Finds(id)]) + [Closes(n, true)]);
      id in m.reg.sessions && m.reg.sessions[id] == s.reg.sessions[id].(destroyed := true)
  {
    var s := Exec(cap, Boot(base), es);
    var n := |s.ops|;
    ExecSnoc(cap, Boot(base), es, Finds(id));
    ExecSnoc(cap, Boot(base), es + [Finds(id)], Closes(n, true));
    ExecSnoc(cap, Boot(base), (es + [Finds(id)]) + [Closes(n, true)], Deletes(n));
    var s1 := Exec(cap, Boot(base), es + [Finds(id)]);
    assert s1.ops[n] == Op(id, s.reg.sessions[id].serial, Found);
    var s2 := Exec(cap, Boot(base), (es + [Finds(id)]) + [Closes(n, true)]);
    assert s2.ops[n].stage == Closed && s2.ops[n].id == id;
  }

  // --- where code and intent part --------------------------------------------------------------------

  /** The ids whose session is registered and has not exited. */
  function AliveIds(reg: Reg): set<Id> {
    set id | id in reg.sessions && !reg.sessions[id].exited
  }

  predicate HasExited(reg: Reg) {
    exists id :: id in reg.sessions && reg.sessions[id].exited
  }

  lemma ExitedTakeRoom(reg: Reg)
    ensures |AliveIds(reg)| <= |reg.sessions|
    ensures |AliveIds(reg)| < |reg.sessions| <==> HasExited(reg)
  {
    var keys := reg.sessions.Keys;
    KeysSubset(AliveIds(reg), keys);
    if HasExited(reg) {
      var id :| id in reg.sessions && reg.sessions[id].exited;
      KeysSubset(AliveIds(reg), keys - {id});
    } else {
      assert AliveIds(reg) == keys;
    }
  }

  /** Exited sessions count against the cap until a sweep. In every run, a create is refused although
      fewer sessions than the cap are alive exactly when its own session is not alive, the registry
      is full, and some registered session, perhaps its own, has exited. */
  lemma RefusedBelowCapIff(base: map<Id, Record>, cap: int, es: seq<Ev>, id: Id, spec: Spec, dialOk: bool)
    requires Filed(base)
    ensures var reg := Exec(cap, Boot(base), es).reg;
            (CreateOutcome(reg, cap, id, spec, dialOk) == TooMany && |AliveIds(reg)| < cap)
            <==> (cap > 0 && !Alive(reg, id) && |reg.sessions| == cap && HasExited(reg))
  {
    RegistryInvariants(base, cap, es);
    ExitedTakeRoom(Exec(cap, Boot(base), es).reg);
  }

  /** The last section of a Destroy takes away a session nobody destroyed exactly when a newer
      session has been registered under the id since the lookup and is still undestroyed. */
  lemma DeleteHitsNewerIff(base: map<Id, Record>, cap: int, es: seq<Ev>, i: nat)
    requires Filed(base)
    requires var s := Exec(cap, Boot(base), es); i < |s.ops| && s.ops[i].stage == Closed
    ensures var s := Exec(cap, Boot(base), es);
            var op, s' := s.ops[i], Step(cap, s, Deletes(i));
            (exists k :: k in s.reg.sessions && !s.reg.sessions[k].destroyed && k !in s'.reg.sessions)
            <==> (&& op.id in s.reg.sessions && !s.reg.sessions[op.id].destroyed
                  && s.reg.sessions[op.id].serial > op.serial)
  {
    assert Good(base, cap, Boot(base));
    RunKeepsGood(base, cap, Boot(base), es);
    var s := Exec(cap, Boot(base), es);
    var op := s.ops[i];
    assert OpOk(s.reg, op) && SessionOk(s.reg, op.id);
  }

  /** A re-created session starts without its title: it shows the record's title exactly when it was
      renamed since, or the record has none. */
  predicate TitleOk(reg: Reg, id: Id, renamed: bool) {
    id in reg.sessions && id in reg.store ==>
      reg.sessions[id].title == if renamed then reg.store[id].title else ""
  }

  /** Whether the session now registered under an id was renamed since it was started. */
  function Renamed(cap: int, s: Sys, es: seq<Ev>, id: Id): bool {
    if es == [] then false
    else
      var before, e := Exec(cap, s, es[..|es| - 1]), es[|es| - 1];
      if e.Retitles? && e.id == id then true
      else if Starts(Step(cap, before, e).reg.started, id) > Starts(before.reg.started, id) then false
      else Renamed(cap, s, es[..|es| - 1], id)
  }

  lemma CreateKeepsTitle(cap: int, s: Sys, e: Ev, id: Id, renamed: bool)
    requires SessionOk(s.reg, id) && TitleOk(s.reg, id, renamed) && e.Creates? && Enabled(s, e)
    ensures var s' := Fire(cap, s, e);
            TitleOk(s'.reg, id, if Starts(s'.reg.started, id) > Starts(s.reg.started, id) then false else renamed)
  {
    StartsSnoc(s.reg.started, ChosenId(e.id, e.generated), id);
  }

  lemma StepKeepsTitle(base: map<Id, Record>, cap: int, s: Sys, e: Ev, id: Id, renamed: bool)
    requires Good(base, cap, s) && TitleOk(s.reg, id, renamed)
    ensures var s' := Step(cap, s, e);
            var renamed' := if e.Retitles? && e.id == id then true
                            else if Starts(s'.reg.started, id) > Starts(s.reg.started, id) then false
                            else renamed;
            TitleOk(s'.reg, id, renamed')
  {
    assert SessionOk(s.reg, id);
    if Enabled(s, e) {
      if e.Creates? {
        CreateKeepsTitle(cap, s, e, id, renamed);
      } else {
        assert Fire(cap, s, e).reg.started == s.reg.started;
      }
    }
  }

  lemma {:induction false} LiveTitle(base: map<Id, Record>, cap: int, es: seq<Ev>, id: Id)
    requires Filed(base)
    ensures TitleOk(Exec(cap, Boot(base), es).reg, id, Renamed(cap, Boot(base), es, id))
    decreases |es|
  {
    if es != [] {
      var es0 := es[..|es| - 1];
      LiveTitle(base, cap, es0, id);
      assert Good(base, cap, Boot(base));
      RunKeepsGood(base, cap, Boot(base), es0);
      StepKeepsTitle(base, cap, Exec(cap, Boot(base), es0), es[|es| - 1], id, Renamed(cap, Boot(base), es0, id));
    }
  }

  /** So the session's own title and the record's agree exactly in those cases. */
  lemma LiveTitleAgreesIff(base: map<Id, Record>, cap: int, es: seq<Ev>, id: Id)
    requires Filed(base) && id in Exec(cap, Boot(base), es).reg.sessions
    ensures var reg := Exec(cap, Boot(base), es).reg;
            && id in reg.store
            && (reg.sessions[id].title == reg.store[id].title
                <==> Renamed(cap, Boot(base), es, id) || reg.store[id].title == "")
  {
    RegistryInvariants(base, cap, es);
    LiveTitle(base, cap, es, id);
  }

  lemma ExecSnoc(cap: int, s: Sys, es: seq<Ev>, e: Ev)
    ensures Exec(cap, s, es + [e]) == Step(cap, Exec(cap, s, es), e)
  {
    assert (es + [e])[..|es|] == es;
  }

  const HOST: Spec := Spec("h", "", "", "")

  /** A titled record, re-created: the session shows no title. */
  lemma TitlesCanDiffer()
    ensures var base := map["a" := Record("a", HOST, "t", 0, 0)];
            var reg := Exec(0, Boot(base), [Creates("a", "", HOST, true, 0)]).reg;
            "a" in reg.sessions && "a" in reg.store && reg.sessions["a"].title != reg.store["a"].title
  {
    var base := map["a" := Record("a", HOST, "t", 0, 0)];
    ExecSnoc(0, Boot(base), [], Creates("a", "", HOST, true, 0));
    assert [] + [Creates("a", "", HOST, true, 0)] == [Creates("a", "", HOST, true, 0)];
  }

  const AGAIN: Ev := Creates("a", "", HOST, true, 0)

  /** With room for one session: it exits, and its own id is refused although nothing is alive. */
  lemma ExitedBlocksOwnId()
    ensures var reg := Exec(1, Boot(map[]), [AGAIN, Exits("a")]).reg;
            && AliveIds(reg) == {} && CreateOutcome(reg, 1, "a", HOST, true) == TooMany
  {
    var s := Boot(map[]);
    ExecSnoc(1, s, [], AGAIN);
    assert [] + [AGAIN] == [AGAIN];
    var s1 := Exec(1, s, [AGAIN]);
    assert s1.reg.sessions == map["a" := Live(0, HOST, "", false, false)];
    ExecSnoc(1, s, [AGAIN], Exits("a"));
    assert [AGAIN] + [Exits("a")] == [AGAIN, Exits("a")];
    var reg := Exec(1, s, [AGAIN, Exits("a")]).reg;
    assert reg.sessions == map["a" := Live(0, HOST, "", true, false)];
    assert |reg.sessions| == 1;
  }

  /** A Destroy that has closed its session, which has exited since. */
  lemma ClosedAndExited()
    ensures var s := Exec(0, Boot(map[]), [AGAIN, Finds("a"), Closes(0, true), Exits("a")]);
            && s.ops == [Op("a", 0, Closed)] && s.reg.started == ["a"]
            && s.reg.sessions == map["a" := Live(0, HOST, "", true, true)]
            && s.reg.store == map["a" := Record("a", HOST, "", 0, 0)]
  {
    var s := Boot(map[]);
    ExecSnoc(0, s, [], AGAIN);
    assert [] + [AGAIN] == [AGAIN];
    assert Exec(0, s, [AGAIN]) == Sys(Reg(map["a" := Live(0, HOST, "", false, false)], map["a" := Record("a", HOST, "", 0, 0)], ["a"]), []);
    ExecSnoc(0, s, [AGAIN], Finds("a"));
    assert [AGAIN] + [Finds("a")] == [AGAIN, Finds("a")];
    ExecSnoc(0, s, [AGAIN, Finds("a")], Closes(0, true));
    assert [AGAIN, Finds("a")] + [Closes(0, true)] == [AGAIN, Finds("a"), Closes(0, true)];
    ExecSnoc(0, s, [AGAIN, Finds("a"), Closes(0, true)], Exits("a"));
    assert [AGAIN, Finds("a"), Closes(0, true)] + [Exits("a")] == [AGAIN, Finds("a"), Closes(0, true), Exits("a")];
  }

  /** Destroy, overtaken between its sections by an exit and a re-creation, unregisters the new session. */
  lemma DestroyCanHitNewer()
    ensures var before := Exec(0, Boot(map[]), [AGAIN, Finds("a"), Closes(0, true), Exits("a"), AGAIN]);
            var after := Step(0, before, Deletes(0));
            && "a" in before.reg.sessions && !before.reg.sessions["a"].destroyed && !before.reg.sessions["a"].exited
            && "a" !in after.reg.sessions
  {
    ClosedAndExited();
    var es := [AGAIN, Finds("a"), Closes(0, true), Exits("a")];
    ExecSnoc(0, Boot(map[]), es, AGAIN);
    assert es + [AGAIN] == [AGAIN, Finds("a"), Closes(0, true), Exits("a"), AGAIN];
  }
}
