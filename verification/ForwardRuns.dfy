/**
 All interleavings of the forward manager (internal/api/forward_host.go): API calls, the
 background supervisors, configuration changes, dial results and connection deaths.

 A caller keeps the host state it got from `state` for as long as it likes, so the locked
 sections of ensure, resume and reconcile are enabled on every host state ever created,
 released or not. Release is two sections: taking the state out of the index, and tearing
 it down.
 */
module ForwardRuns {
  import opened Bytes
  import opened Forwards

  datatype Adopter = BySupervisor | ByEnsure

  /** One successful dial. `late`: it was installed after its state's stop channel had been
      closed. `exposed`: when it was installed, a supervisor of its state was still waiting
      for an earlier connection to die. */
  datatype Dial = Dial(
    host: nat,
    holder: nat,
    adopter: Option<Adopter>,
    late: bool,
    exposed: bool,
    closes: nat,
    dead: bool)

  datatype Where = Top | Looking | Dialling | Dialled(dial: nat) | Watching(dial: nat) | Sleeping | Exited

  datatype Super = Super(host: nat, at: Where, backoff: nat)

  datatype Sleep = Sleep(who: nat, length: nat)

  datatype Place = Place(host: nat, key: Key)

  datatype Sys = Sys(
    base: nat,
    cap: nat,
    hosts: map<nat, Host>,
    index: map<string, nat>,
    taken: set<nat>,                 // removed from the index, not torn down yet
    specs: map<string, seq<Forward>>,
    supers: map<nat, Super>,
    keeper: map<nat, nat>,           // the supervisor last started for a host state
    dials: map<nat, Dial>,
    home: map<nat, Place>,           // where each launched entry was put
    cancels: map<nat, nat>,          // how often each launched entry was cancelled
    sleeps: seq<Sleep>,
    last: map<nat, seq<Forward>>,    // the configuration each host state last reconciled with
    nextHost: nat,
    nextSuper: nat,
    nextDial: nat,
    nextEntry: nat)

  datatype Event =
    | Configure(name: string, want: seq<Forward>)
    | Lookup(name: string)
    | ResumeLocked(host: nat)
    | EnsureFails(host: nat)
    | EnsureConnects(host: nat, oks: set<nat>)
    | ReconcileLocked(host: nat, oks: set<nat>)
    | ReleaseTake(name: string)
    | ReleaseLocked(host: nat)
    | SuperTop(who: nat)
    | SuperLook(who: nat)
    | SuperDialFails(who: nat)
    | SuperDialOk(who: nat)
    | SuperAdopt(who: nat, oks: set<nat>)
    | SuperLost(who: nat)
    | SuperStopped(who: nat)
    | SuperWake(who: nat)

  /** Unset or negative durations take the defaults of one and thirty seconds. */
  function Init(baseMillis: int, capMillis: int): Sys {
    Sys(if baseMillis <= 0 then 1000 else baseMillis, if capMillis <= 0 then 30000 else capMillis,
        map[], map[], {}, map[], map[], map[], map[], map[], map[], [], map[], 0, 0, 0, 0)
  }

  predicate Stopped(s: Sys, h: nat)
    requires h in s.hosts
  {
    s.hosts[h].stops > 0
  }

  function SpecsOf(s: Sys, h: nat): seq<Forward>
    requires h in s.hosts
  {
    if s.hosts[h].name in s.specs then s.specs[s.hosts[h].name] else []
  }

  predicate HasEnabled(want: seq<Forward>) {
    exists i :: 0 <= i < |want| && IsEnabled(want[i])
  }

  predicate SuperAt(s: Sys, i: nat, w: Where) {
    i in s.supers && s.supers[i].at == w && s.supers[i].host in s.hosts
  }

  /** ensure asks whether anything is enabled before it takes the lock; the configuration may change in
      between, so its locked sections are not guarded by it. */
  predicate Enabled(s: Sys, e: Event) {
    match e
    case Configure(_, _) => true
    case Lookup(name) => name !in s.index
    case ResumeLocked(h) => h in s.hosts && !s.hosts[h].supervising && HasEnabled(SpecsOf(s, h))
    case EnsureFails(h) => h in s.hosts && s.hosts[h].dial.None?
    case EnsureConnects(h, _) => h in s.hosts && s.hosts[h].dial.None?
    case ReconcileLocked(h, _) => h in s.hosts && s.hosts[h].dial.Some?
    case ReleaseTake(name) => name in s.index
    case ReleaseLocked(h) => h in s.taken && h in s.hosts
    case SuperTop(i) => SuperAt(s, i, Top)
    case SuperLook(i) => SuperAt(s, i, Looking)
    case SuperDialFails(i) => SuperAt(s, i, Dialling)
    case SuperDialOk(i) => SuperAt(s, i, Dialling)
    case SuperAdopt(i, _) => i in s.supers && s.supers[i].at.Dialled? && s.supers[i].host in s.hosts && s.supers[i].at.dial in s.dials
    case SuperLost(i) => i in s.supers && s.supers[i].at.Watching? && s.supers[i].host in s.hosts && s.supers[i].at.dial in s.dials
    case SuperStopped(i) =>
      i in s.supers && (s.supers[i].at.Watching? || s.supers[i].at == Sleeping)
      && s.supers[i].host in s.hosts && Stopped(s, s.supers[i].host)
    case SuperWake(i) => SuperAt(s, i, Sleeping)
  }

  // --- bookkeeping -------------------------------------------------------------------

  function CancelAll(cancels: map<nat, nat>, es: set<nat>): map<nat, nat> {
    map e | e in cancels :: if e in es then cancels[e] + 1 else cancels[e]
  }

  /** The entries next, next + 1, ... at the given keys of host `h`. */
  function Numbered(h: nat, keys: seq<Key>, next: nat): map<nat, Place> {
    if keys == [] then map[]
    else Numbered(h, keys[..|keys| - 1], next)[next + |keys| - 1 := Place(h, keys[|keys| - 1])]
  }

  function Uncancelled(keys: seq<Key>, next: nat): map<nat, nat> {
    if keys == [] then map[]
    else Uncancelled(keys[..|keys| - 1], next)[next + |keys| - 1 := 0]
  }

  lemma {:induction false} NumberedAt(h: nat, keys: seq<Key>, next: nat)
    ensures Numbered(h, keys, next).Keys == Uncancelled(keys, next).Keys
    ensures forall e :: e in Numbered(h, keys, next) ==>
      next <= e < next + |keys| && Numbered(h, keys, next)[e] == Place(h, keys[e - next]) && Uncancelled(keys, next)[e] == 0
  {
    if keys != [] {
      NumberedAt(h, keys[..|keys| - 1], next);
    }
  }

  lemma {:induction false} NumberedHas(h: nat, keys: seq<Key>, next: nat, e: nat)
    requires next <= e < next + |keys|
    ensures e in Numbered(h, keys, next)
    decreases |keys|
  {
    if e < next + |keys| - 1 {
      NumberedHas(h, keys[..|keys| - 1], next, e);
    }
  }

  /** reconcileLocked on a state whose connection is up. */
  function ReconcileAt(s: Sys, h: nat, oks: set<nat>): Sys
    requires h in s.hosts
  {
    var t := s.hosts[h].table;
    var want := SpecsOf(s, h);
    var (u, keys) := Reconcile(t, want, oks, s.nextEntry);
    s.(hosts := s.hosts[h := s.hosts[h].(table := u)],
       home := s.home + Numbered(h, keys, s.nextEntry),
       cancels := CancelAll(s.cancels, Cancelled(t, want)) + Uncancelled(keys, s.nextEntry),
       last := s.last[h := want],
       nextEntry := s.nextEntry + |keys|)
  }

  /** Install connection `d` and start what is configured. */
  function Install(s: Sys, h: nat, d: nat, oks: set<nat>): Sys
    requires h in s.hosts
  {
    ReconcileAt(s.(hosts := s.hosts[h := s.hosts[h].(dial := Some(d), lastErr := "")]), h, oks)
  }

  function SetSuper(s: Sys, i: nat, w: Where): Sys
    requires i in s.supers
  {
    s.(supers := s.supers[i := s.supers[i].(at := w)])
  }

  /** The supervisor goes to sleep for its current backoff. */
  function GoToSleep(s: Sys, i: nat): Sys
    requires i in s.supers
  {
    SetSuper(s, i, Sleeping).(sleeps := s.sleeps + [Sleep(i, s.supers[i].backoff)])
  }

  function Close(dials: map<nat, Dial>, d: Option<nat>): map<nat, Dial> {
    if d.Some? && d.value in dials
    then dials[d.value := dials[d.value].(closes := dials[d.value].closes + 1)] else dials
  }

  /** Some supervisor of `h` is waiting for a connection to die. */
  predicate Watched(s: Sys, h: nat) {
    exists i :: i in s.supers && s.supers[i].host == h && s.supers[i].at.Watching?
  }

  function Min(a: nat, b: nat): nat {
    if a < b then a else b
  }

  // --- steps ---------------------------------------------------------------------------

  function DoResume(s: Sys, h: nat): Sys
    requires h in s.hosts
  {
    var i := s.nextSuper;
    s.(hosts := s.hosts[h := s.hosts[h].(supervising := true)],
       supers := s.supers[i := Super(h, Top, s.base)],
       keeper := s.keeper[h := i],
       nextSuper := i + 1)
  }

  function DoEnsure(s: Sys, h: nat, oks: set<nat>): Sys
    requires h in s.hosts
  {
    var d := s.nextDial;
    Install(s.(dials := s.dials[d := Dial(h, 0, Some(ByEnsure), Stopped(s, h), Watched(s, h), 0, false)], nextDial := d + 1), h, d, oks)
  }

  function DoRelease(s: Sys, h: nat): Sys
    requires h in s.hosts
  {
    s.(hosts := s.hosts[h := ReleasedHost(s.hosts[h])],
       taken := s.taken - {h},
       cancels := CancelAll(s.cancels, s.hosts[h].table.entries.Values),
       dials := Close(s.dials, s.hosts[h].dial))
  }

  /** After an unlocked dial: adopt it, unless someone else connected first or the state
      was released meanwhile; then the connection is closed instead. */
  function DoAdopt(s: Sys, i: nat, oks: set<nat>): Sys
    requires i in s.supers && s.supers[i].at.Dialled? && s.supers[i].host in s.hosts && s.supers[i].at.dial in s.dials
  {
    var h, d := s.supers[i].host, s.supers[i].at.dial;
    if s.hosts[h].dial.Some? || Stopped(s, h) then DoRefuse(s, i)
    else
      var a := s.(dials := s.dials[d := s.dials[d].(adopter := Some(BySupervisor), late := Stopped(s, h), exposed := Watched(s, h))],
                  supers := s.supers[i := Super(h, Top, s.base)]);
      Install(a, h, d, oks)
  }

  /** The supervisor closes what it dialled: another connection is in place, or the state is released. */
  function DoRefuse(s: Sys, i: nat): Sys
    requires i in s.supers && s.supers[i].at.Dialled? && s.supers[i].host in s.hosts && s.supers[i].at.dial in s.dials
  {
    var h, d := s.supers[i].host, s.supers[i].at.dial;
    var next := if s.hosts[h].dial.None? then s.supers[i].(at := Exited) else Super(h, Top, s.base);
    s.(dials := Close(s.dials, Some(d)), supers := s.supers[i := next])
  }

  function DoLost(s: Sys, i: nat): Sys
    requires i in s.supers && s.supers[i].at.Watching? && s.supers[i].host in s.hosts && s.supers[i].at.dial in s.dials
  {
    var h, d := s.supers[i].host, s.supers[i].at.dial;
    GoToSleep(s.(hosts := s.hosts[h := LostHost(s.hosts[h])],
                 cancels := CancelAll(s.cancels, s.hosts[h].table.entries.Values),
                 dials := s.dials[d := s.dials[d].(dead := true)]), i)
  }

  /** A failed dial is noted unless someone else has connected meanwhile. */
  function DialFailed(h: Host): Host {
    if h.dial.None? then h.(lastErr := "dial failed") else h
  }

  function DoDialFails(s: Sys, i: nat): Sys
    requires i in s.supers && s.supers[i].host in s.hosts
  {
    var h := s.supers[i].host;
    GoToSleep(s.(hosts := s.hosts[h := DialFailed(s.hosts[h])]), i)
  }

  function Step(s: Sys, e: Event): Sys {
    if !Enabled(s, e) then s else
    match e
    case Configure(name, want) => s.(specs := s.specs[name := want])
    case Lookup(name) =>
      s.(hosts := s.hosts[s.nextHost := NewHost(name)], index := s.index[name := s.nextHost], nextHost := s.nextHost + 1)
    case ResumeLocked(h) => DoResume(s, h)
    case EnsureFails(h) => s.(hosts := s.hosts[h := DialFailed(s.hosts[h])])
    case EnsureConnects(h, oks) => DoEnsure(s, h, oks)
    case ReconcileLocked(h, oks) => ReconcileAt(s, h, oks)
    case ReleaseTake(name) => s.(index := s.index - {name}, taken := s.taken + {s.index[name]})
    case ReleaseLocked(h) => DoRelease(s, h)
    case SuperTop(i) => SetSuper(s, i, if Stopped(s, s.supers[i].host) then Exited else Looking)
    case SuperLook(i) =>
      var d := s.hosts[s.supers[i].host].dial;
      SetSuper(s, i, if d.Some? then Watching(d.value) else Dialling)
    case SuperDialFails(i) => DoDialFails(s, i)
    case SuperDialOk(i) =>
      var d := s.nextDial;
      SetSuper(s.(dials := s.dials[d := Dial(s.supers[i].host, i, None, false, false, 0, false)], nextDial := d + 1), i, Dialled(d))
    case SuperAdopt(i, oks) => DoAdopt(s, i, oks)
    case SuperLost(i) => DoLost(s, i)
    case SuperStopped(i) => SetSuper(s, i, Exited)
    case SuperWake(i) =>
      var p := s.supers[i];
      s.(supers := s.supers[i := p.(at := Top, backoff := Min(p.backoff * 2, s.cap))])
  }

  function Exec(s: Sys, es: seq<Event>): Sys {
    if es == [] then s else Step(Exec(s, es[..|es| - 1]), es[|es| - 1])
  }

  // --- tables and conservation -------------------------------------------------------------

  /** Entries and failures never overlap, and nothing runs without a connection. */
  predicate TableOk(s: Sys, h: nat)
    requires h in s.hosts
  {
    && Disjoint(s.hosts[h].table)
    && (s.hosts[h].dial.None? ==> s.hosts[h].table.entries == map[])
    && h < s.nextHost
  }

  /** Entry `e` was launched under `k` of host `h` and is uncancelled. */
  predicate AtHome(s: Sys, e: nat, h: nat, k: Key) {
    e in s.home && e in s.cancels && s.home[e] == Place(h, k) && s.cancels[e] == 0
  }

  predicate Homed(s: Sys, h: nat)
    requires h in s.hosts
  {
    forall k :: k in s.hosts[h].table.entries ==> AtHome(s, s.hosts[h].table.entries[k], h, k)
  }

  /** A launched entry is in its table, or has been cancelled once. */
  predicate EntryOk(s: Sys, e: nat)
    requires e in s.home
  {
    var p := s.home[e];
    && e < s.nextEntry && e in s.cancels && s.cancels[e] <= 1
    && (s.cancels[e] == 0 ==>
          && p.host in s.hosts && p.key in s.hosts[p.host].table.entries
          && s.hosts[p.host].table.entries[p.key] == e)
  }

  ghost predicate Conserved(s: Sys) {
    && s.home.Keys == s.cancels.Keys
    && (forall h {:trigger TableOk(s, h)} :: h in s.hosts ==> TableOk(s, h))
    && (forall h {:trigger Homed(s, h)} :: h in s.hosts ==> Homed(s, h))
    && (forall e {:trigger EntryOk(s, e)} :: e in s.home ==> EntryOk(s, e))
  }

  /** `u` is `t` after the entries `gone` left it and the entries next, next + 1, ... joined
      under `keys`. */
  ghost predicate TableMove(t: Table, u: Table, gone: set<nat>, keys: seq<Key>, next: nat) {
    && gone <= t.entries.Values
    && (forall k {:trigger t.entries[k]} :: k in t.entries && t.entries[k] !in gone ==>
          k in u.entries && u.entries[k] == t.entries[k])
    && (forall i {:trigger keys[i]} :: 0 <= i < |keys| ==> keys[i] in u.entries && u.entries[keys[i]] == next + i)
    && (forall k {:trigger u.entries[k]} :: k in u.entries ==>
          || (k in t.entries && u.entries[k] == t.entries[k] && u.entries[k] !in gone)
          || (next <= u.entries[k] < next + |keys| && keys[u.entries[k] - next] == k))
  }

  /** From `s` to `m` the table of `h` moves as above and the books follow. */
  ghost predicate Moves(s: Sys, m: Sys, h: nat, gone: set<nat>, keys: seq<Key>) {
    && h in s.hosts && m.hosts.Keys == s.hosts.Keys
    && TableMove(s.hosts[h].table, m.hosts[h].table, gone, keys, s.nextEntry)
    && (forall g {:trigger m.hosts[g]} :: g in s.hosts && g != h ==> m.hosts[g].table == s.hosts[g].table)
    && Books(s, m, h, gone, keys)
  }

  /** `gone` are cancelled, `keys` are launched on `h`. */
  ghost predicate Books(s: Sys, m: Sys, h: nat, gone: set<nat>, keys: seq<Key>) {
    && m.home == s.home + Numbered(h, keys, s.nextEntry)
    && m.cancels == CancelAll(s.cancels, gone) + Uncancelled(keys, s.nextEntry)
    && m.nextEntry == s.nextEntry + |keys|
  }

  lemma BooksKeepKeys(s: Sys, m: Sys, h: nat, gone: set<nat>, keys: seq<Key>)
    requires Books(s, m, h, gone, keys) && s.home.Keys == s.cancels.Keys
    ensures m.home.Keys == m.cancels.Keys
  {
    NumberedAt(h, keys, s.nextEntry);
    assert CancelAll(s.cancels, gone).Keys == s.cancels.Keys;
  }

  /** Whatever leaves the table of `h` was launched there and is being cancelled for the
      first time. */
  lemma GoneIsHere(s: Sys, h: nat, gone: set<nat>, e: nat)
    requires h in s.hosts && Homed(s, h) && gone <= s.hosts[h].table.entries.Values && e in gone
    ensures e in s.home && s.home[e].host == h && e in s.cancels && s.cancels[e] == 0
  {
    assert e in s.hosts[h].table.entries.Values;
    var k :| k in s.hosts[h].table.entries && s.hosts[h].table.entries[k] == e;
  }

  lemma MovesKeepsEntry(s: Sys, m: Sys, h: nat, gone: set<nat>, keys: seq<Key>, e: nat)
    requires Moves(s, m, h, gone, keys) && Homed(s, h) && e in s.home && EntryOk(s, e)
    ensures e in m.home && EntryOk(m, e)
  {
    NumberedAt(h, keys, s.nextEntry);
    if e in gone {
      GoneIsHere(s, h, gone, e);
    }
    assert m.home[e] == s.home[e];
    assert m.cancels[e] == if e in gone then s.cancels[e] + 1 else s.cancels[e];
  }

  lemma NewInBooks(s: Sys, m: Sys, h: nat, gone: set<nat>, keys: seq<Key>, e: nat)
    requires Books(s, m, h, gone, keys) && e in m.home && e !in s.home
    ensures s.nextEntry <= e < s.nextEntry + |keys| && m.home[e] == Place(h, keys[e - s.nextEntry])
    ensures e in m.cancels && m.cancels[e] == 0
  {
    NumberedAt(h, keys, s.nextEntry);
    assert e in Numbered(h, keys, s.nextEntry);
    assert e in Uncancelled(keys, s.nextEntry);
  }

  lemma MovesAddsEntry(s: Sys, m: Sys, h: nat, gone: set<nat>, keys: seq<Key>, e: nat)
    requires Moves(s, m, h, gone, keys) && e in m.home && e !in s.home
    ensures EntryOk(m, e)
  {
    NewInBooks(s, m, h, gone, keys, e);
    var k := keys[e - s.nextEntry];
    assert k in m.hosts[h].table.entries && m.hosts[h].table.entries[k] == e;
  }

  lemma StaysAtHome(s: Sys, m: Sys, h: nat, gone: set<nat>, keys: seq<Key>, e: nat, g: nat, k: Key)
    requires Books(s, m, h, gone, keys) && h in s.hosts && Homed(s, h) && gone <= s.hosts[h].table.entries.Values
    requires AtHome(s, e, g, k) && e < s.nextEntry && (g == h ==> e !in gone)
    ensures AtHome(m, e, g, k)
  {
    NumberedAt(h, keys, s.nextEntry);
    if e in gone {
      GoneIsHere(s, h, gone, e);
    }
  }

  lemma NewAtHome(s: Sys, m: Sys, h: nat, gone: set<nat>, keys: seq<Key>, e: nat)
    requires Books(s, m, h, gone, keys) && s.nextEntry <= e < s.nextEntry + |keys|
    ensures AtHome(m, e, h, keys[e - s.nextEntry])
  {
    NumberedAt(h, keys, s.nextEntry);
    NumberedHas(h, keys, s.nextEntry, e);
  }

  lemma MovesKeepsHomes(s: Sys, m: Sys, h: nat, gone: set<nat>, keys: seq<Key>, g: nat)
    requires Moves(s, m, h, gone, keys) && Homed(s, h) && g in s.hosts && Homed(s, g)
    requires forall e {:trigger EntryOk(s, e)} :: e in s.home ==> EntryOk(s, e)
    ensures Homed(m, g)
  {
    forall k | k in m.hosts[g].table.entries ensures AtHome(m, m.hosts[g].table.entries[k], g, k) {
      var e := m.hosts[g].table.entries[k];
      if k in s.hosts[g].table.entries && s.hosts[g].table.entries[k] == e && (g == h ==> e !in gone) {
        assert EntryOk(s, e);
        StaysAtHome(s, m, h, gone, keys, e, g, k);
      } else {
        NewAtHome(s, m, h, gone, keys, e);
      }
    }
  }

  /** The general step: some uncancelled entries of one table are cancelled and leave it,
      new ones are launched into it. */
  lemma MovesKeepsConserved(s: Sys, m: Sys, h: nat, gone: set<nat>, keys: seq<Key>)
    requires Conserved(s) && Moves(s, m, h, gone, keys)
    requires forall g {:trigger TableOk(m, g)} :: g in m.hosts ==> TableOk(m, g)
    ensures Conserved(m)
  {
    BooksKeepKeys(s, m, h, gone, keys);
    assert Homed(s, h);
    forall g | g in m.hosts ensures Homed(m, g) {
      assert Homed(s, g);
      MovesKeepsHomes(s, m, h, gone, keys, g);
    }
    forall e | e in m.home ensures EntryOk(m, e) {
      if e in s.home {
        assert EntryOk(s, e);
        MovesKeepsEntry(s, m, h, gone, keys, e);
      } else {
        MovesAddsEntry(s, m, h, gone, keys, e);
      }
    }
  }

  lemma NoNews(h: nat)
    ensures forall next: nat :: Numbered(h, [], next) == map[] && Uncancelled([], next) == map[]
  {
  }

  /** Ids identify keys: two keys of one table never hold the same entry. */
  lemma EntriesAreDistinct(s: Sys, h: nat, k: Key, l: Key)
    requires h in s.hosts && Homed(s, h) && k in s.hosts[h].table.entries && l in s.hosts[h].table.entries
    requires s.hosts[h].table.entries[k] == s.hosts[h].table.entries[l]
    ensures k == l
  {
    assert AtHome(s, s.hosts[h].table.entries[k], h, k) && AtHome(s, s.hosts[h].table.entries[l], h, l);
  }

  lemma ReconcileMovesTable(s: Sys, h: nat, oks: set<nat>)
    requires h in s.hosts && Homed(s, h) && Disjoint(s.hosts[h].table)
    ensures var t := s.hosts[h].table; var want := SpecsOf(s, h);
      var (u, keys) := Reconcile(t, want, oks, s.nextEntry);
      TableMove(t, u, Cancelled(t, want), keys, s.nextEntry) && Disjoint(u)
  {
    var t, want := s.hosts[h].table, SpecsOf(s, h);
    var (u, keys) := Reconcile(t, want, oks, s.nextEntry);
    var p := Prune(t, want);
    LaunchFillsGaps(p, want, oks, s.nextEntry, |want|);
    forall e | e in Cancelled(t, want) ensures e in t.entries.Values {
    }
    forall k, l | k in p.entries && l in t.entries && l !in EnabledKeys(want)
      ensures u.entries[k] != t.entries[l]
    {
      if u.entries[k] == t.entries[l] {
        EntriesAreDistinct(s, h, k, l);
      }
    }
  }

  lemma ReconcileKeepsConserved(s: Sys, h: nat, oks: set<nat>)
    requires Conserved(s) && h in s.hosts && s.hosts[h].dial.Some?
    ensures Conserved(ReconcileAt(s, h, oks))
  {
    var m := ReconcileAt(s, h, oks);
    var t, want := s.hosts[h].table, SpecsOf(s, h);
    assert Homed(s, h) && TableOk(s, h);
    ReconcileMovesTable(s, h, oks);
    forall g | g in m.hosts ensures TableOk(m, g) {
      assert TableOk(s, g);
    }
    MovesKeepsConserved(s, m, h, Cancelled(t, want), Reconcile(t, want, oks, s.nextEntry).1);
  }

  /** A table is emptied and everything in it cancelled: a lost connection or a release. */
  lemma EmptyingKeepsConserved(s: Sys, m: Sys, h: nat)
    requires Conserved(s) && h in s.hosts && m.hosts.Keys == s.hosts.Keys && m.nextHost == s.nextHost
    requires m.hosts[h].table.entries == map[]
    requires forall g {:trigger m.hosts[g]} :: g in s.hosts && g != h ==> m.hosts[g] == s.hosts[g]
    requires m.home == s.home && m.cancels == CancelAll(s.cancels, s.hosts[h].table.entries.Values) && m.nextEntry == s.nextEntry
    ensures Conserved(m)
  {
    NoNews(h);
    var t := s.hosts[h].table;
    forall k | k in t.entries ensures t.entries[k] in t.entries.Values {
    }
    forall g | g in m.hosts ensures TableOk(m, g) {
      assert TableOk(s, g);
    }
    assert m.home == s.home + Numbered(h, [], s.nextEntry);
    assert m.cancels == CancelAll(s.cancels, t.entries.Values) + Uncancelled([], s.nextEntry);
    MovesKeepsConserved(s, m, h, t.entries.Values, []);
  }

  /** Tables and books are untouched; a connection may have come up or an error been noted. */
  ghost predicate SameTables(s: Sys, m: Sys) {
    && s.hosts.Keys <= m.hosts.Keys && m.nextHost >= s.nextHost
    && m.home == s.home && m.cancels == s.cancels && m.nextEntry == s.nextEntry
    && (forall g {:trigger m.hosts[g]} :: g in s.hosts ==>
          m.hosts[g].table == s.hosts[g].table && (s.hosts[g].dial.Some? ==> m.hosts[g].dial.Some?))
    && (forall g {:trigger m.hosts[g]} :: g in m.hosts && g !in s.hosts ==>
          m.hosts[g].table == Table(map[], map[]) && g < m.nextHost)
  }

  lemma SameTablesKeepConserved(s: Sys, m: Sys)
    requires Conserved(s) && SameTables(s, m)
    ensures Conserved(m)
  {
    forall g | g in m.hosts ensures TableOk(m, g) && Homed(m, g) {
      if g in s.hosts {
        assert TableOk(s, g) && Homed(s, g);
        forall k | k in m.hosts[g].table.entries ensures AtHome(m, m.hosts[g].table.entries[k], g, k) {
          assert AtHome(s, s.hosts[g].table.entries[k], g, k);
        }
      }
    }
    forall e | e in m.home ensures EntryOk(m, e) {
      assert EntryOk(s, e);
    }
  }

  lemma InstallKeepsConserved(s: Sys, h: nat, d: nat, oks: set<nat>)
    requires Conserved(s) && h in s.hosts
    ensures Conserved(Install(s, h, d, oks))
  {
    var a := s.(hosts := s.hosts[h := s.hosts[h].(dial := Some(d), lastErr := "")]);
    SameTablesKeepConserved(s, a);
    ReconcileKeepsConserved(a, h, oks);
  }

  predicate MovesEntries(e: Event) {
    e.EnsureConnects? || e.ReconcileLocked? || e.ReleaseLocked? || e.SuperLost? || e.SuperAdopt?
  }

  predicate LeavesHosts(e: Event) {
    || e.Configure? || e.ReleaseTake? || e.SuperTop? || e.SuperLook? || e.SuperDialOk?
    || e.SuperStopped? || e.SuperWake?
  }

  lemma HostsUntouched(s: Sys, e: Event)
    requires LeavesHosts(e)
    ensures Step(s, e).hosts == s.hosts && Step(s, e).nextHost == s.nextHost && Step(s, e).last == s.last
    ensures Step(s, e).home == s.home && Step(s, e).cancels == s.cancels && Step(s, e).nextEntry == s.nextEntry
  {
  }

  lemma OtherStepsKeepTables(s: Sys, e: Event)
    requires !MovesEntries(e) && s.nextHost !in s.hosts
    ensures SameTables(s, Step(s, e))
  {
    if LeavesHosts(e) {
      HostsUntouched(s, e);
    } else {
      NotesKeepTables(s, e);
    }
  }

  /** One host record changes, but not its table, and its connection does not go. */
  lemma NoteKeepsTables(s: Sys, m: Sys, h: nat, host: Host)
    requires m.hosts == s.hosts[h := host] && m.nextHost >= s.nextHost
    requires m.home == s.home && m.cancels == s.cancels && m.nextEntry == s.nextEntry
    requires h in s.hosts ==> host.table == s.hosts[h].table && host.dial == s.hosts[h].dial
    requires h !in s.hosts ==> host.table == Table(map[], map[]) && h < m.nextHost
    ensures SameTables(s, m)
  {
  }

  lemma NotesKeepTables(s: Sys, e: Event)
    requires e.Lookup? || e.ResumeLocked? || e.EnsureFails? || e.SuperDialFails?
    requires s.nextHost !in s.hosts
    ensures SameTables(s, Step(s, e))
  {
    var m := Step(s, e);
    if Enabled(s, e) {
      match e
      case Lookup(name) => NoteKeepsTables(s, m, s.nextHost, NewHost(name));
      case ResumeLocked(h) => NoteKeepsTables(s, m, h, s.hosts[h].(supervising := true));
      case EnsureFails(h) => NoteKeepsTables(s, m, h, DialFailed(s.hosts[h]));
      case SuperDialFails(i) => NoteKeepsTables(s, m, s.supers[i].host, DialFailed(s.hosts[s.supers[i].host]));
    }
  }

  lemma EnsureKeepsConserved(s: Sys, h: nat, oks: set<nat>)
    requires Conserved(s) && h in s.hosts
    ensures Conserved(DoEnsure(s, h, oks))
  {
    var d := s.nextDial;
    var a := s.(dials := s.dials[d := Dial(h, 0, Some(ByEnsure), Stopped(s, h), Watched(s, h), 0, false)], nextDial := d + 1);
    SameTablesKeepConserved(s, a);
    InstallKeepsConserved(a, h, d, oks);
  }

  lemma StepKeepsConserved(s: Sys, e: Event)
    requires Conserved(s)
    ensures Conserved(Step(s, e))
  {
    if !MovesEntries(e) {
      assert s.nextHost in s.hosts ==> TableOk(s, s.nextHost);
      OtherStepsKeepTables(s, e);
      SameTablesKeepConserved(s, Step(s, e));
    } else if Enabled(s, e) {
      match e
      case EnsureConnects(h, oks) => EnsureKeepsConserved(s, h, oks);
      case ReconcileLocked(h, oks) => ReconcileKeepsConserved(s, h, oks);
      case ReleaseLocked(h) => EmptyingKeepsConserved(s, Step(s, e), h);
      case SuperLost(i) => EmptyingKeepsConserved(s, Step(s, e), s.supers[i].host);
      case SuperAdopt(i, oks) => AdoptKeepsConserved(s, i, oks);
    }
  }

  lemma AdoptKeepsConserved(s: Sys, i: nat, oks: set<nat>)
    requires Conserved(s) && Enabled(s, SuperAdopt(i, oks))
    ensures Conserved(DoAdopt(s, i, oks))
  {
    var h, d := s.supers[i].host, s.supers[i].at.dial;
    if s.hosts[h].dial.None? && !Stopped(s, h) {
      var a := s.(dials := s.dials[d := s.dials[d].(adopter := Some(BySupervisor), late := Stopped(s, h), exposed := Watched(s, h))],
                  supers := s.supers[i := Super(h, Top, s.base)]);
      SameTablesKeepConserved(s, a);
      InstallKeepsConserved(a, h, d, oks);
    } else {
      SameTablesKeepConserved(s, DoAdopt(s, i, oks));
    }
  }

  // --- connections and supervisors -----------------------------------------------------------

  /** A state is released at most once: it is in the index, or taken, or torn down. */
  ghost predicate Released(s: Sys) {
    && (forall n :: n in s.index ==>
          && s.index[n] in s.hosts && s.hosts[s.index[n]].name == n
          && s.hosts[s.index[n]].stops == 0 && s.index[n] !in s.taken)
    && (forall h :: h in s.taken ==> h in s.hosts && s.hosts[h].stops == 0)
    && (forall h {:trigger s.hosts[h]} :: h in s.hosts ==> s.hosts[h].stops <= 1 && h < s.nextHost)
  }

  /** The connection in place belongs here and is open; on a released state it came late. */
  predicate CurrentOk(s: Sys, h: nat)
    requires h in s.hosts
  {
    s.hosts[h].dial.Some? ==>
      var d := s.hosts[h].dial.value;
      && d in s.dials && s.dials[d].host == h && s.dials[d].adopter.Some? && s.dials[d].closes == 0
      && (if Stopped(s, h) then s.dials[d].late else !s.dials[d].late && !s.dials[d].dead)
  }

  predicate KeptOk(s: Sys, h: nat)
    requires h in s.hosts
  {
    !Stopped(s, h) && s.hosts[h].supervising ==>
      h in s.keeper && s.keeper[h] in s.supers && s.supers[s.keeper[h]].host == h && s.supers[s.keeper[h]].at != Exited
  }

  predicate SuperOk(s: Sys, i: nat)
    requires i in s.supers
  {
    var p := s.supers[i];
    && i < s.nextSuper && p.host in s.hosts
    && (p.at != Exited && !Stopped(s, p.host) ==>
          s.hosts[p.host].supervising && p.host in s.keeper && s.keeper[p.host] == i)
    && (p.at.Dialled? ==> p.at.dial in s.dials && s.dials[p.at.dial] == Dial(p.host, i, None, false, false, 0, false))
    && (p.at.Watching? ==>
          && p.at.dial in s.dials && s.dials[p.at.dial].host == p.host && s.dials[p.at.dial].adopter.Some?
          && (!Stopped(s, p.host) ==> s.hosts[p.host].dial == Some(p.at.dial))
          && (s.hosts[p.host].dial.Some? && s.hosts[p.host].dial != Some(p.at.dial) ==>
                s.hosts[p.host].dial.value in s.dials && s.dials[s.hosts[p.host].dial.value].exposed))
  }

  predicate DialOk(s: Sys, d: nat)
    requires d in s.dials
  {
    var c := s.dials[d];
    && d < s.nextDial && c.host in s.hosts && c.closes <= 1
    && (c.adopter.None? && c.closes == 0 ==> c.holder in s.supers && s.supers[c.holder].at == Dialled(d))
    && (c.adopter.Some? && c.closes == 0 && !c.dead && !c.exposed ==> s.hosts[c.host].dial == Some(d))
    && (c.late ==> Stopped(s, c.host) && c.adopter == Some(ByEnsure))
    && (c.exposed ==> c.late)
  }

  ghost predicate Disciplined(s: Sys) {
    && Released(s)
    && (forall h {:trigger CurrentOk(s, h)} :: h in s.hosts ==> CurrentOk(s, h))
    && (forall h {:trigger KeptOk(s, h)} :: h in s.hosts ==> KeptOk(s, h))
    && (forall i {:trigger SuperOk(s, i)} :: i in s.supers ==> SuperOk(s, i))
    && (forall d {:trigger DialOk(s, d)} :: d in s.dials ==> DialOk(s, d))
  }

  // reconcileLocked touches nothing the discipline is about
  ghost predicate SameSlots(s: Sys, m: Sys) {
    && m.index == s.index && m.taken == s.taken && m.supers == s.supers && m.keeper == s.keeper && m.dials == s.dials
    && m.sleeps == s.sleeps && m.base == s.base && m.cap == s.cap
    && m.nextHost == s.nextHost && m.nextSuper == s.nextSuper && m.nextDial == s.nextDial
    && m.hosts.Keys == s.hosts.Keys
    && (forall h {:trigger m.hosts[h]} :: h in s.hosts ==>
          && m.hosts[h].name == s.hosts[h].name && m.hosts[h].dial == s.hosts[h].dial
          && m.hosts[h].stops == s.hosts[h].stops && m.hosts[h].supervising == s.hosts[h].supervising)
  }

  lemma SameSlotsKeepDiscipline(s: Sys, m: Sys)
    requires Disciplined(s) && SameSlots(s, m)
    ensures Disciplined(m)
  {
    forall h | h in m.hosts ensures CurrentOk(m, h) && KeptOk(m, h) {
      assert CurrentOk(s, h) && KeptOk(s, h);
    }
    forall i | i in m.supers ensures SuperOk(m, i) {
      assert SuperOk(s, i);
    }
    forall d | d in m.dials ensures DialOk(m, d) {
      assert DialOk(s, d);
    }
  }

  lemma ReconcileKeepsSlots(s: Sys, h: nat, oks: set<nat>)
    requires h in s.hosts
    ensures SameSlots(s, ReconcileAt(s, h, oks))
  {
  }

  lemma LookupKeepsDiscipline(s: Sys, name: string)
    requires Disciplined(s) && name !in s.index
    ensures Disciplined(Step(s, Lookup(name)))
  {
    var m := Step(s, Lookup(name));
    assert s.nextHost !in s.hosts;
    forall h | h in m.hosts ensures CurrentOk(m, h) && KeptOk(m, h) {
      if h != s.nextHost {
        assert CurrentOk(s, h) && KeptOk(s, h);
      }
    }
    forall i | i in m.supers ensures SuperOk(m, i) {
      assert SuperOk(s, i);
    }
    forall d | d in m.dials ensures DialOk(m, d) {
      assert DialOk(s, d);
    }
  }

  lemma ResumeKeepsDiscipline(s: Sys, h: nat)
    requires Disciplined(s) && Enabled(s, ResumeLocked(h))
    ensures Disciplined(DoResume(s, h))
  {
    var m := DoResume(s, h);
    assert s.nextSuper in s.supers ==> SuperOk(s, s.nextSuper);
    forall g | g in m.hosts ensures CurrentOk(m, g) && KeptOk(m, g) {
      assert CurrentOk(s, g) && KeptOk(s, g);
    }
    forall i | i in m.supers ensures SuperOk(m, i) {
      if i != s.nextSuper {
        assert SuperOk(s, i);
      }
    }
    forall d | d in m.dials ensures DialOk(m, d) {
      assert DialOk(s, d);
    }
  }

  /** From `s` to `m` connection `d` is put in place on `h`, where there was none, and the
      supervisor that dialled it, if any, starts over. */
  ghost predicate Places(s: Sys, m: Sys, h: nat, d: nat) {
    && h in s.hosts && s.hosts[h].dial.None? && d in m.dials
    && m.hosts == s.hosts[h := s.hosts[h].(dial := Some(d), lastErr := "")]
    && m.dials == s.dials[d := m.dials[d]]
    && m.dials[d].host == h && m.dials[d].adopter.Some? && m.dials[d].closes == 0 && !m.dials[d].dead
    && m.dials[d].late == Stopped(s, h) && m.dials[d].exposed == Watched(s, h) && (m.dials[d].late ==> m.dials[d].adopter == Some(ByEnsure))
    && (Watched(s, h) ==> Stopped(s, h))
    && (d in s.dials ==> s.dials[d].adopter.None?)
    && m.index == s.index && m.taken == s.taken && m.keeper == s.keeper && m.nextHost == s.nextHost
    && m.supers.Keys == s.supers.Keys && m.nextSuper == s.nextSuper && d < m.nextDial && m.nextDial >= s.nextDial
    && m.sleeps == s.sleeps && m.base == s.base && m.cap == s.cap
    && forall i {:trigger m.supers[i]} :: i in s.supers ==>
         || (m.supers[i] == s.supers[i] && s.supers[i].at != Dialled(d))
         || (s.supers[i].at == Dialled(d) && m.supers[i] == Super(h, Top, s.base) && s.supers[i].host == h)
  }

  lemma PlacingKeepsHost(s: Sys, m: Sys, h: nat, d: nat, g: nat)
    requires Places(s, m, h, d) && g in s.hosts && CurrentOk(s, g) && KeptOk(s, g)
    ensures CurrentOk(m, g) && KeptOk(m, g)
  {
    if g in s.keeper && s.keeper[g] in s.supers {
      assert m.supers[s.keeper[g]].host == s.supers[s.keeper[g]].host;
    }
  }

  lemma PlacingKeepsSuper(s: Sys, m: Sys, h: nat, d: nat, i: nat)
    requires Places(s, m, h, d) && i in s.supers && SuperOk(s, i) && CurrentOk(s, s.supers[i].host)
    ensures i in m.supers && SuperOk(m, i)
  {
    assert m.supers[i].host == s.supers[i].host;
    assert s.supers[i].at.Watching? ==> Watched(s, s.supers[i].host);
  }

  lemma PlacingKeepsDial(s: Sys, m: Sys, h: nat, d: nat, c: nat)
    requires Places(s, m, h, d) && c in m.dials && (c in s.dials ==> DialOk(s, c))
    ensures DialOk(m, c)
  {
    if c != d && c in s.dials && s.dials[c].holder in s.supers {
      assert m.supers[s.dials[c].holder].at == Dialled(c) <==> s.supers[s.dials[c].holder].at == Dialled(c);
    }
  }

  lemma PlacingKeepsDiscipline(s: Sys, m: Sys, h: nat, d: nat)
    requires Disciplined(s) && Places(s, m, h, d)
    ensures Disciplined(m)
  {
    forall g | g in m.hosts ensures CurrentOk(m, g) && KeptOk(m, g) {
      assert CurrentOk(s, g) && KeptOk(s, g);
      PlacingKeepsHost(s, m, h, d, g);
    }
    forall i | i in m.supers ensures SuperOk(m, i) {
      assert SuperOk(s, i);
      assert CurrentOk(s, s.supers[i].host);
      PlacingKeepsSuper(s, m, h, d, i);
    }
    forall c | c in m.dials ensures DialOk(m, c) {
      assert c in s.dials ==> DialOk(s, c);
      PlacingKeepsDial(s, m, h, d, c);
    }
  }

  /** A state without a connection that is still watched has been released. */
  lemma WatchedIsReleased(s: Sys, h: nat)
    requires Disciplined(s) && h in s.hosts && s.hosts[h].dial.None?
    ensures Watched(s, h) ==> Stopped(s, h)
  {
    if i :| i in s.supers && s.supers[i].host == h && s.supers[i].at.Watching? {
      assert SuperOk(s, i);
    }
  }

  lemma EnsurePlaces(s: Sys, h: nat)
    requires Disciplined(s) && h in s.hosts && s.hosts[h].dial.None?
    ensures Places(s, EnsurePlaced(s, h), h, s.nextDial)
  {
    var d := s.nextDial;
    assert d in s.dials ==> DialOk(s, d);
    WatchedIsReleased(s, h);
    forall i | i in s.supers ensures s.supers[i].at != Dialled(d) {
      assert SuperOk(s, i);
    }
  }

  /** ensure up to the point where it reconciles. */
  function EnsurePlaced(s: Sys, h: nat): Sys
    requires h in s.hosts
  {
    var d := s.nextDial;
    s.(dials := s.dials[d := Dial(h, 0, Some(ByEnsure), Stopped(s, h), Watched(s, h), 0, false)], nextDial := d + 1,
       hosts := s.hosts[h := s.hosts[h].(dial := Some(d), lastErr := "")])
  }

  lemma EnsureKeepsDiscipline(s: Sys, h: nat, oks: set<nat>)
    requires Disciplined(s) && h in s.hosts && s.hosts[h].dial.None?
    ensures Disciplined(DoEnsure(s, h, oks))
  {
    var a := EnsurePlaced(s, h);
    EnsurePlaces(s, h);
    PlacingKeepsDiscipline(s, a, h, s.nextDial);
    ReconcileKeepsSlots(a, h, oks);
    assert DoEnsure(s, h, oks) == ReconcileAt(a, h, oks);
    SameSlotsKeepDiscipline(a, DoEnsure(s, h, oks));
  }

  lemma AdoptingKeepsDiscipline(s: Sys, i: nat, oks: set<nat>)
    requires Disciplined(s) && Enabled(s, SuperAdopt(i, oks))
    requires s.hosts[s.supers[i].host].dial.None? && !Stopped(s, s.supers[i].host)
    ensures Disciplined(DoAdopt(s, i, oks))
  {
    var h, d := s.supers[i].host, s.supers[i].at.dial;
    assert SuperOk(s, i) && DialOk(s, d);
    WatchedIsReleased(s, h);
    var a := s.(dials := s.dials[d := s.dials[d].(adopter := Some(BySupervisor), late := Stopped(s, h), exposed := Watched(s, h))],
                supers := s.supers[i := Super(h, Top, s.base)],
                hosts := s.hosts[h := s.hosts[h].(dial := Some(d), lastErr := "")]);
    forall j | j in s.supers && j != i ensures s.supers[j].at != Dialled(d) {
      assert SuperOk(s, j);
    }
    PlacingKeepsDiscipline(s, a, h, d);
    ReconcileKeepsSlots(a, h, oks);
    SameSlotsKeepDiscipline(a, DoAdopt(s, i, oks));
  }

  /** From `s` to `m` the supervisor `i` closes the connection it dialled and moves on. */
  ghost predicate Discards(s: Sys, m: Sys, i: nat) {
    && i in s.supers && i in m.supers && s.supers[i].at.Dialled? && s.supers[i].host in s.hosts
    && var d := s.supers[i].at.dial;
    && d in s.dials && s.dials[d] == Dial(s.supers[i].host, i, None, false, false, 0, false)
    && m == s.(dials := s.dials[d := s.dials[d].(closes := 1)], supers := s.supers[i := m.supers[i]])
    && m.supers[i].host == s.supers[i].host
    && (m.supers[i].at == Top || (m.supers[i].at == Exited && Stopped(s, s.supers[i].host)))
  }

  lemma DiscardKeepsHost(s: Sys, m: Sys, i: nat, g: nat)
    requires Discards(s, m, i) && g in s.hosts && CurrentOk(s, g) && KeptOk(s, g)
    ensures CurrentOk(m, g) && KeptOk(m, g)
  {
  }

  lemma DiscardKeepsSuper(s: Sys, m: Sys, i: nat, j: nat)
    requires Discards(s, m, i) && j in s.supers && SuperOk(s, j) && SuperOk(s, i)
    ensures SuperOk(m, j)
  {
  }

  lemma DiscardKeepsDial(s: Sys, m: Sys, i: nat, c: nat)
    requires Discards(s, m, i) && c in s.dials && DialOk(s, c)
    ensures DialOk(m, c)
  {
  }

  lemma DiscardingKeepsDiscipline(s: Sys, i: nat, oks: set<nat>)
    requires Disciplined(s) && Enabled(s, SuperAdopt(i, oks))
    requires s.hosts[s.supers[i].host].dial.Some? || Stopped(s, s.supers[i].host)
    ensures Disciplined(DoAdopt(s, i, oks))
  {
    var m := DoAdopt(s, i, oks);
    assert SuperOk(s, i);
    assert Discards(s, m, i);
    forall g | g in m.hosts ensures CurrentOk(m, g) && KeptOk(m, g) {
      assert CurrentOk(s, g) && KeptOk(s, g);
      DiscardKeepsHost(s, m, i, g);
    }
    forall j | j in m.supers ensures SuperOk(m, j) {
      assert SuperOk(s, j);
      DiscardKeepsSuper(s, m, i, j);
    }
    forall c | c in m.dials ensures DialOk(m, c) {
      assert DialOk(s, c);
      DiscardKeepsDial(s, m, i, c);
    }
  }

  lemma ReleaseKeepsReleased(s: Sys, h: nat)
    requires Released(s) && h in s.taken && h in s.hosts
    ensures Released(DoRelease(s, h))
  {
  }

  lemma ReleaseKeepsHost(s: Sys, h: nat, g: nat)
    requires h in s.hosts && g in s.hosts && CurrentOk(s, h) && CurrentOk(s, g) && KeptOk(s, g)
    ensures g in DoRelease(s, h).hosts && CurrentOk(DoRelease(s, h), g) && KeptOk(DoRelease(s, h), g)
  {
  }

  lemma ReleaseKeepsDiscipline(s: Sys, h: nat)
    requires Disciplined(s) && Enabled(s, ReleaseLocked(h))
    ensures Disciplined(DoRelease(s, h))
  {
    var m := DoRelease(s, h);
    assert CurrentOk(s, h);
    ReleaseKeepsReleased(s, h);
    forall g | g in m.hosts ensures CurrentOk(m, g) && KeptOk(m, g) {
      assert CurrentOk(s, g) && KeptOk(s, g);
      ReleaseKeepsHost(s, h, g);
    }
    forall i | i in m.supers ensures SuperOk(m, i) {
      assert SuperOk(s, i);
    }
    forall d | d in m.dials ensures DialOk(m, d) {
      assert DialOk(s, d);
    }
  }

  lemma LostKeepsHost(s: Sys, i: nat, g: nat)
    requires Enabled(s, SuperLost(i)) && SuperOk(s, i) && g in s.hosts && CurrentOk(s, g) && KeptOk(s, g)
    ensures g in DoLost(s, i).hosts && CurrentOk(DoLost(s, i), g) && KeptOk(DoLost(s, i), g)
  {
  }

  lemma LostKeepsSuper(s: Sys, i: nat, j: nat)
    requires Enabled(s, SuperLost(i)) && SuperOk(s, i) && j in s.supers && SuperOk(s, j)
    ensures j in DoLost(s, i).supers && SuperOk(DoLost(s, i), j)
  {
  }

  lemma LostKeepsDial(s: Sys, i: nat, c: nat)
    requires Enabled(s, SuperLost(i)) && SuperOk(s, i) && CurrentOk(s, s.supers[i].host) && c in s.dials && DialOk(s, c)
    ensures c in DoLost(s, i).dials && DialOk(DoLost(s, i), c)
  {
  }

  lemma LostKeepsDiscipline(s: Sys, i: nat)
    requires Disciplined(s) && Enabled(s, SuperLost(i))
    ensures Disciplined(DoLost(s, i))
  {
    var m := DoLost(s, i);
    assert CurrentOk(s, s.supers[i].host) && SuperOk(s, i);
    forall g | g in m.hosts ensures CurrentOk(m, g) && KeptOk(m, g) {
      assert CurrentOk(s, g) && KeptOk(s, g);
      LostKeepsHost(s, i, g);
    }
    forall j | j in m.supers ensures SuperOk(m, j) {
      assert SuperOk(s, j);
      LostKeepsSuper(s, i, j);
    }
    forall c | c in m.dials ensures DialOk(m, c) {
      assert DialOk(s, c);
      LostKeepsDial(s, i, c);
    }
  }

  /** From `s` to `m` only supervisor `i` moves, and it holds no connection of its own. */
  ghost predicate Strides(s: Sys, m: Sys, i: nat) {
    && i in s.supers && i in m.supers && !s.supers[i].at.Dialled? && s.supers[i].at != Exited && s.supers[i].host in s.hosts
    && m == s.(supers := s.supers[i := m.supers[i]], sleeps := m.sleeps)
    && m.supers[i].host == s.supers[i].host && !m.supers[i].at.Dialled?
    && (m.supers[i].at == Exited ==> Stopped(s, s.supers[i].host))
    && (m.supers[i].at.Watching? ==> s.hosts[s.supers[i].host].dial == Some(m.supers[i].at.dial))
  }

  lemma StrideKeepsDiscipline(s: Sys, m: Sys, i: nat)
    requires Disciplined(s) && Strides(s, m, i)
    ensures Disciplined(m)
  {
    assert SuperOk(s, i) && CurrentOk(s, s.supers[i].host);
    forall g | g in m.hosts ensures CurrentOk(m, g) && KeptOk(m, g) {
      assert CurrentOk(s, g) && KeptOk(s, g);
    }
    forall j | j in m.supers ensures SuperOk(m, j) {
      assert SuperOk(s, j);
    }
    forall c | c in m.dials ensures DialOk(m, c) {
      assert DialOk(s, c);
    }
  }

  lemma DialOkKeepsDiscipline(s: Sys, i: nat)
    requires Disciplined(s) && Enabled(s, SuperDialOk(i))
    ensures Disciplined(Step(s, SuperDialOk(i)))
  {
    var m := Step(s, SuperDialOk(i));
    var d := s.nextDial;
    assert d in s.dials ==> DialOk(s, d);
    assert SuperOk(s, i);
    forall g | g in m.hosts ensures CurrentOk(m, g) && KeptOk(m, g) {
      assert CurrentOk(s, g) && KeptOk(s, g);
    }
    forall j | j in m.supers ensures SuperOk(m, j) {
      assert SuperOk(s, j);
    }
    forall c | c in m.dials ensures DialOk(m, c) {
      if c != d {
        assert DialOk(s, c);
      }
    }
  }

  lemma DialFailsKeepsDiscipline(s: Sys, i: nat)
    requires Disciplined(s) && Enabled(s, SuperDialFails(i))
    ensures Disciplined(DoDialFails(s, i))
  {
    var h := s.supers[i].host;
    assert SuperOk(s, i);
    var a := s.(hosts := s.hosts[h := DialFailed(s.hosts[h])]);
    SameSlotsKeepDiscipline(s, a);
    StrideKeepsDiscipline(a, DoDialFails(s, i), i);
  }

  lemma TakeKeepsReleased(s: Sys, name: string)
    requires Released(s) && name in s.index
    requires forall n :: n in s.index && n != name ==> s.index[n] != s.index[name]
    ensures Released(s.(index := s.index - {name}, taken := s.taken + {s.index[name]}))
  {
  }

  lemma TakeKeepsDiscipline(s: Sys, name: string)
    requires Disciplined(s) && name in s.index
    ensures Disciplined(Step(s, ReleaseTake(name)))
  {
    var m := s.(index := s.index - {name}, taken := s.taken + {s.index[name]});
    assert Step(s, ReleaseTake(name)) == m;
    TakeKeepsReleased(s, name);
    forall g | g in m.hosts ensures CurrentOk(m, g) && KeptOk(m, g) {
      assert CurrentOk(s, g) && KeptOk(s, g);
    }
    forall j | j in m.supers ensures SuperOk(m, j) {
      assert SuperOk(s, j);
    }
    forall c | c in m.dials ensures DialOk(m, c) {
      assert DialOk(s, c);
    }
  }

  lemma SuperStepKeepsDiscipline(s: Sys, e: Event)
    requires Disciplined(s) && Enabled(s, e)
    requires e.SuperTop? || e.SuperLook? || e.SuperStopped? || e.SuperWake?
    ensures Disciplined(Step(s, e))
  {
    assert SuperOk(s, e.who);
    StrideKeepsDiscipline(s, Step(s, e), e.who);
  }

  lemma StepKeepsDiscipline(s: Sys, e: Event)
    requires Disciplined(s)
    ensures Disciplined(Step(s, e))
  {
    if Enabled(s, e) {
      match e
      case Configure(_, _) => SameSlotsKeepDiscipline(s, Step(s, e));
      case Lookup(name) => LookupKeepsDiscipline(s, name);
      case ResumeLocked(h) => ResumeKeepsDiscipline(s, h);
      case EnsureFails(h) => SameSlotsKeepDiscipline(s, Step(s, e));
      case EnsureConnects(h, oks) => EnsureKeepsDiscipline(s, h, oks);
      case ReconcileLocked(h, oks) =>
        ReconcileKeepsSlots(s, h, oks);
        SameSlotsKeepDiscipline(s, Step(s, e));
      case ReleaseTake(name) => TakeKeepsDiscipline(s, name);
      case ReleaseLocked(h) => ReleaseKeepsDiscipline(s, h);
      case SuperDialFails(i) => DialFailsKeepsDiscipline(s, i);
      case SuperDialOk(i) => DialOkKeepsDiscipline(s, i);
      case SuperAdopt(i, oks) =>
        if s.hosts[s.supers[i].host].dial.None? && !Stopped(s, s.supers[i].host) {
          AdoptingKeepsDiscipline(s, i, oks);
        } else {
          DiscardingKeepsDiscipline(s, i, oks);
        }
      case SuperLost(i) => LostKeepsDiscipline(s, i);
      case _ => SuperStepKeepsDiscipline(s, e);
    }
  }

  // --- tables and configuration ------------------------------------------------------------

  /** A connected host's table agrees with the configuration it last reconciled with. */
  predicate AgreesWithLast(s: Sys, h: nat)
    requires h in s.hosts
  {
    s.hosts[h].dial.Some? ==> h in s.last && Agrees(s.hosts[h].table, s.last[h])
  }

  ghost predicate Agreement(s: Sys) {
    forall h {:trigger AgreesWithLast(s, h)} :: h in s.hosts ==> AgreesWithLast(s, h)
  }

  lemma ReconcileKeepsAgreement(s: Sys, m: Sys, h: nat, oks: set<nat>)
    requires h in s.hosts && Disjoint(s.hosts[h].table) && m == ReconcileAt(s, h, oks)
    requires forall g {:trigger AgreesWithLast(s, g)} :: g in s.hosts && g != h ==> AgreesWithLast(s, g)
    ensures Agreement(m)
  {
    ReconcileAgrees(s.hosts[h].table, SpecsOf(s, h), oks, s.nextEntry);
    forall g | g in m.hosts ensures AgreesWithLast(m, g) {
      assert g != h ==> AgreesWithLast(s, g);
    }
  }

  lemma InstallKeepsAgreement(s: Sys, h: nat, d: nat, oks: set<nat>)
    requires Agreement(s) && h in s.hosts && Disjoint(s.hosts[h].table)
    ensures Agreement(Install(s, h, d, oks))
  {
    var a := s.(hosts := s.hosts[h := s.hosts[h].(dial := Some(d), lastErr := "")]);
    forall g | g in a.hosts && g != h ensures AgreesWithLast(a, g) {
      assert AgreesWithLast(s, g);
    }
    ReconcileKeepsAgreement(a, Install(s, h, d, oks), h, oks);
  }

  /** The step connects nobody and touches no table of a host that stays connected. */
  ghost predicate NoNewTables(s: Sys, m: Sys) {
    && m.last == s.last
    && forall g {:trigger m.hosts[g]} :: g in m.hosts && m.hosts[g].dial.Some? ==>
         g in s.hosts && s.hosts[g].dial.Some? && m.hosts[g].table == s.hosts[g].table
  }

  lemma NoNewTablesKeepAgreement(s: Sys, m: Sys)
    requires Agreement(s) && NoNewTables(s, m)
    ensures Agreement(m)
  {
    forall g | g in m.hosts ensures AgreesWithLast(m, g) {
      if m.hosts[g].dial.Some? {
        assert AgreesWithLast(s, g);
      }
    }
  }

  lemma OneHostNoNewTables(s: Sys, m: Sys, h: nat, host: Host)
    requires m.last == s.last && m.hosts == s.hosts[h := host]
    requires host.dial.Some? ==> h in s.hosts && s.hosts[h].dial.Some? && host.table == s.hosts[h].table
    ensures NoNewTables(s, m)
  {
  }

  lemma AdoptKeepsAgreement(s: Sys, i: nat, oks: set<nat>)
    requires Conserved(s) && Agreement(s) && Enabled(s, SuperAdopt(i, oks))
    ensures Agreement(DoAdopt(s, i, oks))
  {
    var h, d := s.supers[i].host, s.supers[i].at.dial;
    assert TableOk(s, h);
    if s.hosts[h].dial.None? && !Stopped(s, h) {
      var a := s.(dials := s.dials[d := s.dials[d].(adopter := Some(BySupervisor), late := Stopped(s, h), exposed := Watched(s, h))],
                  supers := s.supers[i := Super(h, Top, s.base)]);
      NoNewTablesKeepAgreement(s, a);
      InstallKeepsAgreement(a, h, d, oks);
    } else {
      NoNewTablesKeepAgreement(s, DoAdopt(s, i, oks));
    }
  }

  lemma HostEventsKeepAgreement(s: Sys, e: Event)
    requires Agreement(s) && Enabled(s, e)
    requires e.Lookup? || e.ResumeLocked? || e.EnsureFails? || e.ReleaseLocked?
    ensures Agreement(Step(s, e))
  {
    match e {
    case Lookup(name) => OneHostNoNewTables(s, Step(s, e), s.nextHost, NewHost(name));
    case ResumeLocked(h) => OneHostNoNewTables(s, Step(s, e), h, s.hosts[h].(supervising := true));
    case EnsureFails(h) => OneHostNoNewTables(s, Step(s, e), h, DialFailed(s.hosts[h]));
    case ReleaseLocked(h) => OneHostNoNewTables(s, Step(s, e), h, ReleasedHost(s.hosts[h]));
    }
    NoNewTablesKeepAgreement(s, Step(s, e));
  }

  lemma SuperEventsKeepAgreement(s: Sys, e: Event)
    requires Agreement(s) && Enabled(s, e) && (e.SuperDialFails? || e.SuperLost?)
    ensures Agreement(Step(s, e))
  {
    match e {
    case SuperDialFails(i) =>
      OneHostNoNewTables(s, Step(s, e), s.supers[i].host, DialFailed(s.hosts[s.supers[i].host]));
    case SuperLost(i) =>
      OneHostNoNewTables(s, Step(s, e), s.supers[i].host, LostHost(s.hosts[s.supers[i].host]));
    }
    NoNewTablesKeepAgreement(s, Step(s, e));
  }

  lemma EnsureKeepsAgreement(s: Sys, h: nat, oks: set<nat>)
    requires Conserved(s) && Agreement(s) && Enabled(s, EnsureConnects(h, oks))
    ensures Agreement(Step(s, EnsureConnects(h, oks)))
  {
    assert TableOk(s, h);
    var a := s.(dials := s.dials[s.nextDial := Dial(h, 0, Some(ByEnsure), Stopped(s, h), Watched(s, h), 0, false)], nextDial := s.nextDial + 1);
    NoNewTablesKeepAgreement(s, a);
    InstallKeepsAgreement(a, h, s.nextDial, oks);
  }

  lemma StepKeepsAgreement(s: Sys, e: Event)
    requires Conserved(s) && Agreement(s)
    ensures Agreement(Step(s, e))
  {
    if Enabled(s, e) {
      if e.Lookup? || e.ResumeLocked? || e.EnsureFails? || e.ReleaseLocked? {
        HostEventsKeepAgreement(s, e);
      } else if e.SuperDialFails? || e.SuperLost? {
        SuperEventsKeepAgreement(s, e);
      } else if e.EnsureConnects? {
        EnsureKeepsAgreement(s, e.host, e.oks);
      } else if e.ReconcileLocked? {
        assert TableOk(s, e.host);
        ReconcileKeepsAgreement(s, Step(s, e), e.host, e.oks);
      } else if e.SuperAdopt? {
        AdoptKeepsAgreement(s, e.who, e.oks);
      } else {
        HostsUntouched(s, e);
        NoNewTablesKeepAgreement(s, Step(s, e));
      }
    }
  }

  // --- theorems about every run ---------------------------------------------------------------

  lemma {:induction false} ReachableStatesAreGood(base: int, cap: int, es: seq<Event>)
    ensures Conserved(Exec(Init(base, cap), es)) && Disciplined(Exec(Init(base, cap), es))
    ensures Agreement(Exec(Init(base, cap), es))
    decreases |es|
  {
    if es != [] {
      var s, e := Exec(Init(base, cap), es[..|es| - 1]), es[|es| - 1];
      ReachableStatesAreGood(base, cap, es[..|es| - 1]);
      StepKeepsConserved(s, e);
      StepKeepsDiscipline(s, e);
      StepKeepsAgreement(s, e);
    }
  }

  /** The configuration is the one `h` last reconciled with. */
  predicate Reconciled(s: Sys, h: nat)
    requires h in s.hosts
  {
    h in s.last && s.last[h] == SpecsOf(s, h)
  }

  /** While the configuration is unchanged since the last reconcile, a connected host runs
      only enabled forwards and knows the fate of every one, and `list` tells the truth about
      each row; without a connection it does so always. */
  lemma TablesAgreeAndListIsTruthful(base: int, cap: int, es: seq<Event>, h: nat, f: Forward)
    requires h in Exec(Init(base, cap), es).hosts && f in SpecsOf(Exec(Init(base, cap), es), h)
    ensures var s := Exec(Init(base, cap), es);
      && Disjoint(s.hosts[h].table)
      && (s.hosts[h].dial.None? ==> s.hosts[h].table.entries == map[])
      && (s.hosts[h].dial.Some? && Reconciled(s, h) ==> Agrees(s.hosts[h].table, SpecsOf(s, h)))
      && (s.hosts[h].dial.None? || Reconciled(s, h) ==> Truthful(s.hosts[h], [ListOne(s.hosts[h], f)]))
  {
    ReachableStatesAreGood(base, cap, es);
    var s := Exec(Init(base, cap), es);
    assert TableOk(s, h) && AgreesWithLast(s, h);
    ListIsTruthfulIff(s.hosts[h], f);
    assert IsEnabled(f) ==> KeyOf(f) in EnabledKeys(SpecsOf(s, h));
  }

  /** Entry `e` sits in the table of host state `h` under `k`. */
  predicate Sits(s: Sys, e: nat, h: nat, k: Key) {
    h in s.hosts && k in s.hosts[h].table.entries && s.hosts[h].table.entries[k] == e
  }

  /** Every launched entry either sits in exactly one table, uncancelled, or sits in none and
      has been cancelled exactly once. */
  lemma ForwardsAreConserved(base: int, cap: int, es: seq<Event>, e: nat)
    requires e in Exec(Init(base, cap), es).home
    ensures var s := Exec(Init(base, cap), es);
      && e in s.cancels
      && (|| (s.cancels[e] == 0 && (exists h, k :: Sits(s, e, h, k))
              && (forall h, k, h', k' :: Sits(s, e, h, k) && Sits(s, e, h', k') ==> h == h' && k == k'))
          || (s.cancels[e] == 1 && forall h, k :: !Sits(s, e, h, k)))
  {
    ReachableStatesAreGood(base, cap, es);
    var s := Exec(Init(base, cap), es);
    assert EntryOk(s, e);
    forall h, k | Sits(s, e, h, k) ensures AtHome(s, e, h, k) {
      assert Homed(s, h);
    }
    if s.cancels[e] == 0 {
      assert Sits(s, e, s.home[e].host, s.home[e].key);
    }
  }

  /** And nothing else ever sits in a table: what runs was launched and never cancelled. */
  lemma TablesHoldOnlyLaunched(base: int, cap: int, es: seq<Event>, e: nat, h: nat, k: Key)
    requires Sits(Exec(Init(base, cap), es), e, h, k)
    ensures var s := Exec(Init(base, cap), es);
      && AtHome(s, e, h, k) && s.hosts[h].dial.Some? && k !in s.hosts[h].table.failed
  {
    ReachableStatesAreGood(base, cap, es);
    var s := Exec(Init(base, cap), es);
    assert Homed(s, h) && TableOk(s, h);
  }

  predicate Live(s: Sys, i: nat, h: nat) {
    i in s.supers && s.supers[i].host == h && s.supers[i].at != Exited
  }

  /** An unreleased state is marked supervised exactly when a supervisor runs for it, never
      more than one; and no stop channel is closed twice. */
  lemma OneSupervisorPerHost(base: int, cap: int, es: seq<Event>, h: nat)
    requires h in Exec(Init(base, cap), es).hosts
    ensures var s := Exec(Init(base, cap), es);
      && s.hosts[h].stops <= 1
      && (!Stopped(s, h) ==>
            && (s.hosts[h].supervising <==> exists i :: Live(s, i, h))
            && (forall i, j :: Live(s, i, h) && Live(s, j, h) ==> i == j))
  {
    ReachableStatesAreGood(base, cap, es);
    var s := Exec(Init(base, cap), es);
    assert KeptOk(s, h);
    if !Stopped(s, h) {
      forall i | Live(s, i, h) ensures s.hosts[h].supervising && h in s.keeper && s.keeper[h] == i {
        assert SuperOk(s, i);
      }
      if s.hosts[h].supervising {
        assert Live(s, s.keeper[h], h);
      }
    }
  }

  /** Where a successful dial can be. */
  predicate Accounted(s: Sys, d: nat)
    requires d in s.dials
  {
    var c := s.dials[d];
    || (c.host in s.hosts && s.hosts[c.host].dial == Some(d))
    || (c.holder in s.supers && s.supers[c.holder].at == Dialled(d))
    || c.closes == 1
    || c.dead
  }

  /** Every dial is in place, still in the hands of the supervisor that made it, closed, or
      observed dead, unless ensure installed it on a released state while a supervisor was
      still waiting for that state's earlier connection. It is closed at most once, never
      while in place, and only ensure installs after a release. */
  lemma DialsAreAccounted(base: int, cap: int, es: seq<Event>, d: nat)
    requires d in Exec(Init(base, cap), es).dials
    ensures var s := Exec(Init(base, cap), es); var c := s.dials[d];
      && (!c.exposed ==> Accounted(s, d))
      && (c.exposed ==> c.late)
      && c.closes <= 1
      && (c.late ==> c.adopter == Some(ByEnsure) && c.host in s.hosts && Stopped(s, c.host))
      && forall h :: h in s.hosts && s.hosts[h].dial == Some(d) ==> h == c.host && c.closes == 0
  {
    ReachableStatesAreGood(base, cap, es);
    var s := Exec(Init(base, cap), es);
    assert DialOk(s, d);
    forall h | h in s.hosts && s.hosts[h].dial == Some(d) ensures h == s.dials[d].host && s.dials[d].closes == 0 {
      assert CurrentOk(s, h);
    }
  }

  /** The exception is exact. Whenever ensure installs a connection while some supervisor of
      that state is waiting on an earlier one, the death of the earlier one makes that
      supervisor drop the new connection: it is then not in place, not closed and not
      observed dead. */
  lemma ExposedConnectionsCanBeLost(s: Sys, h: nat, i: nat, oks: set<nat>)
    requires Disciplined(s) && h in s.hosts && s.hosts[h].dial.None?
    requires i in s.supers && s.supers[i].host == h && s.supers[i].at.Watching?
    ensures var d := s.nextDial; var m := Step(Step(s, EnsureConnects(h, oks)), SuperLost(i));
      d in m.dials && m.dials[d].exposed && m.dials[d].late && !Accounted(m, d)
  {
    assert SuperOk(s, i);
    var d, w := s.nextDial, s.supers[i].at.dial;
    assert DialOk(s, w);
    var a := EnsurePlaced(s, h);
    var b := ReconcileAt(a, h, oks);
    ReconcileKeepsSlots(a, h, oks);
    assert DoEnsure(s, h, oks) == b;
    assert Step(s, EnsureConnects(h, oks)) == b;
    assert d in s.dials ==> DialOk(s, d);
    forall j | j in s.supers ensures s.supers[j].at != Dialled(d) {
      assert SuperOk(s, j);
    }
    LostDropsCurrent(b, i, h, d);
  }

  lemma LostDropsCurrent(b: Sys, i: nat, h: nat, d: nat)
    requires i in b.supers && b.supers[i].host == h && b.supers[i].at.Watching? && h in b.hosts
    requires d in b.dials && b.supers[i].at.dial in b.dials && b.supers[i].at.dial != d
    requires b.dials[d].host == h && b.dials[d].closes == 0 && !b.dials[d].dead
    requires forall j {:trigger b.supers[j]} :: j in b.supers ==> b.supers[j].at != Dialled(d)
    ensures var m := Step(b, SuperLost(i)); d in m.dials && m.dials[d] == b.dials[d] && !Accounted(m, d)
  {
    assert Step(b, SuperLost(i)) == DoLost(b, i);
  }

  lemma RefusalCloses(s: Sys, i: nat)
    requires i in s.supers && s.supers[i].at.Dialled? && s.supers[i].host in s.hosts && s.supers[i].at.dial in s.dials
    ensures DoRefuse(s, i).hosts == s.hosts && DoRefuse(s, i).home == s.home
    ensures DoRefuse(s, i).dials == Close(s.dials, Some(s.supers[i].at.dial))
  {
  }

  lemma CloseOnce(dials: map<nat, Dial>, d: nat)
    requires d in dials && dials[d].closes == 0 && dials[d].adopter.None?
    ensures d in Close(dials, Some(d)) && Close(dials, Some(d))[d].closes == 1 && Close(dials, Some(d))[d].adopter.None?
  {
  }

  /** In every run: a supervisor never installs a connection on a released state, even when it was
      dialling while the release ran; it closes the connection. What carries this is the discipline
      invariant, by which the connection is still this supervisor's own and unclosed. */
  lemma SupervisorNeverAdoptsAfterRelease(base: int, cap: int, es: seq<Event>, i: nat, oks: set<nat>)
    requires var s := Exec(Init(base, cap), es); Enabled(s, SuperAdopt(i, oks)) && Stopped(s, s.supers[i].host)
    ensures var s := Exec(Init(base, cap), es);
      var m := Step(s, SuperAdopt(i, oks)); var d := s.supers[i].at.dial;
      && m.hosts == s.hosts && m.home == s.home
      && d in m.dials && m.dials[d].adopter.None? && m.dials[d].closes == 1
  {
    ReachableStatesAreGood(base, cap, es);
    var s := Exec(Init(base, cap), es);
    assert SuperOk(s, i);
    RefusalCloses(s, i);
    CloseOnce(s.dials, s.supers[i].at.dial);
    assert Step(s, SuperAdopt(i, oks)) == DoAdopt(s, i, oks) == DoRefuse(s, i);
  }

  lemma ExecSnoc(s: Sys, es: seq<Event>, e: Event)
    ensures Exec(s, es + [e]) == Step(Exec(s, es), e)
  {
    assert (es + [e])[..|es|] == es;
  }

  /** A configured host gets its first connection. */
  lemma FirstConnection(f: Forward) returns (es: seq<Event>)
    requires IsEnabled(f)
    ensures var s := Exec(Init(0, 0), es);
      && s.hosts.Keys == {0} && s.hosts[0].dial == Some(0) && s.hosts[0].stops == 0 && !s.hosts[0].supervising
      && SpecsOf(s, 0) == [f] && s.index == map["h" := 0] && s.supers == map[] && s.nextSuper == 0
  {
    var z := Init(0, 0);
    var s1 := Step(z, Configure("h", [f]));
    var s2 := Step(s1, Lookup("h"));
    assert s2.hosts == map[0 := NewHost("h")] && s2.index == map["h" := 0];
    ReconcileKeepsSlots(EnsurePlaced(s2, 0), 0, {});
    assert Step(s2, EnsureConnects(0, {})) == DoEnsure(s2, 0, {}) == ReconcileAt(EnsurePlaced(s2, 0), 0, {});
    ExecSnoc(z, [], Configure("h", [f]));
    es := [Configure("h", [f])];
    assert [] + es == es;
    ExecSnoc(z, es, Lookup("h"));
    es := es + [Lookup("h")];
    ExecSnoc(z, es, EnsureConnects(0, {}));
    es := es + [EnsureConnects(0, {})];
  }

  /** And then a supervisor that watches it. */
  lemma WatcherStarts(f: Forward) returns (es: seq<Event>)
    requires IsEnabled(f)
    ensures var s := Exec(Init(0, 0), es);
      && SuperAt(s, 0, Watching(0)) && s.supers[0].host == 0 && s.index == map["h" := 0] && 0 in s.hosts
  {
    var z := Init(0, 0);
    es := FirstConnection(f);
    var s3 := Exec(z, es);
    assert IsEnabled(SpecsOf(s3, 0)[0]);
    var s4 := DoResume(s3, 0);
    assert Step(s3, ResumeLocked(0)) == s4;
    assert s4.supers == map[0 := Super(0, Top, s3.base)];
    var s5 := Step(s4, SuperTop(0));
    assert s5 == SetSuper(s4, 0, Looking);
    var s6 := Step(s5, SuperLook(0));
    assert s6 == SetSuper(s5, 0, Watching(0));
    ExecSnoc(z, es, ResumeLocked(0));
    ExecSnoc(z, es + [ResumeLocked(0)], SuperTop(0));
    ExecSnoc(z, es + [ResumeLocked(0)] + [SuperTop(0)], SuperLook(0));
    es := es + [ResumeLocked(0)] + [SuperTop(0)] + [SuperLook(0)];
  }

  /** A release leaves that supervisor waiting. */
  lemma ReleaseLeavesWatcher() returns (es: seq<Event>)
    ensures var s := Exec(Init(0, 0), es);
      0 in s.hosts && s.hosts[0].dial.None? && SuperAt(s, 0, Watching(0)) && s.supers[0].host == 0
  {
    var z := Init(0, 0);
    es := WatcherStarts(Forward("local", "localhost:80", "127.0.0.1:8080", None));
    ExecSnoc(z, es, ReleaseTake("h"));
    es := es + [ReleaseTake("h")];
    var s7 := Exec(z, es);
    assert 0 in s7.taken;
    ExecSnoc(z, es, ReleaseLocked(0));
    es := es + [ReleaseLocked(0)];
    assert Exec(z, es) == DoRelease(s7, 0);
  }

  /** And so the exception happens in a run from the start. */
  lemma LateConnectionCanBeLost()
    ensures exists es, d :: d in Exec(Init(0, 0), es).dials && !Accounted(Exec(Init(0, 0), es), d)
  {
    var z := Init(0, 0);
    var e8 := ReleaseLeavesWatcher();
    var s8 := Exec(z, e8);
    ReachableStatesAreGood(0, 0, e8);
    ExposedConnectionsCanBeLost(s8, 0, 0, {});
    ExecSnoc(z, e8, EnsureConnects(0, {}));
    ExecSnoc(z, e8 + [EnsureConnects(0, {})], SuperLost(0));
    var e10 := e8 + [EnsureConnects(0, {})] + [SuperLost(0)];
    assert s8.nextDial in Exec(z, e10).dials && !Accounted(Exec(z, e10), s8.nextDial);
  }

  /** In every run, a supervisor whose dial succeeded on a live host without a connection installs it, and
      starts what is configured as the launches turn out. */
  lemma SupervisorAdopts(base: int, cap: int, es: seq<Event>, i: nat, oks: set<nat>)
    requires var s := Exec(Init(base, cap), es);
      && i in s.supers && s.supers[i].at.Dialled? && s.supers[i].host in s.hosts && s.supers[i].at.dial in s.dials
      && !Stopped(s, s.supers[i].host) && s.hosts[s.supers[i].host].dial.None?
    ensures Adopted(Exec(Init(base, cap), es), Exec(Init(base, cap), es + [SuperAdopt(i, oks)]), i, oks)
  {
    ReachableStatesAreGood(base, cap, es);
    ExecSnoc(Init(base, cap), es, SuperAdopt(i, oks));
    assert SuperOk(Exec(Init(base, cap), es), i);
    AdoptStep(Exec(Init(base, cap), es), i, oks);
  }

  /** `m` is `s` with what supervisor `i` dialled in place and open, and the tables reconciled. */
  ghost predicate Adopted(s: Sys, m: Sys, i: nat, oks: set<nat>)
    requires i in s.supers && s.supers[i].at.Dialled? && s.supers[i].host in s.hosts
  {
    var h, d := s.supers[i].host, s.supers[i].at.dial;
    && h in m.hosts && m.hosts[h].dial == Some(d) && m.hosts[h].lastErr == ""
    && d in m.dials && m.dials[d].adopter == Some(BySupervisor) && m.dials[d].closes == 0
    && m.hosts[h].table == Reconcile(s.hosts[h].table, SpecsOf(s, h), oks, s.nextEntry).0
    && i in m.supers && m.supers[i].at == Top
  }

  lemma AdoptStep(s: Sys, i: nat, oks: set<nat>)
    requires i in s.supers && s.supers[i].at.Dialled? && s.supers[i].host in s.hosts && s.supers[i].at.dial in s.dials
    requires !Stopped(s, s.supers[i].host) && s.hosts[s.supers[i].host].dial.None? && SuperOk(s, i)
    ensures Adopted(s, Step(s, SuperAdopt(i, oks)), i, oks)
  {
    assert Step(s, SuperAdopt(i, oks)) == DoAdopt(s, i, oks);
    AdoptionInstalls(s, i, oks);
  }

  lemma AdoptionInstalls(s: Sys, i: nat, oks: set<nat>)
    requires i in s.supers && s.supers[i].at.Dialled? && s.supers[i].host in s.hosts && s.supers[i].at.dial in s.dials
    requires !Stopped(s, s.supers[i].host) && s.hosts[s.supers[i].host].dial.None?
    ensures var m := DoAdopt(s, i, oks); var h, d := s.supers[i].host, s.supers[i].at.dial;
      && h in m.hosts && m.hosts[h].dial == Some(d) && m.hosts[h].lastErr == ""
      && d in m.dials && m.dials[d] == s.dials[d].(adopter := Some(BySupervisor), late := false, exposed := Watched(s, h))
      && m.hosts[h].table == Reconcile(s.hosts[h].table, SpecsOf(s, h), oks, s.nextEntry).0
      && i in m.supers && m.supers[i].at == Top
  {
    var h, d := s.supers[i].host, s.supers[i].at.dial;
    var a := s.(dials := s.dials[d := s.dials[d].(adopter := Some(BySupervisor), late := Stopped(s, h), exposed := Watched(s, h))],
                supers := s.supers[i := Super(h, Top, s.base)],
                hosts := s.hosts[h := s.hosts[h].(dial := Some(d), lastErr := "")]);
    assert DoAdopt(s, i, oks) == ReconcileAt(a, h, oks);
    assert SpecsOf(a, h) == SpecsOf(s, h) && a.hosts[h].table == s.hosts[h].table;
  }

  /** The same of a successful ensure. */
  lemma EnsureInstalls(base: int, cap: int, es: seq<Event>, h: nat, oks: set<nat>)
    requires var s := Exec(Init(base, cap), es); h in s.hosts && s.hosts[h].dial.None?
    ensures var s := Exec(Init(base, cap), es); var m := Exec(Init(base, cap), es + [EnsureConnects(h, oks)]);
      && h in m.hosts && m.hosts[h].dial == Some(s.nextDial) && m.hosts[h].lastErr == ""
      && m.hosts[h].table == Reconcile(s.hosts[h].table, SpecsOf(s, h), oks, s.nextEntry).0
  {
    ExecSnoc(Init(base, cap), es, EnsureConnects(h, oks));
    var s := Exec(Init(base, cap), es);
    var a := EnsurePlaced(s, h);
    assert Step(s, EnsureConnects(h, oks)) == DoEnsure(s, h, oks) == ReconcileAt(a, h, oks);
    assert SpecsOf(a, h) == SpecsOf(s, h) && a.hosts[h].table == s.hosts[h].table;
  }

  /** In every run, a host that is looked up for the first time gets a state of its own with nothing in it. */
  lemma LookupCreates(base: int, cap: int, es: seq<Event>, name: string)
    requires name !in Exec(Init(base, cap), es).index
    ensures var s, m := Exec(Init(base, cap), es), Exec(Init(base, cap), es + [Lookup(name)]);
      && name in m.index && m.index[name] !in s.hosts && m.index[name] in m.hosts
      && m.hosts[m.index[name]] == NewHost(name)
      && forall h :: h in s.hosts ==> h in m.hosts && m.hosts[h] == s.hosts[h]
  {
    ReachableStatesAreGood(base, cap, es);
    ExecSnoc(Init(base, cap), es, Lookup(name));
  }

  /** In every run, a host with an enabled forward and no supervisor gets one, with the backoff at its base. */
  lemma ResumeStarts(base: int, cap: int, es: seq<Event>, h: nat)
    requires var s := Exec(Init(base, cap), es); h in s.hosts && !s.hosts[h].supervising && HasEnabled(SpecsOf(s, h))
    ensures var s, m := Exec(Init(base, cap), es), Exec(Init(base, cap), es + [ResumeLocked(h)]);
      && h in m.hosts && m.hosts[h].supervising && s.nextSuper !in s.supers
      && m.supers == s.supers[s.nextSuper := Super(h, Top, s.base)]
  {
    ReachableStatesAreGood(base, cap, es);
    ExecSnoc(Init(base, cap), es, ResumeLocked(h));
    var s := Exec(Init(base, cap), es);
    assert s.nextSuper in s.supers ==> SuperOk(s, s.nextSuper);
  }

  /** In every run, a reconcile on a connected host starts and cancels what its configuration asks for. */
  lemma ReconcileApplies(base: int, cap: int, es: seq<Event>, h: nat, oks: set<nat>)
    requires var s := Exec(Init(base, cap), es); h in s.hosts && s.hosts[h].dial.Some?
    ensures var s, m := Exec(Init(base, cap), es), Exec(Init(base, cap), es + [ReconcileLocked(h, oks)]);
      && h in m.hosts && m.hosts[h].dial == s.hosts[h].dial
      && m.hosts[h].table == Reconcile(s.hosts[h].table, SpecsOf(s, h), oks, s.nextEntry).0
  {
    ExecSnoc(Init(base, cap), es, ReconcileLocked(h, oks));
  }

  /** In every run, a supervisor's good dial is a new connection in its hands. */
  lemma SupervisorDials(base: int, cap: int, es: seq<Event>, i: nat)
    requires SuperAt(Exec(Init(base, cap), es), i, Dialling)
    ensures var s, m := Exec(Init(base, cap), es), Exec(Init(base, cap), es + [SuperDialOk(i)]);
      var d := s.nextDial;
      && d !in s.dials && i in m.supers && m.supers[i].at == Dialled(d)
      && d in m.dials && m.dials[d].adopter.None? && m.dials[d].closes == 0
  {
    ReachableStatesAreGood(base, cap, es);
    ExecSnoc(Init(base, cap), es, SuperDialOk(i));
    var s := Exec(Init(base, cap), es);
    assert s.nextDial in s.dials ==> DialOk(s, s.nextDial);
  }

  /** In every run, after its sleep a supervisor goes back to the top of its loop; and one that sleeps or
      watches ends once its state is released. */
  lemma SupervisorWakes(base: int, cap: int, es: seq<Event>, i: nat)
    requires SuperAt(Exec(Init(base, cap), es), i, Sleeping)
    ensures SuperAt(Exec(Init(base, cap), es + [SuperWake(i)]), i, Top)
  {
    ExecSnoc(Init(base, cap), es, SuperWake(i));
  }

  lemma SupervisorIsStopped(base: int, cap: int, es: seq<Event>, i: nat)
    requires var s := Exec(Init(base, cap), es);
      && i in s.supers && (s.supers[i].at == Sleeping || s.supers[i].at.Watching?)
      && s.supers[i].host in s.hosts && Stopped(s, s.supers[i].host)
    ensures SuperAt(Exec(Init(base, cap), es + [SuperStopped(i)]), i, Exited)
  {
    ExecSnoc(Init(base, cap), es, SuperStopped(i));
  }

  /** In every run, a supervisor that looks watches the connection in place, or dials if there is none. */
  lemma SupervisorLooks(base: int, cap: int, es: seq<Event>, i: nat)
    requires SuperAt(Exec(Init(base, cap), es), i, Looking)
    ensures var s := Exec(Init(base, cap), es); var m := Exec(Init(base, cap), es + [SuperLook(i)]);
      var d := s.hosts[s.supers[i].host].dial;
      i in m.supers && m.supers[i].at == (if d.Some? then Watching(d.value) else Dialling)
  {
    ExecSnoc(Init(base, cap), es, SuperLook(i));
  }

  /** And at the top of its loop it ends exactly when its state has been released. */
  lemma SupervisorEnds(base: int, cap: int, es: seq<Event>, i: nat)
    requires SuperAt(Exec(Init(base, cap), es), i, Top)
    ensures var s := Exec(Init(base, cap), es); var m := Exec(Init(base, cap), es + [SuperTop(i)]);
      i in m.supers && (m.supers[i].at == Exited <==> Stopped(s, s.supers[i].host))
  {
    ExecSnoc(Init(base, cap), es, SuperTop(i));
  }

  /** In every run, a failed dial leaves an error on a host without a connection, and none on a connected one. */
  lemma FailureIsRecorded(base: int, cap: int, es: seq<Event>, e: Event, h: nat)
    requires var s := Exec(Init(base, cap), es);
      || (e == EnsureFails(h) && h in s.hosts && s.hosts[h].dial.None?)
      || (e.SuperDialFails? && SuperAt(s, e.who, Dialling) && s.supers[e.who].host == h)
    ensures var s, m := Exec(Init(base, cap), es), Exec(Init(base, cap), es + [e]);
      && h in s.hosts && h in m.hosts && m.hosts[h].dial == s.hosts[h].dial && m.hosts[h].table == s.hosts[h].table
      && (if s.hosts[h].dial.None? then m.hosts[h].lastErr != "" else m.hosts[h].lastErr == s.hosts[h].lastErr)
  {
    ExecSnoc(Init(base, cap), es, e);
    if e.SuperDialFails? {
      assert Step(Exec(Init(base, cap), es), e) == DoDialFails(Exec(Init(base, cap), es), e.who);
    }
  }

  /** In every run, when a watched connection dies its host has no connection and runs nothing afterwards:
      each forward that ran is cancelled and marked as lost, and earlier failures stay as they were. */
  lemma LossIsRecorded(base: int, cap: int, es: seq<Event>, i: nat)
    requires var s := Exec(Init(base, cap), es);
      i in s.supers && s.supers[i].at.Watching? && s.supers[i].host in s.hosts && s.supers[i].at.dial in s.dials
    ensures Lost(Exec(Init(base, cap), es), Exec(Init(base, cap), es + [SuperLost(i)]), Exec(Init(base, cap), es).supers[i].host)
  {
    ReachableStatesAreGood(base, cap, es);
    ExecSnoc(Init(base, cap), es, SuperLost(i));
    var s := Exec(Init(base, cap), es);
    assert TableOk(s, s.supers[i].host) && Homed(s, s.supers[i].host);
    LostStep(s, i);
  }

  /** `m` is `s` after the connection of `h` was seen to be dead. */
  ghost predicate Lost(s: Sys, m: Sys, h: nat)
    requires h in s.hosts
  {
    && h in m.hosts && m.hosts[h].dial.None? && m.hosts[h].table.entries == map[] && m.hosts[h].lastErr != ""
    && (forall k :: k in s.hosts[h].table.entries ==>
          && k in m.hosts[h].table.failed && m.hosts[h].table.failed[k] == ConnectionLost
          && s.hosts[h].table.entries[k] in m.cancels && m.cancels[s.hosts[h].table.entries[k]] == 1)
    && (forall k :: k in s.hosts[h].table.failed ==>
          k in m.hosts[h].table.failed && m.hosts[h].table.failed[k] == s.hosts[h].table.failed[k])
  }

  lemma LostStep(s: Sys, i: nat)
    requires i in s.supers && s.supers[i].at.Watching? && s.supers[i].host in s.hosts && s.supers[i].at.dial in s.dials
    requires TableOk(s, s.supers[i].host) && Homed(s, s.supers[i].host)
    ensures Lost(s, Step(s, SuperLost(i)), s.supers[i].host)
  {
    var h := s.supers[i].host;
    assert Step(s, SuperLost(i)) == DoLost(s, i);
    forall k | k in s.hosts[h].table.entries ensures AtHome(s, s.hosts[h].table.entries[k], h, k) {
    }
  }

  /** In every run, a release takes away connection and tables and closes the stop channel. */
  lemma ReleaseClears(base: int, cap: int, es: seq<Event>, h: nat)
    requires var s := Exec(Init(base, cap), es); h in s.taken && h in s.hosts
    ensures var s := Exec(Init(base, cap), es); var m := Exec(Init(base, cap), es + [ReleaseLocked(h)]);
      && h in m.hosts && m.hosts[h].dial.None? && m.hosts[h].table == Table(map[], map[])
      && m.hosts[h].stops == 1 && !m.hosts[h].supervising && h !in m.taken
      && (s.hosts[h].dial.Some? ==> s.hosts[h].dial.value in m.dials && m.dials[s.hosts[h].dial.value].closes == 1)
      && (forall k :: k in s.hosts[h].table.entries ==>
            s.hosts[h].table.entries[k] in m.cancels && m.cancels[s.hosts[h].table.entries[k]] == 1)
  {
    ReachableStatesAreGood(base, cap, es);
    ExecSnoc(Init(base, cap), es, ReleaseLocked(h));
    var s := Exec(Init(base, cap), es);
    assert CurrentOk(s, h) && Homed(s, h);
    assert Step(s, ReleaseLocked(h)) == DoRelease(s, h);
    forall k | k in s.hosts[h].table.entries ensures AtHome(s, s.hosts[h].table.entries[k], h, k) {
    }
  }

  lemma LaunchesFirst(g: Forward)
    requires IsEnabled(g)
    ensures Reconcile(Table(map[], map[]), [g], {0}, 0) == (Table(map[KeyOf(g) := 0], map[]), [KeyOf(g)])
  {
    var t := Table(map[], map[]);
    assert Prune(t, [g]) == t;
    assert LaunchN(t, [g], {0}, 0, 0) == (t, []);
    assert LaunchN(t, [g], {0}, 0, 1) == LaunchOne((t, []), g, true, 0);
    var e: map<Key, nat>, d: map<Key, Failure>, ks: seq<Key> := map[], map[], [];
    assert d - {KeyOf(g)} == d && e[KeyOf(g) := 0] == map[KeyOf(g) := 0] && ks + [KeyOf(g)] == [KeyOf(g)];
  }

  lemma ConfiguredHost(g: Forward)
    ensures var s := Exec(Init(0, 0), [Configure("h", [g]), Lookup("h")]);
      s.hosts == map[0 := NewHost("h")] && s.specs == map["h" := [g]] && s.nextEntry == 0 && s.nextDial == 0
  {
    var z := Init(0, 0);
    var es1 := [Configure("h", [g])];
    ExecSnoc(z, [], Configure("h", [g]));
    assert [] + es1 == es1;
    ExecSnoc(z, es1, Lookup("h"));
    assert es1 + [Lookup("h")] == [Configure("h", [g]), Lookup("h")];
  }

  /** A host with one forward configured connects and runs it. */
  lemma ConnectsAndRuns(g: Forward)
    requires IsEnabled(g)
    ensures var s := Exec(Init(0, 0), [Configure("h", [g]), Lookup("h"), EnsureConnects(0, {0})]);
      && s.hosts.Keys == {0} && s.hosts[0].name == "h" && s.hosts[0].dial == Some(0)
      && s.hosts[0].table == Table(map[KeyOf(g) := 0], map[])
  {
    var es := [Configure("h", [g]), Lookup("h")];
    ConfiguredHost(g);
    var s := Exec(Init(0, 0), es);
    LaunchesFirst(g);
    ExecSnoc(Init(0, 0), es, EnsureConnects(0, {0}));
    assert es + [EnsureConnects(0, {0})] == [Configure("h", [g]), Lookup("h"), EnsureConnects(0, {0})];
    FirstInstall(s, g);
  }

  lemma FirstInstall(s: Sys, g: Forward)
    requires s.hosts == map[0 := NewHost("h")] && s.specs == map["h" := [g]] && s.nextEntry == 0 && s.nextDial == 0
    requires Reconcile(Table(map[], map[]), [g], {0}, 0) == (Table(map[KeyOf(g) := 0], map[]), [KeyOf(g)])
    ensures var m := Step(s, EnsureConnects(0, {0}));
      && m.hosts.Keys == {0} && m.hosts[0].name == "h" && m.hosts[0].dial == Some(0)
      && m.hosts[0].table == Table(map[KeyOf(g) := 0], map[])
  {
    var a := EnsurePlaced(s, 0);
    assert SpecsOf(a, 0) == [g];
    assert Step(s, EnsureConnects(0, {0})) == DoEnsure(s, 0, {0}) == ReconcileAt(a, 0, {0});
  }

  /** A host runs its one configured forward; a second one is configured. Until the next reconcile `list`
      reports the second as running, although it is in neither table. */
  lemma ListCanMislead(g: Forward, f: Forward)
    requires IsEnabled(g) && IsEnabled(f) && KeyOf(f) != KeyOf(g)
    ensures var s := Exec(Init(0, 0), [Configure("h", [g]), Lookup("h"), EnsureConnects(0, {0}), Configure("h", [g, f])]);
      && 0 in s.hosts && SpecsOf(s, 0) == [g, f]
      && KeyOf(g) in s.hosts[0].table.entries && KeyOf(f) !in s.hosts[0].table.entries && KeyOf(f) !in s.hosts[0].table.failed
      && ListOne(s.hosts[0], f).status == Running && !Truthful(s.hosts[0], [ListOne(s.hosts[0], f)])
  {
    var es := [Configure("h", [g]), Lookup("h"), EnsureConnects(0, {0})];
    ConnectsAndRuns(g);
    assert es + [Configure("h", [g, f])]
        == [Configure("h", [g]), Lookup("h"), EnsureConnects(0, {0}), Configure("h", [g, f])];
    ExecSnoc(Init(0, 0), es, Configure("h", [g, f]));
    ListIsTruthfulIff(Exec(Init(0, 0), es).hosts[0], f);
  }
}
