/**
 The forward table of one host and the sections that change it
 (internal/api/forward_host.go). Launching a forward may fail; `oks` says at which
 positions of the configuration it succeeds.
 */
module Forwards {
  import opened Bytes

  datatype Forward = Forward(kind: string, target: string, listen: string, enabled: Option<bool>)

  /** A missing switch counts as enabled. */
  predicate IsEnabled(f: Forward) {
    f.enabled.None? || f.enabled.value
  }

  type Key = string

  function KeyOf(f: Forward): Key {
    f.kind + "|" + f.listen + "|" + f.target
  }

  predicate NoBar(s: string) {
    '|' !in s
  }

  lemma {:induction false} BarSplits(a: string, x: string, b: string, y: string)
    requires NoBar(a) && NoBar(b) && a + "|" + x == b + "|" + y
    ensures a == b && x == y
  {
    var s, t := a + "|" + x, b + "|" + y;
    assert s[|a|] == '|' && t[|b|] == '|';
    assert a == s[..|a|] && b == t[..|b|] && x == s[|a| + 1..] && y == t[|b| + 1..];
  }

  /** Forwards that differ in kind, listening address or target have different keys, as long as no kind
      and no listening address contains a bar. */
  lemma KeysTellApart(f: Forward, g: Forward)
    requires NoBar(f.kind) && NoBar(g.kind) && NoBar(f.listen) && NoBar(g.listen)
    ensures KeyOf(f) == KeyOf(g) <==> f.kind == g.kind && f.listen == g.listen && f.target == g.target
  {
    if KeyOf(f) == KeyOf(g) {
      var x, y := f.listen + "|" + f.target, g.listen + "|" + g.target;
      assert KeyOf(f) == f.kind + "|" + x && KeyOf(g) == g.kind + "|" + y;
      BarSplits(f.kind, x, g.kind, y);
      BarSplits(f.listen, f.target, g.listen, g.target);
    }
  }

  /** `g` is another forward with the key of `f`. No kind has a bar in it. */
  predicate SharesKey(f: Forward, g: Forward) {
    NoBar(g.kind) && (g.kind, g.listen, g.target) != (f.kind, f.listen, f.target) && KeyOf(g) == KeyOf(f)
  }

  lemma MoveBar(f: Forward, i: nat) returns (g: Forward)
    requires NoBar(f.kind) && i != |f.listen|
    requires var x := f.listen + "|" + f.target; i < |x| && x[i] == '|'
    ensures SharesKey(f, g)
  {
    var x := f.listen + "|" + f.target;
    g := Forward(f.kind, x[i + 1..], x[..i], f.enabled);
    assert x[..i] + "|" + x[i + 1..] == x;
    assert KeyOf(f) == f.kind + "|" + x && KeyOf(g) == f.kind + "|" + (x[..i] + "|" + x[i + 1..]);
    assert |g.listen| == i;
  }

  lemma OnlyBar(f: Forward, g: Forward)
    requires NoBar(f.kind) && NoBar(f.listen) && NoBar(f.target) && NoBar(g.kind) && KeyOf(g) == KeyOf(f)
    ensures (g.kind, g.listen, g.target) == (f.kind, f.listen, f.target)
  {
    var x, y := f.listen + "|" + f.target, g.listen + "|" + g.target;
    assert KeyOf(f) == f.kind + "|" + x && KeyOf(g) == g.kind + "|" + y;
    BarSplits(f.kind, x, g.kind, y);
    assert y[|g.listen|] == '|';
    assert f.listen == x[..|f.listen|] && f.target == x[|f.listen| + 1..];
    assert g.listen == y[..|g.listen|] && g.target == y[|g.listen| + 1..];
  }

  /** A forward shares its key with another one that could be configured exactly when its listening
      address or its target contains a bar. */
  lemma KeyIsSharedIff(f: Forward)
    requires NoBar(f.kind)
    ensures (exists g :: SharesKey(f, g)) <==> !NoBar(f.listen) || !NoBar(f.target)
  {
    if i :| 0 <= i < |f.listen| && f.listen[i] == '|' {
      var g := MoveBar(f, i);
    } else if i :| 0 <= i < |f.target| && f.target[i] == '|' {
      var g := MoveBar(f, |f.listen| + 1 + i);
    } else {
      forall g: Forward | NoBar(g.kind) && KeyOf(g) == KeyOf(f) ensures !SharesKey(f, g) {
        OnlyBar(f, g);
      }
    }
  }

  /** With a bar in a listening address two different forwards do share a key. */
  lemma KeysCanCollide()
    ensures KeyOf(Forward("local", "c", "a|b", None)) == KeyOf(Forward("local", "b|c", "a", None))
  {
  }

  datatype Failure = LaunchFailed | ConnectionLost

  /** Running entries by key, and the reasons of those that do not run. */
  datatype Table = Table(entries: map<Key, nat>, failed: map<Key, Failure>)

  function EnabledKeys(want: seq<Forward>): set<Key> {
    set i | 0 <= i < |want| && IsEnabled(want[i]) :: KeyOf(want[i])
  }

  // --- reconcileLocked -----------------------------------------------------------

  function Prune(t: Table, want: seq<Forward>): Table {
    var gone := t.entries.Keys - EnabledKeys(want);
    Table(t.entries - gone, t.failed - gone)
  }

  function Cancelled(t: Table, want: seq<Forward>): set<nat> {
    set k | k in t.entries && k !in EnabledKeys(want) :: t.entries[k]
  }

  /** The table after the first `n` configured forwards were tried, and the keys launched on
      the way. Launched entries are numbered upwards from `next`. */
  function LaunchN(t: Table, want: seq<Forward>, oks: set<nat>, next: nat, n: nat): (Table, seq<Key>)
    requires n <= |want|
  {
    if n == 0 then (t, [])
    else LaunchOne(LaunchN(t, want, oks, next, n - 1), want[n - 1], n - 1 in oks, next)
  }

  /** One configured forward: skipped if disabled or running, else started or marked as failed. */
  function LaunchOne(before: (Table, seq<Key>), f: Forward, ok: bool, next: nat): (Table, seq<Key>) {
    var (u, keys) := before;
    var key := KeyOf(f);
    if !IsEnabled(f) || key in u.entries then before
    else if ok then (Table(u.entries[key := next + |keys|], u.failed - {key}), keys + [key])
    else (u.(failed := u.failed[key := LaunchFailed]), keys)
  }

  function Reconcile(t: Table, want: seq<Forward>, oks: set<nat>, next: nat): (Table, seq<Key>) {
    LaunchN(Prune(t, want), want, oks, next, |want|)
  }

  predicate Disjoint(t: Table) {
    t.entries.Keys !! t.failed.Keys
  }

  /** `u` is `t` with the entries next, next + 1, ... added under `keys`, each key new. */
  ghost predicate Extends(t: Table, u: Table, keys: seq<Key>, next: nat) {
    && (forall k :: k in t.entries ==> k in u.entries && u.entries[k] == t.entries[k])
    && (forall i :: 0 <= i < |keys| ==>
          keys[i] !in t.entries && keys[i] in u.entries && u.entries[keys[i]] == next + i)
    && (forall k :: k in u.entries && k !in t.entries ==>
          next <= u.entries[k] < next + |keys| && keys[u.entries[k] - next] == k)
  }

  /** One more success under a key that is not running. */
  lemma ExtendsSnoc(t: Table, u: Table, keys: seq<Key>, next: nat, key: Key)
    requires Extends(t, u, keys, next) && key !in u.entries
    ensures Extends(t, Table(u.entries[key := next + |keys|], u.failed - {key}), keys + [key], next)
  {
  }

  /** Launching fills exactly the gaps: what ran keeps its id, each success gets a new id of
      its own, and each tried key ends up in exactly one of the two tables. */
  ghost predicate Filled(t: Table, u: Table, keys: seq<Key>, want: seq<Forward>, next: nat, n: nat) {
    && n <= |want| && Disjoint(u) && Extends(t, u, keys, next)
    && (forall k :: k in keys ==> k in EnabledKeys(want))
    && (forall i :: 0 <= i < n && IsEnabled(want[i]) ==> KeyOf(want[i]) in u.entries || KeyOf(want[i]) in u.failed)
  }

  lemma SkipKeepsFilled(t: Table, u: Table, keys: seq<Key>, want: seq<Forward>, next: nat, n: nat)
    requires Filled(t, u, keys, want, next, n) && n < |want|
    requires IsEnabled(want[n]) ==> KeyOf(want[n]) in u.entries
    ensures Filled(t, u, keys, want, next, n + 1)
  {
  }

  lemma SuccessKeepsFilled(t: Table, u: Table, keys: seq<Key>, want: seq<Forward>, next: nat, n: nat)
    requires Filled(t, u, keys, want, next, n) && n < |want| && IsEnabled(want[n]) && KeyOf(want[n]) !in u.entries
    ensures var key := KeyOf(want[n]);
      Filled(t, Table(u.entries[key := next + |keys|], u.failed - {key}), keys + [key], want, next, n + 1)
  {
    ExtendsSnoc(t, u, keys, next, KeyOf(want[n]));
  }

  lemma FailureKeepsFilled(t: Table, u: Table, keys: seq<Key>, want: seq<Forward>, next: nat, n: nat)
    requires Filled(t, u, keys, want, next, n) && n < |want| && IsEnabled(want[n]) && KeyOf(want[n]) !in u.entries
    ensures Filled(t, u.(failed := u.failed[KeyOf(want[n]) := LaunchFailed]), keys, want, next, n + 1)
  {
  }

  lemma OneKeepsFilled(t: Table, p: (Table, seq<Key>), want: seq<Forward>, next: nat, n: nat, ok: bool)
    returns (q: (Table, seq<Key>))
    requires Filled(t, p.0, p.1, want, next, n) && n < |want|
    ensures q == LaunchOne(p, want[n], ok, next) && Filled(t, q.0, q.1, want, next, n + 1)
  {
    var u, keys, key := p.0, p.1, KeyOf(want[n]);
    if !IsEnabled(want[n]) || key in u.entries {
      SkipKeepsFilled(t, u, keys, want, next, n);
      q := p;
    } else if ok {
      SuccessKeepsFilled(t, u, keys, want, next, n);
      q := (Table(u.entries[key := next + |keys|], u.failed - {key}), keys + [key]);
    } else {
      FailureKeepsFilled(t, u, keys, want, next, n);
      q := (u.(failed := u.failed[key := LaunchFailed]), keys);
    }
  }

  lemma {:induction false} Launched(t: Table, want: seq<Forward>, oks: set<nat>, next: nat, n: nat)
    returns (p: (Table, seq<Key>))
    requires n <= |want| && Disjoint(t)
    ensures p == LaunchN(t, want, oks, next, n) && Filled(t, p.0, p.1, want, next, n)
  {
    if n == 0 {
      NoneTried(t, want, next);
      p := (t, []);
    } else {
      var q := Launched(t, want, oks, next, n - 1);
      p := OneKeepsFilled(t, q, want, next, n - 1, n - 1 in oks);
    }
  }

  lemma LaunchFillsGaps(t: Table, want: seq<Forward>, oks: set<nat>, next: nat, n: nat)
    requires n <= |want| && Disjoint(t)
    ensures Filled(t, LaunchN(t, want, oks, next, n).0, LaunchN(t, want, oks, next, n).1, want, next, n)
  {
    var p := Launched(t, want, oks, next, n);
  }

  lemma NoneTried(t: Table, want: seq<Forward>, next: nat)
    requires Disjoint(t)
    ensures Filled(t, t, [], want, next, 0)
  {
  }

  /** Running keys are all enabled, and every enabled key is running or failed, not both. */
  predicate Agrees(t: Table, want: seq<Forward>) {
    && Disjoint(t)
    && t.entries.Keys <= EnabledKeys(want)
    && EnabledKeys(want) <= t.entries.Keys + t.failed.Keys
  }

  lemma ReconcileAgrees(t: Table, want: seq<Forward>, oks: set<nat>, next: nat)
    requires Disjoint(t)
    ensures Agrees(Reconcile(t, want, oks, next).0, want)
  {
    LaunchFillsGaps(Prune(t, want), want, oks, next, |want|);
  }

  /** What becomes of the old entries: exactly the disabled ones are cancelled, and the
      others keep running under their id. */
  lemma ReconcileKeepsOrCancels(t: Table, want: seq<Forward>, oks: set<nat>, next: nat, k: Key)
    requires Disjoint(t) && k in t.entries
    ensures var (u, _) := Reconcile(t, want, oks, next);
      if k in EnabledKeys(want) then k in u.entries && u.entries[k] == t.entries[k]
      else t.entries[k] in Cancelled(t, want) && k !in u.entries
  {
    LaunchFillsGaps(Prune(t, want), want, oks, next, |want|);
  }

  /** Forward i of the configuration is enabled under key `k`. */
  predicate Asks(want: seq<Forward>, i: int, k: Key) {
    0 <= i < |want| && IsEnabled(want[i]) && KeyOf(want[i]) == k
  }

  /** Some of the first n configured forwards asks for `k`. */
  predicate Asked(want: seq<Forward>, n: nat, k: Key) {
    exists i :: 0 <= i < n && Asks(want, i, k)
  }

  /** Launching one of them succeeds. */
  predicate Succeeds(want: seq<Forward>, oks: set<nat>, n: nat, k: Key) {
    exists i: nat :: i < n && i in oks && Asks(want, i, k)
  }

  lemma OneMoreAsked(want: seq<Forward>, oks: set<nat>, n: nat, k: Key)
    requires n < |want|
    ensures Asked(want, n + 1, k) <==> Asked(want, n, k) || Asks(want, n, k)
    ensures Succeeds(want, oks, n + 1, k) <==> Succeeds(want, oks, n, k) || (n in oks && Asks(want, n, k))
  {
  }

  /** What has become of a key that did not run before: running and launched if some attempt at it
      succeeded, failed if attempts were made and none did. */
  predicate Fate(p: (Table, seq<Key>), k: Key, asked: bool, ok: bool) {
    && (k in p.0.entries <==> ok) && (k in p.1 <==> ok)
    && (asked && !ok ==> k in p.0.failed && p.0.failed[k] == LaunchFailed)
  }

  lemma OneFate(p: (Table, seq<Key>), f: Forward, ok: bool, next: nat, k: Key, asked: bool, done: bool)
    requires Fate(p, k, asked, done)
    ensures var mine := IsEnabled(f) && KeyOf(f) == k;
      Fate(LaunchOne(p, f, ok, next), k, asked || mine, done || (ok && mine))
  {
  }

  lemma {:induction false} LaunchFate(t: Table, want: seq<Forward>, oks: set<nat>, next: nat, n: nat, k: Key)
    requires n <= |want| && k !in t.entries
    ensures Fate(LaunchN(t, want, oks, next, n), k, Asked(want, n, k), Succeeds(want, oks, n, k))
  {
    if n > 0 {
      LaunchFate(t, want, oks, next, n - 1, k);
      OneMoreAsked(want, oks, n - 1, k);
      OneFate(LaunchN(t, want, oks, next, n - 1), want[n - 1], n - 1 in oks, next, k,
              Asked(want, n - 1, k), Succeeds(want, oks, n - 1, k));
    }
  }

  /**
   The results of the launches decide. A key that did not run before runs afterwards exactly when some
   launch for it succeeded; an enabled one for which none did is marked as failed. And the launched
   keys are exactly the new ones with a successful launch.
   */
  lemma ReconcileOutcome(t: Table, want: seq<Forward>, oks: set<nat>, next: nat, k: Key)
    requires Disjoint(t)
    ensures var (u, keys) := Reconcile(t, want, oks, next);
      && (k !in t.entries ==> (k in u.entries <==> Succeeds(want, oks, |want|, k)))
      && (k !in t.entries && k in EnabledKeys(want) && !Succeeds(want, oks, |want|, k) ==>
            k in u.failed && u.failed[k] == LaunchFailed)
      && (k in keys <==> k !in t.entries && Succeeds(want, oks, |want|, k))
  {
    var p := Prune(t, want);
    LaunchFillsGaps(p, want, oks, next, |want|);
    assert Asked(want, |want|, k) <==> k in EnabledKeys(want) by {
      if k in EnabledKeys(want) {
        var i :| 0 <= i < |want| && IsEnabled(want[i]) && KeyOf(want[i]) == k;
        assert Asks(want, i, k);
      }
    }
    assert Succeeds(want, oks, |want|, k) ==> Asked(want, |want|, k);
    if k !in p.entries {
      LaunchFate(p, want, oks, next, |want|, k);
    }
  }

  /** When nothing failed, reconciling again starts and cancels nothing, whatever a launch
      would have done. */
  lemma ReconcileIsIdempotent(t: Table, want: seq<Forward>, oks: set<nat>, next: nat, oks': set<nat>, next': nat)
    requires Disjoint(t) && EnabledKeys(want) !! Reconcile(t, want, oks, next).0.failed.Keys
    ensures var u := Reconcile(t, want, oks, next).0;
      Reconcile(u, want, oks', next') == (u, []) && Cancelled(u, want) == {}
  {
    ReconcileAgrees(t, want, oks, next);
    var u := Reconcile(t, want, oks, next).0;
    assert Prune(u, want) == u by {
      assert u.entries.Keys - EnabledKeys(want) == {};
    }
    NothingToLaunch(u, want, oks', next', |want|);
  }

  lemma {:induction false} NothingToLaunch(t: Table, want: seq<Forward>, oks: set<nat>, next: nat, n: nat)
    requires n <= |want| && EnabledKeys(want) <= t.entries.Keys
    ensures LaunchN(t, want, oks, next, n) == (t, [])
  {
    if n > 0 {
      NothingToLaunch(t, want, oks, next, n - 1);
      assert IsEnabled(want[n - 1]) ==> KeyOf(want[n - 1]) in EnabledKeys(want);
    }
  }

  // --- handleLost ------------------------------------------------------------------

  function Marked(failed: map<Key, Failure>, keys: set<Key>): map<Key, Failure> {
    failed + map k | k in keys :: ConnectionLost
  }

  lemma MarkOne(failed: map<Key, Failure>, keys: set<Key>, key: Key)
    ensures Marked(failed, keys)[key := ConnectionLost] == Marked(failed, keys + {key})
  {
  }

  function Lose(t: Table): Table {
    Table(map[], Marked(t.failed, t.entries.Keys))
  }

  // --- the host state ----------------------------------------------------------------

  /** `stops` counts how often the stop channel was closed; a second close panics. */
  datatype Host = Host(
    name: string,
    dial: Option<nat>,
    table: Table,
    lastErr: string,
    stops: nat,
    supervising: bool)

  function NewHost(name: string): Host {
    Host(name, None, Table(map[], map[]), "", 0, false)
  }

  function LostHost(h: Host): Host {
    h.(dial := None, lastErr := "connection lost", table := Lose(h.table))
  }

  function ReleasedHost(h: Host): Host {
    h.(dial := None, table := Table(map[], map[]), supervising := false, stops := h.stops + 1)
  }

  class ForwardHostState {
    const name: string
    var dial: Option<nat>
    var entries: map<Key, nat>
    var failed: map<Key, Failure>
    var lastErr: string
    var stops: nat
    var supervising: bool

    ghost function View(): Host
      reads this
    {
      Host(name, dial, Table(entries, failed), lastErr, stops, supervising)
    }

    constructor (name: string)
      ensures View() == NewHost(name)
    {
      this.name := name;
      dial, entries, failed, lastErr, stops, supervising := None, map[], map[], "", 0, false;
    }

    /** `next` is the id the next launched entry gets; the results are the keys launched and
        the entries cancelled. */
    method ReconcileLocked(want: seq<Forward>, oks: set<nat>, next: nat) returns (launched: seq<Key>, cancelled: set<nat>)
      modifies this
      ensures (Table(entries, failed), launched) == Reconcile(old(Table(entries, failed)), want, oks, next)
      ensures cancelled == Cancelled(old(Table(entries, failed)), want)
      ensures dial == old(dial) && lastErr == old(lastErr) && stops == old(stops) && supervising == old(supervising)
    {
      ghost var t := Table(entries, failed);
      var wanted: set<Key> := {};
      var j := 0;
      while j < |want|
        invariant 0 <= j <= |want|
        invariant wanted == set i | 0 <= i < j && IsEnabled(want[i]) :: KeyOf(want[i])
        invariant entries == t.entries && failed == t.failed
        invariant dial == old(dial) && lastErr == old(lastErr) && stops == old(stops) && supervising == old(supervising)
      {
        if IsEnabled(want[j]) {
          wanted := wanted + {KeyOf(want[j])};
        }
        j := j + 1;
      }
      assert wanted == EnabledKeys(want);

      cancelled := PruneLoop(wanted);
      assert Table(entries, failed) == Prune(t, want);

      launched := [];
      var n := 0;
      while n < |want|
        invariant 0 <= n <= |want|
        invariant (Table(entries, failed), launched) == LaunchN(Prune(t, want), want, oks, next, n)
        invariant dial == old(dial) && lastErr == old(lastErr) && stops == old(stops) && supervising == old(supervising)
      {
        var key := KeyOf(want[n]);
        if IsEnabled(want[n]) && key !in entries {
          if n in oks {
            entries := entries[key := next + |launched|];
            failed := failed - {key};
            launched := launched + [key];
          } else {
            failed := failed[key := LaunchFailed];
          }
        }
        n := n + 1;
      }
    }

    /** Revoke the entries whose key is no longer wanted. */
    method PruneLoop(wanted: set<Key>) returns (cancelled: set<nat>)
      modifies this
      ensures entries == old(entries) - (old(entries).Keys - wanted)
      ensures failed == old(failed) - (old(entries).Keys - wanted)
      ensures cancelled == set k | k in old(entries) && k !in wanted :: old(entries)[k]
      ensures dial == old(dial) && lastErr == old(lastErr) && stops == old(stops) && supervising == old(supervising)
    {
      cancelled := {};
      var todo := entries.Keys;
      ghost var done: set<Key> := {};
      while todo != {}
        invariant todo !! done && todo + done == old(entries).Keys
        invariant entries == old(entries) - (done - wanted) && failed == old(failed) - (done - wanted)
        invariant cancelled == set k | k in done && k !in wanted :: old(entries)[k]
        invariant dial == old(dial) && lastErr == old(lastErr) && stops == old(stops) && supervising == old(supervising)
        decreases todo
      {
        var key :| key in todo;
        todo := todo - {key};
        done := done + {key};
        if key !in wanted {
          cancelled := cancelled + {entries[key]};
          entries := entries - {key};
          failed := failed - {key};
        }
      }
      assert done == old(entries).Keys;
    }

    method HandleLost() returns (cancelled: set<nat>)
      modifies this
      ensures View() == LostHost(old(View()))
      ensures cancelled == old(entries).Values
    {
      dial := None;
      lastErr := "connection lost";
      cancelled := LoseLoop();
    }

    method LoseLoop() returns (cancelled: set<nat>)
      modifies this
      ensures Table(entries, failed) == Lose(old(Table(entries, failed))) && cancelled == old(entries).Values
      ensures dial == old(dial) && lastErr == old(lastErr) && stops == old(stops) && supervising == old(supervising)
    {
      cancelled := {};
      var todo := entries.Keys;
      ghost var done: set<Key> := {};
      while todo != {}
        invariant todo !! done && todo + done == old(entries).Keys
        invariant entries == old(entries) - done
        invariant failed == Marked(old(failed), done)
        invariant cancelled == set k | k in done :: old(entries)[k]
        invariant dial == old(dial) && lastErr == old(lastErr) && stops == old(stops) && supervising == old(supervising)
        decreases todo
      {
        var key :| key in todo;
        todo := todo - {key};
        MarkOne(old(failed), done, key);
        done := done + {key};
        cancelled := cancelled + {entries[key]};
        entries := entries - {key};
        failed := failed[key := ConnectionLost];
      }
      assert done == old(entries).Keys;
    }

    /** Locked part of release; `closed` is the connection that was closed. */
    method Release() returns (cancelled: set<nat>, closed: Option<nat>)
      modifies this
      ensures View() == ReleasedHost(old(View()))
      ensures cancelled == old(entries).Values && closed == old(dial)
    {
      supervising := false;
      cancelled := entries.Values;
      entries, failed := map[], map[];
      closed := dial;
      dial := None;
      stops := stops + 1;
    }
  }

  // --- list --------------------------------------------------------------------------

  datatype Status = Running | Pending | Failed | Disabled

  datatype HostForward = HostForward(forward: Forward, status: Status, id: Option<nat>)

  function ListOne(h: Host, f: Forward): HostForward {
    if !IsEnabled(f) then HostForward(f, Disabled, None)
    else if h.dial.None? then HostForward(f, if h.lastErr != "" then Failed else Pending, None)
    else if KeyOf(f) in h.table.entries then HostForward(f, Running, Some(h.table.entries[KeyOf(f)]))
    else if KeyOf(f) in h.table.failed then HostForward(f, Failed, None)
    else HostForward(f, Running, None)
  }

  method List(h: Host, want: seq<Forward>) returns (rows: seq<HostForward>)
    ensures |rows| == |want|
    ensures forall i :: 0 <= i < |want| ==> rows[i] == ListOne(h, want[i]) && rows[i].forward == want[i]
    ensures h.dial.None? && h.table.entries == map[] ==> Truthful(h, rows)
    ensures h.dial.Some? && Agrees(h.table, want) ==> Truthful(h, rows)
  {
    rows := [];
    var i := 0;
    while i < |want|
      invariant 0 <= i <= |want| && |rows| == i
      invariant forall j :: 0 <= j < i ==> rows[j] == ListOne(h, want[j])
    {
      rows := rows + [ListOne(h, want[i])];
      i := i + 1;
    }
    forall j | 0 <= j < |want| && IsEnabled(want[j]) ensures KeyOf(want[j]) in EnabledKeys(want) {
    }
  }

  /** A row says "running" exactly when an entry for its forward runs, and names it; "failed" exactly when
      the connection is missing after an error or the launch is marked as failed; "pending" exactly when
      there is no connection and no error yet. */
  predicate Truthful(h: Host, rows: seq<HostForward>) {
    forall i :: 0 <= i < |rows| ==>
      var key, on := KeyOf(rows[i].forward), IsEnabled(rows[i].forward);
      && (rows[i].status == Running <==> on && key in h.table.entries)
      && (rows[i].status == Running ==> rows[i].id == Some(h.table.entries[key]))
      && (rows[i].status == Disabled <==> !on)
      && (rows[i].status == Pending <==> on && h.dial.None? && h.lastErr == "")
      && (rows[i].status == Failed <==>
            on && if h.dial.None? then h.lastErr != "" else key !in h.table.entries && key in h.table.failed)
  }

  /** `list` tells the truth about a forward exactly when the forward is disabled, or there
      is no connection, or one of the tables knows its key. */
  lemma ListIsTruthfulIff(h: Host, f: Forward)
    requires h.dial.None? ==> h.table.entries == map[]
    ensures Truthful(h, [ListOne(h, f)])
      <==> !IsEnabled(f) || h.dial.None? || KeyOf(f) in h.table.entries || KeyOf(f) in h.table.failed
  {
    assert [ListOne(h, f)][0] == ListOne(h, f);
  }
}
