/**
 How long the supervisors of the forward manager sleep (internal/api/forward_host.go, supervise):
 the sleeps of a run against its own history of failures, losses and good dials.
 */
module Backoff {
  import opened Bytes
  import opened Forwards
  import opened ForwardRuns

  function Pow2(k: nat): nat {
    if k == 0 then 1 else 2 * Pow2(k - 1)
  }

  /** The sleep after `k` earlier failures: the base at first, then doubled up to the cap. */
  function BackoffAt(base: nat, cap: nat, k: nat): nat {
    if k == 0 then base else Min(base * Pow2(k), cap)
  }

  lemma BackoffDoubles(base: nat, cap: nat, k: nat)
    ensures Min(BackoffAt(base, cap, k) * 2, cap) == BackoffAt(base, cap, k + 1)
  {
    assert base * Pow2(k + 1) == 2 * (base * Pow2(k));
  }

  /** Dial failures and losses of supervisor `i` in a run since its own last successful dial. */
  function Failures(z: Sys, es: seq<Event>, i: nat): nat {
    if es == [] then 0
    else
      var s, e := Exec(z, es[..|es| - 1]), es[|es| - 1];
      if Enabled(s, e) && e == SuperDialOk(i) then 0
      else Failures(z, es[..|es| - 1], i) + if Fails(s, e, i) then 1 else 0
  }

  predicate Fails(s: Sys, e: Event, i: nat) {
    Enabled(s, e) && (e == SuperDialFails(i) || e == SuperLost(i))
  }

  /** The sleeps a run should have: one per failure or loss, as long as the failures since the last
      good dial say. */
  function DueSleeps(z: Sys, es: seq<Event>): seq<Sleep> {
    if es == [] then z.sleeps
    else
      var es0, e := es[..|es| - 1], es[|es| - 1];
      DueSleeps(z, es0)
      + if (e.SuperDialFails? || e.SuperLost?) && Enabled(Exec(z, es0), e)
        then [Sleep(e.who, BackoffAt(z.base, z.cap, Failures(z, es0, e.who)))] else []
  }

  /** The backoff of a supervisor with `k` failures since its last good dial. */
  predicate Paced(base: nat, cap: nat, p: Super, k: nat) {
    match p.at
    case Sleeping => k > 0 && p.backoff == BackoffAt(base, cap, k - 1)
    case Dialled(_) => k == 0
    case Exited => true
    case _ => p.backoff == BackoffAt(base, cap, k)
  }

  predicate PacedAt(z: Sys, s: Sys, i: nat, k: nat) {
    if i in s.supers then Paced(z.base, z.cap, s.supers[i], k) else k == 0
  }

  lemma ReconcileKeepsPace(s: Sys, h: nat, oks: set<nat>)
    requires h in s.hosts
    ensures SamePace(s, ReconcileAt(s, h, oks))
  {
  }

  predicate SamePace(s: Sys, m: Sys) {
    m.supers == s.supers && m.base == s.base && m.cap == s.cap && m.sleeps == s.sleeps && m.nextSuper == s.nextSuper
  }

  /** Events that are not a supervisor's own leave every pace alone, except that resume starts one. */
  lemma ForeignStepPace(s: Sys, e: Event)
    requires Enabled(s, e) && !e.ResumeLocked?
    requires e.Configure? || e.Lookup? || e.EnsureFails? || e.EnsureConnects? || e.ReconcileLocked? || e.ReleaseTake? || e.ReleaseLocked?
    ensures SamePace(s, Step(s, e))
  {
    match e
    case EnsureConnects(h, oks) =>
      assert Step(s, e) == ReconcileAt(EnsurePlaced(s, h), h, oks);
      ReconcileKeepsPace(EnsurePlaced(s, h), h, oks);
    case ReconcileLocked(h, oks) => ReconcileKeepsPace(s, h, oks);
    case _ =>
  }

  lemma InstallKeepsPace(s: Sys, h: nat, d: nat, oks: set<nat>)
    requires h in s.hosts
    ensures SamePace(s, Install(s, h, d, oks))
  {
    ReconcileKeepsPace(s.(hosts := s.hosts[h := s.hosts[h].(dial := Some(d), lastErr := "")]), h, oks);
  }

  /** From `s` to `m` supervisor `i` starts over, or ends. */
  predicate StartsOver(s: Sys, m: Sys, i: nat) {
    && m.base == s.base && m.cap == s.cap && m.sleeps == s.sleeps && m.nextSuper == s.nextSuper
    && i in s.supers && i in m.supers && m.supers == s.supers[i := m.supers[i]]
    && (m.supers[i].at == Exited || m.supers[i] == Super(s.supers[i].host, Top, s.base))
  }

  lemma RefusePace(s: Sys, i: nat)
    requires i in s.supers && s.supers[i].at.Dialled? && s.supers[i].host in s.hosts && s.supers[i].at.dial in s.dials
    ensures StartsOver(s, DoRefuse(s, i), i)
  {
  }

  /** After an adoption or a refusal the supervisor starts over, or ends. */
  lemma AdoptPace(s: Sys, i: nat, oks: set<nat>)
    requires Enabled(s, SuperAdopt(i, oks))
    ensures StartsOver(s, Step(s, SuperAdopt(i, oks)), i)
  {
    var h, d := s.supers[i].host, s.supers[i].at.dial;
    assert Step(s, SuperAdopt(i, oks)) == DoAdopt(s, i, oks);
    if s.hosts[h].dial.Some? || Stopped(s, h) {
      RefusePace(s, i);
    } else {
      var a := s.(dials := s.dials[d := s.dials[d].(adopter := Some(BySupervisor), late := Stopped(s, h), exposed := Watched(s, h))],
                  supers := s.supers[i := Super(h, Top, s.base)]);
      assert DoAdopt(s, i, oks) == Install(a, h, d, oks);
      InstallKeepsPace(a, h, d, oks);
    }
  }

  predicate IsOwn(e: Event) {
    e.SuperTop? || e.SuperLook? || e.SuperDialFails? || e.SuperDialOk? || e.SuperLost? || e.SuperStopped? || e.SuperWake?
  }

  /** From `s` to `m` only supervisor `i` moves. */
  predicate OnlyMoves(s: Sys, m: Sys, i: nat) {
    && m.base == s.base && m.cap == s.cap && m.nextSuper == s.nextSuper
    && i in s.supers && i in m.supers && m.supers == s.supers[i := m.supers[i]]
  }

  /** What a supervisor's own event does to it and to the sleeps. */
  lemma OwnStepMoves(s: Sys, e: Event)
    requires Enabled(s, e) && IsOwn(e)
    ensures OnlyMoves(s, Step(s, e), e.who)
    ensures Step(s, e).sleeps ==
      s.sleeps + if e.SuperDialFails? || e.SuperLost? then [Sleep(e.who, s.supers[e.who].backoff)] else []
  {
    match e
    case SuperDialFails(i) => assert Step(s, e) == DoDialFails(s, i);
    case SuperLost(i) => assert Step(s, e) == DoLost(s, i);
    case _ =>
  }

  /** The failures of supervisor `i` after one more event. */
  function Count(s: Sys, e: Event, i: nat, k: nat): nat {
    if Enabled(s, e) && e == SuperDialOk(i) then 0 else k + if Fails(s, e, i) then 1 else 0
  }

  lemma FailureSleeps(s: Sys, e: Event)
    requires Enabled(s, e) && (e.SuperDialFails? || e.SuperLost?)
    ensures Step(s, e).supers == s.supers[e.who := s.supers[e.who].(at := Sleeping)]
  {
    match e
    case SuperDialFails(i) => assert Step(s, e) == DoDialFails(s, i);
    case SuperLost(i) => assert Step(s, e) == DoLost(s, i);
  }

  lemma OwnStepPace(s: Sys, e: Event, k: nat)
    requires Enabled(s, e) && IsOwn(e) && e.who in Step(s, e).supers
    requires Paced(s.base, s.cap, s.supers[e.who], k)
    ensures Paced(s.base, s.cap, Step(s, e).supers[e.who], Count(s, e, e.who, k))
  {
    if e.SuperDialFails? || e.SuperLost? {
      FailureSleeps(s, e);
    } else if e.SuperWake? {
      BackoffDoubles(s.base, s.cap, k - 1);
    }
  }

  predicate Numbers(z: Sys, s: Sys) {
    z.base == s.base && z.cap == s.cap && forall j :: j in s.supers ==> j < s.nextSuper
  }

  /** A step either leaves the supervisors alone, starts a new one, or moves one. */
  lemma StepNumbers(z: Sys, s: Sys, e: Event)
    requires Numbers(z, s)
    ensures Numbers(z, Step(s, e))
  {
    if Enabled(s, e) {
      if e.SuperAdopt? {
        AdoptPace(s, e.who, e.oks);
      } else if e.ResumeLocked? {
        assert Step(s, e) == DoResume(s, e.host);
      } else if IsOwn(e) {
        OwnStepMoves(s, e);
      } else {
        ForeignStepPace(s, e);
      }
    }
  }

  lemma OthersKeepPace(z: Sys, s: Sys, m: Sys, i: nat, who: nat, k: nat)
    requires who in s.supers && who in m.supers && m.supers == s.supers[who := m.supers[who]] && i != who
    requires PacedAt(z, s, i, k)
    ensures PacedAt(z, m, i, k)
  {
  }

  lemma ResumeKeepsPace(z: Sys, s: Sys, h: nat, i: nat, k: nat)
    requires Numbers(z, s) && h in s.hosts && PacedAt(z, s, i, k)
    ensures PacedAt(z, DoResume(s, h), i, k)
  {
  }

  lemma AdoptKeepsPace(z: Sys, s: Sys, who: nat, oks: set<nat>, i: nat, k: nat)
    requires Numbers(z, s) && PacedAt(z, s, i, k) && Enabled(s, SuperAdopt(who, oks))
    ensures PacedAt(z, Step(s, SuperAdopt(who, oks)), i, k)
  {
    AdoptPace(s, who, oks);
    if who != i {
      OthersKeepPace(z, s, Step(s, SuperAdopt(who, oks)), i, who, k);
    }
  }

  lemma OwnEventKeepsPace(z: Sys, s: Sys, e: Event, i: nat, k: nat)
    requires Numbers(z, s) && PacedAt(z, s, i, k) && Enabled(s, e) && IsOwn(e)
    ensures PacedAt(z, Step(s, e), i, Count(s, e, i, k))
  {
    OwnStepMoves(s, e);
    if e.who == i {
      OwnStepPace(s, e, k);
    } else {
      OthersKeepPace(z, s, Step(s, e), i, e.who, k);
    }
  }

  lemma StepKeepsPace(z: Sys, s: Sys, e: Event, i: nat, k: nat)
    requires Numbers(z, s) && PacedAt(z, s, i, k)
    ensures PacedAt(z, Step(s, e), i, Count(s, e, i, k))
  {
    if Enabled(s, e) {
      if e.ResumeLocked? {
        ResumeKeepsPace(z, s, e.host, i, k);
      } else if e.SuperAdopt? {
        AdoptKeepsPace(z, s, e.who, e.oks, i, k);
      } else if IsOwn(e) {
        OwnEventKeepsPace(z, s, e, i, k);
      } else {
        ForeignStepPace(s, e);
      }
    }
  }

  lemma {:induction false} RunsKeepPace(z: Sys, es: seq<Event>, i: nat)
    requires z.supers == map[]
    ensures Numbers(z, Exec(z, es)) && PacedAt(z, Exec(z, es), i, Failures(z, es, i))
    decreases |es|
  {
    if es == [] {
      assert Exec(z, es) == z && Failures(z, es, i) == 0;
    } else {
      var es0, e := es[..|es| - 1], es[|es| - 1];
      var s, k := Exec(z, es0), Failures(z, es0, i);
      RunsKeepPace(z, es0, i);
      StepNumbers(z, s, e);
      StepKeepsPace(z, s, e, i, k);
      assert Exec(z, es) == Step(s, e);
      assert Failures(z, es, i) == Count(s, e, i, k);
    }
  }

  lemma StepSleeps(s: Sys, e: Event)
    ensures Step(s, e).sleeps ==
      s.sleeps + if (e.SuperDialFails? || e.SuperLost?) && Enabled(s, e) then [Sleep(e.who, s.supers[e.who].backoff)] else []
  {
    if Enabled(s, e) {
      if e.SuperAdopt? {
        AdoptPace(s, e.who, e.oks);
      } else if e.ResumeLocked? {
        assert Step(s, e) == DoResume(s, e.host);
      } else if IsOwn(e) {
        OwnStepMoves(s, e);
      } else {
        ForeignStepPace(s, e);
      }
    }
  }

  /**
   In every run, the sleeps are exactly one per dial failure or loss, and the one after k failures
   and losses since that supervisor's own last successful dial is the base for k = 0 and
   min(base * 2^k, maximum) after that.
   */
  lemma {:induction false} SleepsBackOff(base: int, cap: int, es: seq<Event>)
    ensures Exec(Init(base, cap), es).sleeps == DueSleeps(Init(base, cap), es)
    decreases |es|
  {
    if es != [] {
      var z, es0, e := Init(base, cap), es[..|es| - 1], es[|es| - 1];
      SleepsBackOff(base, cap, es0);
      NextSleep(z, es0, e);
      assert Exec(z, es) == Step(Exec(z, es0), e);
    }
  }

  lemma PacedSleeps(z: Sys, s: Sys, e: Event, k: nat)
    requires (e.SuperDialFails? || e.SuperLost?) && Enabled(s, e) && PacedAt(z, s, e.who, k)
    ensures s.supers[e.who].backoff == BackoffAt(z.base, z.cap, k)
  {
  }

  lemma NextSleep(z: Sys, es: seq<Event>, e: Event)
    requires z.supers == map[]
    ensures var s := Exec(z, es);
      Step(s, e).sleeps == s.sleeps
        + if (e.SuperDialFails? || e.SuperLost?) && Enabled(s, e)
          then [Sleep(e.who, BackoffAt(z.base, z.cap, Failures(z, es, e.who)))] else []
  {
    var s := Exec(z, es);
    StepSleeps(s, e);
    if (e.SuperDialFails? || e.SuperLost?) && Enabled(s, e) {
      RunsKeepPace(z, es, e.who);
      PacedSleeps(z, s, e, Failures(z, es, e.who));
    }
  }

  /** The plain capped doubling holds for every number of failures exactly when the base does
      not exceed the cap: otherwise the first sleep is longer than the cap. */
  lemma BackoffIsCappedIff(base: nat, cap: nat)
    ensures (forall k: nat :: BackoffAt(base, cap, k) == Min(base * Pow2(k), cap)) <==> base <= cap
  {
    assert BackoffAt(base, cap, 0) == base && base * Pow2(0) == base;
  }

  /** A supervisor starts on a configured host. */
  lemma SupervisorStarts(base: int, cap: int, f: Forward) returns (es: seq<Event>)
    requires IsEnabled(f)
    ensures var s := Exec(Init(base, cap), es);
      && SuperAt(s, 0, Top) && s.supers[0] == Super(0, Top, s.base) && s.sleeps == []
      && s.hosts[0].dial.None? && !Stopped(s, 0) && s.base == Init(base, cap).base
  {
    var z := Init(base, cap);
    es := [];
    ExecSnoc(z, es, Configure("h", [f]));
    es := es + [Configure("h", [f])];
    ExecSnoc(z, es, Lookup("h"));
    es := es + [Lookup("h")];
    var s2 := Exec(z, es);
    assert s2.hosts == map[0 := NewHost("h")] && SpecsOf(s2, 0) == [f] && IsEnabled([f][0]);
    ExecSnoc(z, es, ResumeLocked(0));
    es := es + [ResumeLocked(0)];
    assert Exec(z, es) == DoResume(s2, 0);
  }

  /** Its first dial fails, and it sleeps for the base. */
  lemma FirstSleep(base: int, cap: int, f: Forward) returns (es: seq<Event>)
    requires IsEnabled(f)
    ensures Exec(Init(base, cap), es).sleeps == [Sleep(0, Init(base, cap).base)]
  {
    var z := Init(base, cap);
    es := SupervisorStarts(base, cap, f);
    var s := Exec(z, es);
    ExecSnoc(z, es, SuperTop(0));
    es := es + [SuperTop(0)];
    assert Exec(z, es) == SetSuper(s, 0, Looking);
    ExecSnoc(z, es, SuperLook(0));
    es := es + [SuperLook(0)];
    assert Exec(z, es) == SetSuper(SetSuper(s, 0, Looking), 0, Dialling);
    StepSleeps(Exec(z, es), SuperDialFails(0));
    ExecSnoc(z, es, SuperDialFails(0));
    es := es + [SuperDialFails(0)];
  }

  lemma {:induction false} DueSleepsWithin(z: Sys, es: seq<Event>, i: nat)
    requires z.sleeps == [] && z.base <= z.cap && i < |DueSleeps(z, es)|
    ensures DueSleeps(z, es)[i].length <= z.cap
    decreases |es|
  {
    if es != [] {
      if i < |DueSleeps(z, es[..|es| - 1])| {
        DueSleepsWithin(z, es[..|es| - 1], i);
      }
    }
  }

  predicate Oversleeps(s: Sys, i: nat) {
    i < |s.sleeps| && s.sleeps[i].length > s.cap
  }

  /** Some run has a sleep longer than the maximum exactly when the base is above the maximum, and then
      already the first sleep can be. */
  lemma OversleepsIff(base: int, cap: int)
    ensures Init(base, cap).base > Init(base, cap).cap
      <==> exists es, i: nat :: Oversleeps(Exec(Init(base, cap), es), i)
    ensures Init(base, cap).base > Init(base, cap).cap ==> exists es :: Oversleeps(Exec(Init(base, cap), es), 0)
  {
    var z := Init(base, cap);
    if z.base > z.cap {
      var es := FirstSleep(base, cap, Forward("local", "localhost:80", "127.0.0.1:8080", None));
      RunsKeepPace(z, es, 0);
      assert Oversleeps(Exec(z, es), 0);
    } else {
      forall es, i: nat ensures !Oversleeps(Exec(z, es), i) {
        SleepsBackOff(base, cap, es);
        RunsKeepPace(z, es, 0);
        if i < |Exec(z, es).sleeps| {
          DueSleepsWithin(z, es, i);
        }
      }
    }
  }
}
