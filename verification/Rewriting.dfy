/**
 A whole stream and what the terminal received for it. A trace cuts the stream into tokens and an
 unframed rest; `Explains` says that every token is what the grammar calls it, that the tokens and
 the rest are the stream, and that their outputs are all the terminal was sent.
 */
module Rewriting {
  import opened Bytes
  import opened Scanner
  import opened Tokens

  datatype Trace = Trace(tokens: seq<Token>, pend: Bytes, stream: Bytes)

  const EMPTY: Trace := Trace([], [], [])

  function Output(t: Token): Bytes {
    match t
    case Char(b, inject, _) => inject + b
    case Plain(b) => b
    case Abandoned(_) => []
    case Spliced(_, kept, repl) => kept + repl
    case Control(b, _, _, after) => b + after
    case Interrupted(b) => Forwarded(b)
  }

  function Source(ts: seq<Token>): Bytes {
    if ts == [] then [] else Source(ts[..|ts| - 1]) + ts[|ts| - 1].bytes
  }

  function Sent(ts: seq<Token>): Bytes {
    if ts == [] then [] else Sent(ts[..|ts| - 1]) + Output(ts[|ts| - 1])
  }

  function ModesAfter(ts: seq<Token>): Modes {
    if ts == [] then FRESH else Note(ModesAfter(ts[..|ts| - 1]), ts[|ts| - 1])
  }

  ghost predicate AllOk(width: Bytes -> nat, ts: seq<Token>) {
    ts == [] || (AllOk(width, ts[..|ts| - 1]) && TokenOk(width, ModesAfter(ts[..|ts| - 1]), ts[|ts| - 1]))
  }

  /** Every abandoned character is followed by a byte that could not continue it; `next` comes last. */
  predicate Chained(ts: seq<Token>, next: Bytes) {
    ts == [] || (Chained(ts[..|ts| - 1], ts[|ts| - 1].bytes) && Cuts(ts[|ts| - 1], next))
  }

  predicate Cuts(t: Token, next: Bytes) {
    t.Abandoned? ==> next != [] && !IsContinuation(next[0])
  }

  /** How many bytes of the sequence that follows `ts` arrived before the stream was `start` long. */
  function Earlier(ts: seq<Token>, start: nat): nat {
    if |Source(ts)| < start then start - |Source(ts)| else 0
  }

  /** The tokens from `from` on were framed by a call that began after `start` bytes of stream: no
      resize came between, and a spliced sequence keeps exactly those of its bytes that arrived
      before that call. */
  predicate FramedByCall(ts: seq<Token>, from: nat, start: nat) {
    forall j :: from <= j < |ts| ==> CallToken(ts[j], Earlier(ts[..j], start))
  }

  predicate CallToken(t: Token, earlier: nat) {
    !t.Interrupted? && (t.Spliced? ==> |t.kept| == earlier)
  }

  ghost predicate Explains(width: Bytes -> nat, s: Scanner, tr: Trace, sent: Bytes) {
    && AllOk(width, tr.tokens)
    && Fits(s, ModesAfter(tr.tokens), tr.pend)
    && Source(tr.tokens) + tr.pend == tr.stream
    && Sent(tr.tokens) + Forwarded(tr.pend) == sent
  }

  // --- one byte -----------------------------------------------------------------------------------

  /** The trace once byte b has made the scanner drop a partial character, if it does. */
  function Dropped(s: Scanner, tr: Trace, b: byte): Trace {
    if Breaks(s, b) then tr.(tokens := tr.tokens + [Abandoned(tr.pend)], pend := []) else tr
  }

  function Grounded(s: Scanner, b: byte): Scanner {
    if Breaks(s, b) then s.(utf8 := [], need := 0, state := Ground) else s
  }

  function Push(tr: Trace, t: Token, b: byte): Trace {
    Trace(tr.tokens + [t], [], tr.stream + [b])
  }

  function Extend(tr: Trace, b: byte): Trace {
    tr.(pend := tr.pend + [b], stream := tr.stream + [b])
  }

  lemma SnocTokens(ts: seq<Token>, t: Token)
    ensures Source(ts + [t]) == Source(ts) + t.bytes
    ensures Sent(ts + [t]) == Sent(ts) + Output(t)
    ensures ModesAfter(ts + [t]) == Note(ModesAfter(ts), t)
    ensures forall next :: Chained(ts + [t], next) == (Chained(ts, t.bytes) && Cuts(t, next))
  {
    assert (ts + [t])[..|ts|] == ts;
  }

  lemma SnocOk(width: Bytes -> nat, ts: seq<Token>, t: Token)
    requires AllOk(width, ts) && TokenOk(width, ModesAfter(ts), t)
    ensures AllOk(width, ts + [t])
  {
    assert (ts + [t])[..|ts|] == ts;
  }

  lemma SnocByCall(ts: seq<Token>, t: Token, from: nat, start: nat)
    requires FramedByCall(ts, from, start)
    requires CallToken(t, Earlier(ts, start))
    ensures FramedByCall(ts + [t], from, start)
  {
    var us := ts + [t];
    assert us[..|ts|] == ts;
    forall j | from <= j < |us|
      ensures CallToken(us[j], Earlier(us[..j], start))
    {
      if j < |ts| {
        assert us[..j] == ts[..j];
      }
    }
  }

  lemma ChainedByte(ts: seq<Token>, pend: Bytes, b: byte)
    requires Chained(ts, pend)
    ensures Chained(ts, pend + [b])
  {
  }

  /** Before a byte is looked at, a partial character that it breaks has become a token of its own. */
  lemma DropKeepsTrace(width: Bytes -> nat, s: Scanner, tr: Trace, sent: Bytes, b: byte)
    requires Explains(width, s, tr, sent) && Chained(tr.tokens, tr.pend)
    ensures Explains(width, Grounded(s, b), Dropped(s, tr, b), sent)
    ensures Chained(Dropped(s, tr, b).tokens, Dropped(s, tr, b).pend + [b])
    ensures Advance(s, b) == Advance(Grounded(s, b), b) && !Breaks(Grounded(s, b), b)
    ensures forall from: nat, start :: FramedByCall(tr.tokens, from, start) ==>
              FramedByCall(Dropped(s, tr, b).tokens, from, start)
  {
    if Breaks(s, b) {
      var m, t := ModesAfter(tr.tokens), Abandoned(tr.pend);
      DropPartial(s, m, tr.pend, b);
      SnocTokens(tr.tokens, t);
      SnocOk(width, tr.tokens, t);
      assert Explains(width, Grounded(s, b), Dropped(s, tr, b), sent);
      forall from: nat, start: nat | FramedByCall(tr.tokens, from, start)
        ensures FramedByCall(tr.tokens + [t], from, start)
      {
        SnocByCall(tr.tokens, t, from, start);
      }
    } else {
      ChainedByte(tr.tokens, tr.pend, b);
    }
  }

  /** A byte that completes nothing joins the unframed rest. */
  lemma ExtendKeepsTrace(width: Bytes -> nat, s: Scanner, tr: Trace, sent: Bytes, b: byte, s': Scanner)
    requires Explains(width, s, tr, sent)
    requires Fits(s', ModesAfter(tr.tokens), tr.pend + [b]) && s'.state != Ground
    ensures Explains(width, s', Extend(tr, b), if s'.state == UTF8 then sent else sent + [b])
  {
    Assoc(Source(tr.tokens), tr.pend, [b]);
    ForwardGrows(s, tr.pend, s', b);
    Assoc(Sent(tr.tokens), Forwarded(tr.pend), [b]);
  }

  lemma ForwardGrows(s: Scanner, pend: Bytes, s': Scanner, b: byte)
    requires Holds(s, pend) && Holds(s', pend + [b]) && s'.state != Ground
    ensures Forwarded(pend + [b]) == if s'.state == UTF8 then Forwarded(pend) else Forwarded(pend) + [b]
  {
    assert (pend + [b])[0] == if pend == [] then b else pend[0];
  }

  /** A completed token takes the place of the unframed rest. */
  lemma PushKeepsTrace(width: Bytes -> nat, tr: Trace, s': Scanner, t: Token, b: byte)
    requires AllOk(width, tr.tokens) && Source(tr.tokens) + tr.pend == tr.stream
    requires Chained(tr.tokens, tr.pend + [b])
    requires t.bytes == tr.pend + [b] && !t.Abandoned?
    requires TokenOk(width, ModesAfter(tr.tokens), t)
    requires Fits(s', Note(ModesAfter(tr.tokens), t), [])
    ensures Explains(width, s', Push(tr, t, b), Sent(tr.tokens) + Output(t))
    ensures Chained(Push(tr, t, b).tokens, [])
  {
    SnocTokens(tr.tokens, t);
    SnocOk(width, tr.tokens, t);
    Assoc(Source(tr.tokens), tr.pend, [b]);
  }

  // --- one byte inside a call of Write ----------------------------------------------------------------

  /** `run` holds every byte of the unframed rest that arrived in this call and was forwarded. */
  predicate Covered(tr: Trace, run: Bytes, start: nat) {
    && start <= |tr.stream|
    && (tr.pend != [] && !IsLead(tr.pend[0]) ==>
          if |tr.pend| <= |tr.stream| - start then |tr.pend| <= |run| else |run| == |tr.stream| - start)
  }

  /** A call that began after `start` bytes and `from` tokens has sent `sent` and still holds `run`. */
  ghost predicate Midway(width: Bytes -> nat, s: Scanner, tr: Trace, sent: Bytes, run: Bytes, from: nat, start: nat) {
    && Explains(width, s, tr, sent + run)
    && Chained(tr.tokens, tr.pend)
    && FramedByCall(tr.tokens, from, start)
    && Covered(tr, run, start)
  }

  ghost predicate Ready(width: Bytes -> nat, s: Scanner, tr: Trace, sent: Bytes, run: Bytes, from: nat, start: nat, b: byte) {
    && Explains(width, s, tr, sent + run)
    && Chained(tr.tokens, tr.pend + [b])
    && FramedByCall(tr.tokens, from, start)
    && Covered(tr, run, start)
    && Tracked(s, ModesAfter(tr.tokens), tr.pend, b)
  }

  lemma Prepare(width: Bytes -> nat, s: Scanner, tr: Trace, sent: Bytes, run: Bytes, from: nat, start: nat, b: byte)
    requires Midway(width, s, tr, sent, run, from, start)
    ensures Ready(width, Grounded(s, b), Dropped(s, tr, b), sent, run, from, start, b)
    ensures Advance(s, b) == Advance(Grounded(s, b), b)
  {
    DropKeepsTrace(width, s, tr, sent + run, b);
    var s1, tr1 := Grounded(s, b), Dropped(s, tr, b);
    AdvanceTracks(s1, ModesAfter(tr1.tokens), tr1.pend, b);
  }

  /** A finished token: what the call has sent and holds is what came before, then its output. */
  lemma TokenStep(width: Bytes -> nat, tr: Trace, s': Scanner, t: Token, b: byte,
                  sent': Bytes, run': Bytes, from: nat, start: nat)
    requires AllOk(width, tr.tokens) && Source(tr.tokens) + tr.pend == tr.stream && start <= |tr.stream|
    requires Chained(tr.tokens, tr.pend + [b]) && FramedByCall(tr.tokens, from, start)
    requires t.bytes == tr.pend + [b] && !t.Abandoned?
    requires TokenOk(width, ModesAfter(tr.tokens), t) && Fits(s', Note(ModesAfter(tr.tokens), t), [])
    requires CallToken(t, Earlier(tr.tokens, start))
    requires sent' + run' == Sent(tr.tokens) + Output(t)
    ensures Midway(width, s', Push(tr, t, b), sent', run', from, start)
  {
    PushKeepsTrace(width, tr, s', t, b);
    SnocByCall(tr.tokens, t, from, start);
  }

  lemma CharFacts(s: Scanner, m: Modes, pend: Bytes, b: byte, s': Scanner, r: Bytes)
    requires Tracked(s, m, pend, b) && Advance(s, b) == (s', Rune(r))
    ensures r == pend + [b] && IsRune(r) && Fits(s', m.(lastRune := r), []) && Forwarded(pend) == []
  {
    assert r[0] == if pend == [] then b else pend[0];
  }

  lemma NothingMore(a: Bytes, z: Bytes)
    requires z == []
    ensures a + z == a
  {
  }

  lemma CharStep(width: Bytes -> nat, s: Scanner, tr: Trace, sent: Bytes, run: Bytes, from: nat, start: nat, b: byte,
                 s': Scanner, r: Bytes, inject: Bytes, room: nat, sent': Bytes, run': Bytes)
    requires Ready(width, s, tr, sent, run, from, start, b) && Advance(s, b) == (s', Rune(r))
    requires InjectOk(width, ModesAfter(tr.tokens), r, inject, room)
    requires sent' + run' == ((sent + run) + inject) + r
    ensures Midway(width, s', Push(tr, Char(r, inject, room), b), sent', run', from, start)
  {
    CharFacts(s, ModesAfter(tr.tokens), tr.pend, b, s', r);
    NothingMore(Sent(tr.tokens), Forwarded(tr.pend));
    Assoc(sent + run, inject, r);
    assert Output(Char(r, inject, room)) == inject + r;
    TokenStep(width, tr, s', Char(r, inject, room), b, sent', run', from, start);
  }

  lemma ControlFacts(s: Scanner, m: Modes, pend: Bytes, b: byte, s': Scanner, k: Kind, p: Bytes)
    requires Tracked(s, m, pend, b) && Advance(s, b) == (s', Payload(k, p))
    ensures IsControlString(k, pend + [b], p) && Fits(s', m, []) && Forwarded(pend) == pend
  {
    assert (pend + [b])[0] == pend[0] == ESC;
  }

  lemma ControlStep(width: Bytes -> nat, s: Scanner, tr: Trace, sent: Bytes, run: Bytes, from: nat, start: nat, b: byte,
                    s': Scanner, k: Kind, p: Bytes, after: Bytes, sent': Bytes, run': Bytes)
    requires Ready(width, s, tr, sent, run, from, start, b) && Advance(s, b) == (s', Payload(k, p))
    requires after == [] || (k == APC && IsCursorMove(after))
    requires sent' + run' == ((sent + run) + [b]) + after
    ensures Midway(width, s', Push(tr, Control(tr.pend + [b], k, p, after), b), sent', run', from, start)
  {
    ControlFacts(s, ModesAfter(tr.tokens), tr.pend, b, s', k, p);
    Assoc(Sent(tr.tokens), tr.pend, [b]);
    Assoc(Sent(tr.tokens), tr.pend + [b], after);
    TokenStep(width, tr, s', Control(tr.pend + [b], k, p, after), b, sent', run', from, start);
  }

  lemma QuietFacts(s: Scanner, m: Modes, pend: Bytes, b: byte, s': Scanner)
    requires Tracked(s, m, pend, b) && Advance(s, b) == (s', Quiet) && s'.state != Ground
    ensures Fits(s', m, pend + [b]) && (pend == [] && IsLead(b) ==> s'.state == UTF8)
  {
    assert pend == [] ==> pend + [b] == [b];
  }

  /** A byte without an event: forwarded at once unless a character is being collected. */
  lemma QuietStep(width: Bytes -> nat, s: Scanner, tr: Trace, sent: Bytes, run: Bytes, from: nat, start: nat, b: byte,
                  s': Scanner)
    requires Ready(width, s, tr, sent, run, from, start, b)
    requires Advance(s, b) == (s', Quiet) && s'.state != Ground
    ensures Midway(width, s', Extend(tr, b), sent, if s'.state == UTF8 then run else run + [b], from, start)
  {
    QuietFacts(s, ModesAfter(tr.tokens), tr.pend, b, s');
    ExtendKeepsTrace(width, s, tr, sent + run, b, s');
    Assoc(sent, run, [b]);
    CoveredGrows(tr, run, start, b, s');
  }

  lemma CoveredGrows(tr: Trace, run: Bytes, start: nat, b: byte, s': Scanner)
    requires Covered(tr, run, start) && Holds(s', tr.pend + [b]) && s'.state != Ground
    ensures Covered(Extend(tr, b), if s'.state == UTF8 then run else run + [b], start)
  {
    assert (tr.pend + [b])[0] == if tr.pend == [] then b else tr.pend[0];
  }

  lemma PlainFacts(s: Scanner, m: Modes, pend: Bytes, b: byte, s': Scanner, ev: Event)
    requires Holds(s, pend) && Tracked(s, m, pend, b)
    requires Advance(s, b) == (s', ev) && (ev.Ris? || (ev.Quiet? && s'.state == Ground))
    ensures PlainBytes(pend + [b], m) && Fits(s', AfterPlain(m, pend + [b]), []) && Forwarded(pend) == pend
  {
    var grown := pend + [b];
    assert grown[0] == if pend == [] then b else pend[0];
    if IsCsi(grown) {
      assert grown[..|grown| - 1][0] == ESC;
    }
  }

  lemma PlainStep(width: Bytes -> nat, s: Scanner, tr: Trace, sent: Bytes, run: Bytes, from: nat, start: nat, b: byte,
                  s': Scanner, ev: Event)
    requires Ready(width, s, tr, sent, run, from, start, b)
    requires Advance(s, b) == (s', ev) && (ev.Ris? || (ev.Quiet? && s'.state == Ground))
    ensures Midway(width, s', Push(tr, Plain(tr.pend + [b]), b), sent, run + [b], from, start)
  {
    PlainFacts(s, ModesAfter(tr.tokens), tr.pend, b, s', ev);
    Assoc(sent, run, [b]);
    Assoc(Sent(tr.tokens), tr.pend, [b]);
    TokenStep(width, tr, s', Plain(tr.pend + [b]), b, sent, run + [b], from, start);
  }

  /** Cutting from `run` takes away only bytes of the sequence, and all that arrived in this call. */
  lemma CutRun(before: Bytes, pend: Bytes, sent: Bytes, run: Bytes, cut: nat, x: Bytes)
    requires sent + run == before + pend
    requires cut <= |run| && cut <= |pend|
    ensures sent + (run[..|run| - cut] + x) == before + (pend[..|pend| - cut] + x)
  {
    var n := |sent| + |run| - cut;
    assert sent + run[..|run| - cut] == (sent + run)[..n];
    assert before + pend[..|pend| - cut] == (before + pend)[..n];
    Assoc(sent, run[..|run| - cut], x);
    Assoc(before, pend[..|pend| - cut], x);
  }

  lemma SpliceFacts(s: Scanner, m: Modes, pend: Bytes, b: byte, s': Scanner, x: Bytes)
    requires Tracked(s, m, pend, b) && Advance(s, b) == (s', Replaced(x))
    ensures |pend| >= 2 && pend[0] == ESC && Forwarded(pend) == pend && s'.csiLen == |pend| + 1
    ensures IsCsi(pend + [b]) && Splice(m, pend, b) == Some(x) && Fits(s', m.(repl := x), [])
  {
    var grown := pend + [b];
    assert grown[..|grown| - 1] == pend;
  }

  lemma SpliceTokenOk(width: Bytes -> nat, m: Modes, pend: Bytes, b: byte, x: Bytes, n: nat)
    requires |pend| >= 2 && IsCsi(pend + [b]) && Splice(m, pend, b) == Some(x) && n <= |pend|
    ensures TokenOk(width, m, Spliced(pend + [b], pend[..n], x))
  {
    var grown := pend + [b];
    assert grown[..|grown| - 1] == pend && grown[|grown| - 1] == b;
    assert grown[..n] == pend[..n];
  }

  lemma KeptBefore(tr: Trace, run: Bytes, start: nat, cut: nat)
    requires Covered(tr, run, start) && Source(tr.tokens) + tr.pend == tr.stream
    requires |tr.pend| > 0 && !IsLead(tr.pend[0]) && cut == if |tr.pend| > |run| then |run| else |tr.pend|
    ensures |tr.pend| - cut == Earlier(tr.tokens, start)
  {
    assert |Source(tr.tokens)| + |tr.pend| == |tr.stream|;
  }

  lemma SpliceStep(width: Bytes -> nat, s: Scanner, tr: Trace, sent: Bytes, run: Bytes, from: nat, start: nat, b: byte,
                   s': Scanner, x: Bytes, cut: nat)
    requires Ready(width, s, tr, sent, run, from, start, b) && Advance(s, b) == (s', Replaced(x))
    requires cut == if s'.csiLen - 1 > |run| then |run| else s'.csiLen - 1
    ensures cut <= |tr.pend|
    ensures Midway(width, s', Push(tr, Spliced(tr.pend + [b], tr.pend[..|tr.pend| - cut], x), b), sent,
                   run[..|run| - cut] + x, from, start)
  {
    SpliceFacts(s, ModesAfter(tr.tokens), tr.pend, b, s', x);
    CutRun(Sent(tr.tokens), tr.pend, sent, run, cut, x);
    SpliceTokenOk(width, ModesAfter(tr.tokens), tr.pend, b, x, |tr.pend| - cut);
    KeptBefore(tr, run, start, cut);
    SpliceToken(width, tr, s', b, x, tr.pend[..|tr.pend| - cut], sent, run[..|run| - cut] + x, from, start);
  }

  lemma SpliceToken(width: Bytes -> nat, tr: Trace, s': Scanner, b: byte, x: Bytes, kept: Bytes,
                    sent: Bytes, run': Bytes, from: nat, start: nat)
    requires AllOk(width, tr.tokens) && Source(tr.tokens) + tr.pend == tr.stream && start <= |tr.stream|
    requires Chained(tr.tokens, tr.pend + [b]) && FramedByCall(tr.tokens, from, start)
    requires TokenOk(width, ModesAfter(tr.tokens), Spliced(tr.pend + [b], kept, x))
    requires Fits(s', ModesAfter(tr.tokens).(repl := x), [])
    requires |kept| == Earlier(tr.tokens, start)
    requires sent + run' == Sent(tr.tokens) + (kept + x)
    ensures Midway(width, s', Push(tr, Spliced(tr.pend + [b], kept, x), b), sent, run', from, start)
  {
    TokenStep(width, tr, s', Spliced(tr.pend + [b], kept, x), b, sent, run', from, start);
  }

  /** A resize forgets the unframed rest and everything the scanner remembered. */
  lemma InterruptKeepsTrace(width: Bytes -> nat, s: Scanner, tr: Trace, sent: Bytes)
    requires Explains(width, s, tr, sent) && Chained(tr.tokens, tr.pend)
    ensures var tr' := tr.(tokens := tr.tokens + [Interrupted(tr.pend)], pend := []);
            Explains(width, RESET, tr', sent) && Chained(tr'.tokens, [])
  {
    var t := Interrupted(tr.pend);
    RestIsUnfinished(s, tr.pend);
    SnocTokens(tr.tokens, t);
    SnocOk(width, tr.tokens, t);
  }

  /** A call begins with nothing held. */
  lemma CallBegins(width: Bytes -> nat, s: Scanner, tr: Trace, sent: Bytes)
    requires Explains(width, s, tr, sent) && Chained(tr.tokens, tr.pend)
    ensures Midway(width, s, tr, sent, [], |tr.tokens|, |tr.stream|)
  {
    assert sent + [] == sent;
  }

  /** What the trace of a call is after one byte: it accounts for the byte and keeps its tokens. */
  predicate Follows(tr: Trace, tr': Trace, b: byte) {
    tr'.stream == tr.stream + [b] && tr.tokens <= tr'.tokens
  }

  /** A byte without an event, as one step. */
  lemma NoEventStep(width: Bytes -> nat, s: Scanner, tr: Trace, sent: Bytes, run: Bytes, from: nat, start: nat, b: byte,
                    s': Scanner, ev: Event) returns (tr': Trace)
    requires Ready(width, s, tr, sent, run, from, start, b)
    requires Advance(s, b) == (s', ev) && (ev.Quiet? || ev.Ris?)
    ensures Midway(width, s', tr', sent, if s'.state == UTF8 then run else run + [b], from, start) && Follows(tr, tr', b)
    ensures ev.Ris? ==> tr'.tokens == tr.tokens + [Plain([ESC, LETTER_C])]
  {
    if ev.Ris? || s'.state == Ground {
      PlainStep(width, s, tr, sent, run, from, start, b, s', ev);
      tr' := Push(tr, Plain(tr.pend + [b]), b);
    } else {
      QuietStep(width, s, tr, sent, run, from, start, b, s');
      tr' := Extend(tr, b);
    }
  }

  /** A replaced sequence, as one step. */
  lemma ReplacedStep(width: Bytes -> nat, s: Scanner, tr: Trace, sent: Bytes, run: Bytes, from: nat, start: nat, b: byte,
                     s': Scanner, x: Bytes, cut: nat) returns (tr': Trace)
    requires Ready(width, s, tr, sent, run, from, start, b) && Advance(s, b) == (s', Replaced(x))
    requires cut == if s'.csiLen - 1 > |run| then |run| else s'.csiLen - 1
    ensures Midway(width, s', tr', sent, run[..|run| - cut] + x, from, start) && Follows(tr, tr', b)
  {
    SpliceStep(width, s, tr, sent, run, from, start, b, s', x, cut);
    tr' := Push(tr, Spliced(tr.pend + [b], tr.pend[..|tr.pend| - cut], x), b);
  }

  /** A completed character, as one step. */
  lemma RuneStep(width: Bytes -> nat, s: Scanner, tr: Trace, sent: Bytes, run: Bytes, from: nat, start: nat, b: byte,
                 s': Scanner, r: Bytes, inject: Bytes, room: nat, sent': Bytes, run': Bytes) returns (tr': Trace)
    requires Ready(width, s, tr, sent, run, from, start, b) && Advance(s, b) == (s', Rune(r))
    requires InjectOk(width, Modes(s'.insertMode, [], []), r, inject, room)
    requires sent' + run' == ((sent + run) + inject) + r
    ensures Midway(width, s', tr', sent', run', from, start) && Follows(tr, tr', b)
  {
    CharFacts(s, ModesAfter(tr.tokens), tr.pend, b, s', r);
    CharStep(width, s, tr, sent, run, from, start, b, s', r, inject, room, sent', run');
    tr' := Push(tr, Char(r, inject, room), b);
  }

  /** A completed control string, flushed and handled, as one step. */
  lemma StringStep(width: Bytes -> nat, s: Scanner, tr: Trace, sent: Bytes, run: Bytes, from: nat, start: nat, b: byte,
                   s': Scanner, k: Kind, p: Bytes, after: Bytes, sent': Bytes) returns (tr': Trace)
    requires Ready(width, s, tr, sent, run, from, start, b) && Advance(s, b) == (s', Payload(k, p))
    requires after == [] || (k == APC && IsCursorMove(after))
    requires sent' == (sent + (run + [b])) + after
    ensures Midway(width, s', tr', sent', [], from, start) && Follows(tr, tr', b) && sent <= sent'
  {
    Assoc(sent, run, [b]);
    NothingMore(sent', []);
    Assoc(sent, run + [b], after);
    ControlStep(width, s, tr, sent, run, from, start, b, s', k, p, after, sent', []);
    tr' := Push(tr, Control(tr.pend + [b], k, p, after), b);
  }
}
