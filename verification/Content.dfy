/**
 What an explained stream is worth, on bytes: nothing of it is lost or reordered, the engine receives
 it with a few known insertions, a replaced control sequence loses only its own bytes, and CSI b
 repeats what it should exactly when there is something to repeat.
 */
module Content {
  import opened Bytes
  import opened Scanner
  import opened Tokens
  import opened Rewriting
  import opened Framing

  // --- two relations between byte strings --------------------------------------------------------

  /** What the wrapper may put between bytes of the stream: CR LF, ICH, a cursor motion. */
  ghost predicate IsAddition(a: Bytes) {
    a == CRLF || IsCursorMove(a) || exists w: nat :: a == InsertBlanks(w)
  }

  /** `sent` is `kept`, whole and in order, with additions put in between. */
  ghost predicate Adorned(kept: Bytes, sent: Bytes)
    decreases |sent|
  {
    || (kept == [] && sent == [])
    || (&& kept != [] && sent != [] && kept[|kept| - 1] == sent[|sent| - 1]
        && Adorned(kept[..|kept| - 1], sent[..|sent| - 1]))
    || (exists n :: 0 <= n < |sent| && EndsInAddition(sent, n) && Adorned(kept, sent[..n]))
  }

  ghost predicate EndsInAddition(sent: Bytes, n: nat) {
    n <= |sent| && IsAddition(sent[n..])
  }

  /** `kept` is `stream`, in order, without some partial characters that the byte behind them cut
      short; `next` is what follows the stream. */
  predicate Thinned(stream: Bytes, kept: Bytes, next: Bytes)
    decreases |stream|
  {
    || (stream == [] && kept == [])
    || (&& stream != [] && kept != [] && kept[|kept| - 1] == stream[|stream| - 1]
        && Thinned(stream[..|stream| - 1], kept[..|kept| - 1], [stream[|stream| - 1]]))
    || (exists n :: 0 <= n < |stream| && CutShort(stream, n, next) && Thinned(stream[..n], kept, stream[n..]))
  }

  predicate CutShort(stream: Bytes, n: nat, next: Bytes) {
    n <= |stream| && PartialRune(stream[n..]) && next != [] && !IsContinuation(next[0])
  }

  lemma {:induction false} AdornedKeeps(kept: Bytes, sent: Bytes, x: Bytes)
    requires Adorned(kept, sent)
    ensures Adorned(kept + x, sent + x)
    decreases |x|
  {
    if x == [] {
      assert kept + x == kept && sent + x == sent;
    } else {
      var y := x[..|x| - 1];
      AdornedKeeps(kept, sent, y);
      DropLast(kept, x);
      DropLast(sent, x);
    }
  }

  lemma DropLast(a: Bytes, x: Bytes)
    requires x != []
    ensures (a + x)[..|a + x| - 1] == a + x[..|x| - 1] && (a + x)[|a + x| - 1] == x[|x| - 1]
  {
  }

  lemma AdornedAdds(kept: Bytes, sent: Bytes, a: Bytes)
    requires Adorned(kept, sent) && (a == [] || IsAddition(a))
    ensures Adorned(kept, sent + a)
  {
    if a == [] {
      assert sent + a == sent;
    } else {
      var all := sent + a;
      assert all[|sent|..] == a && all[..|sent|] == sent;
      assert EndsInAddition(all, |sent|);
    }
  }

  lemma {:induction false} ThinnedKeeps(stream: Bytes, kept: Bytes, x: Bytes, next: Bytes)
    requires Thinned(stream, kept, x) && (x == [] ==> next == [])
    ensures Thinned(stream + x, kept + x, next)
    decreases |x|
  {
    if x == [] {
      assert kept + x == kept && stream + x == stream;
    } else {
      var y, z := x[..|x| - 1], [x[|x| - 1]];
      DropLast(kept, x);
      DropLast(stream, x);
      if y == [] {
        assert x == z;
        assert stream + y == stream && kept + y == kept;
      } else {
        OnlyFirstMatters(stream, kept, x, y);
        ThinnedKeeps(stream, kept, y, z);
      }
    }
  }

  /** Only the first byte of what follows matters. */
  lemma OnlyFirstMatters(stream: Bytes, kept: Bytes, next: Bytes, other: Bytes)
    requires Thinned(stream, kept, next) && next != [] && other != [] && next[0] == other[0]
    ensures Thinned(stream, kept, other)
  {
    if exists n :: 0 <= n < |stream| && CutShort(stream, n, next) && Thinned(stream[..n], kept, stream[n..]) {
      var n :| 0 <= n < |stream| && CutShort(stream, n, next) && Thinned(stream[..n], kept, stream[n..]);
      assert CutShort(stream, n, other);
    }
  }

  lemma ThinnedDrops(stream: Bytes, kept: Bytes, x: Bytes, next: Bytes)
    requires Thinned(stream, kept, x) && PartialRune(x) && next != [] && !IsContinuation(next[0])
    ensures Thinned(stream + x, kept, next)
  {
    var all := stream + x;
    assert all[|stream|..] == x && all[..|stream|] == stream;
    assert CutShort(all, |stream|, next);
  }

  // --- what was sent ---------------------------------------------------------------------------------

  /** The stream without its abandoned partial characters. */
  function SourceKept(ts: seq<Token>): Bytes {
    if ts == [] then [] else
      SourceKept(ts[..|ts| - 1]) + if ts[|ts| - 1].Abandoned? then [] else ts[|ts| - 1].bytes
  }

  /** No control sequence with final byte s, u or b. */
  predicate NoSpliceFinals(ts: seq<Token>) {
    forall i :: 0 <= i < |ts| && IsCsi(ts[i].bytes) ==> ts[i].bytes[|ts[i].bytes| - 1] !in {0x73, 0x75, 0x62}
  }

  /** One token: its bytes go through, with additions around them. */
  lemma TokenAdorns(width: Bytes -> nat, m: Modes, kept: Bytes, sent: Bytes, t: Token)
    requires TokenOk(width, m, t) && !t.Interrupted? && !t.Spliced? && Adorned(kept, sent)
    ensures Adorned(kept + if t.Abandoned? then [] else t.bytes, sent + Output(t))
  {
    match t
    case Char(b, inject, room) =>
      var w := RuneWidth(width, b);
      var crlf := if w > 1 && w > room then CRLF else [];
      var blanks := if m.insert && w > 0 then InsertBlanks(w) else [];
      AdornedAdds(kept, sent, crlf);
      AdornedAdds(kept, sent + crlf, blanks);
      AdornedKeeps(kept, (sent + crlf) + blanks, b);
      Assoc(sent, crlf, blanks);
      Assoc(sent, inject, b);
    case Plain(b) => AdornedKeeps(kept, sent, b);
    case Abandoned(_) =>
      assert kept + [] == kept && sent + [] == sent;
    case Control(b, _, _, after) =>
      AdornedKeeps(kept, sent, b);
      AdornedAdds(kept + b, sent + b, after);
      Assoc(sent, b, after);
  }

  lemma {:induction false} TokensAdorn(width: Bytes -> nat, ts: seq<Token>)
    requires AllOk(width, ts) && Uninterrupted(ts) && NoSpliceFinals(ts)
    ensures Adorned(SourceKept(ts), Sent(ts))
    decreases |ts|
  {
    if ts != [] {
      var us, t := ts[..|ts| - 1], ts[|ts| - 1];
      TokensAdorn(width, us);
      TokenAdorns(width, ModesAfter(us), SourceKept(us), Sent(us), t);
    }
  }

  lemma {:induction false} TokensThin(width: Bytes -> nat, ts: seq<Token>, next: Bytes)
    requires AllOk(width, ts) && Uninterrupted(ts) && Chained(ts, next)
    ensures Thinned(Source(ts), SourceKept(ts), next)
    decreases |ts|
  {
    if ts != [] {
      var us, t := ts[..|ts| - 1], ts[|ts| - 1];
      TokensThin(width, us, t.bytes);
      TokenIsPiece(width, ModesAfter(us), t, next);
      if t.Abandoned? {
        ThinnedDrops(Source(us), SourceKept(us), t.bytes, next);
        assert SourceKept(us) + [] == SourceKept(us);
      } else {
        ThinnedKeeps(Source(us), SourceKept(us), t.bytes, next);
      }
    }
  }

  /** The partly collected character. */
  function Held(pend: Bytes): Bytes {
    if Forwarded(pend) == [] then pend else []
  }

  lemma HeldOrForwarded(pend: Bytes)
    ensures Forwarded(pend) + Held(pend) == pend
  {
  }

  /**
   Content is preserved: without CSI s, u and b there are bytes `kept` such that the engine was sent
   them, whole and in order, with only CR LF, ICH and cursor motions in between; and they, followed
   by the character still being collected, are the stream without partial characters cut short.
   */
  lemma ContentPreserved(width: Bytes -> nat, s: Scanner, tr: Trace, sent: Bytes) returns (kept: Bytes)
    requires Explains(width, s, tr, sent) && Chained(tr.tokens, tr.pend)
    requires Uninterrupted(tr.tokens) && NoSpliceFinals(tr.tokens)
    ensures Adorned(kept, sent) && Thinned(tr.stream, kept + Held(tr.pend), [])
    ensures (forall i :: 0 <= i < |tr.tokens| ==> !tr.tokens[i].Abandoned?) ==> kept + Held(tr.pend) == tr.stream
  {
    var ts, pend := tr.tokens, tr.pend;
    kept := SourceKept(ts) + Forwarded(pend);
    TokensAdorn(width, ts);
    AdornedKeeps(SourceKept(ts), Sent(ts), Forwarded(pend));
    TokensThin(width, ts, pend);
    ThinnedKeeps(Source(ts), SourceKept(ts), pend, []);
    HeldOrForwarded(pend);
    Assoc(SourceKept(ts), Forwarded(pend), Held(pend));
    if forall i :: 0 <= i < |ts| ==> !ts[i].Abandoned? {
      AllKept(ts);
    }
  }

  lemma {:induction false} AllKept(ts: seq<Token>)
    requires forall i :: 0 <= i < |ts| ==> !ts[i].Abandoned?
    ensures SourceKept(ts) == Source(ts)
    decreases |ts|
  {
    if ts != [] {
      AllKept(ts[..|ts| - 1]);
    }
  }

  predicate NothingAdded(ts: seq<Token>) {
    forall i :: 0 <= i < |ts| ==> Output(ts[i]) == ts[i].bytes
  }

  lemma {:induction false} TransparentTokens(ts: seq<Token>)
    requires NothingAdded(ts)
    ensures Sent(ts) == Source(ts)
    decreases |ts|
  {
    if ts != [] {
      TransparentTokens(ts[..|ts| - 1]);
    }
  }

  /** With nothing to add, drop or replace, the terminal receives the stream itself. */
  lemma Transparent(width: Bytes -> nat, s: Scanner, tr: Trace, sent: Bytes)
    requires Explains(width, s, tr, sent) && NothingAdded(tr.tokens)
    ensures sent + Held(tr.pend) == tr.stream
  {
    TransparentTokens(tr.tokens);
    HeldOrForwarded(tr.pend);
    Assoc(Sent(tr.tokens), Forwarded(tr.pend), Held(tr.pend));
  }

  /** A replaced sequence: what was sent for it is a front part of its own bytes and the replacement,
      and only the replacement if the sequence began in the call that completed it. */
  lemma SpliceIsLocal(width: Bytes -> nat, ts: seq<Token>, from: nat, start: nat, j: nat)
    requires AllOk(width, ts) && FramedByCall(ts, from, start) && from <= j < |ts| && ts[j].Spliced?
    ensures var t := ts[j];
            && t.kept < t.bytes && Output(t) == t.kept + t.repl
            && (start <= |Source(ts[..j])| ==> Output(t) == t.repl)
            && (|Source(ts[..j])| < start ==> Source(ts[..j]) + t.kept == (Source(ts[..j]) + t.bytes)[..start])
  {
    AllOkAt(width, ts, j);
    var o := Source(ts[..j]);
    if |o| < start {
      assert |o + ts[j].kept| == start;
      assert ts[j].kept == ts[j].bytes[..|ts[j].kept|];
    }
  }

  /**
   Control strings are framed all or nothing: the token is introducer, text and terminator, the text
   holds no terminator, and the payload is the text without its pairs of ESC and another byte when
   that is within the cap, and empty otherwise. That every string token of every stream is of this form
   is Tokens.AdvanceTracks; here it is read off the trace.
   */
  lemma StringsAreAllOrNothing(width: Bytes -> nat, s: Scanner, tr: Trace, sent: Bytes, j: nat)
    requires Explains(width, s, tr, sent) && j < |tr.tokens| && tr.tokens[j].Control?
    ensures var t := tr.tokens[j];
            && IsString(t.kind, t.bytes)
            && var c := Cut(t.kind, t.bytes);
               && t.bytes == [ESC, Introducer(t.kind)] + (c.0 + c.1)
               && Body(t.kind, c.0) && Terminator(t.kind, c.1)
               && t.payload == if |Clean(c.0)| <= BUF_LIMIT then Clean(c.0) else []
  {
    AllOkAt(width, tr.tokens, j);
    var t := tr.tokens[j];
    assert t.bytes[..2] == [ESC, Introducer(t.kind)];
  }

  // --- CSI b ------------------------------------------------------------------------------------------

  /** ESC c and a resize make the scanner forget what it has seen. */
  predicate Forgets(t: Token) {
    t.Interrupted? || t == Plain([ESC, LETTER_C])
  }

  /** Token i is a character and nothing was forgotten since. */
  predicate CharSince(ts: seq<Token>, i: nat) {
    i < |ts| && ts[i].Char? && forall j :: i < j < |ts| ==> !Forgets(ts[j])
  }

  /** Token i is the last character, with nothing forgotten since. */
  predicate LastChar(ts: seq<Token>, i: nat) {
    CharSince(ts, i) && forall j :: i < j < |ts| ==> !ts[j].Char?
  }

  /** Token i is the last replaced sequence, with nothing forgotten since. */
  predicate LastSplice(ts: seq<Token>, i: nat) {
    i < |ts| && ts[i].Spliced? && forall j :: i < j < |ts| ==> !ts[j].Spliced? && !Forgets(ts[j])
  }

  lemma ForgottenOrKept(m: Modes, t: Token)
    ensures Forgets(t) ==> Note(m, t) == FRESH
    ensures !Forgets(t) && !t.Char? ==> Note(m, t).lastRune == m.lastRune
    ensures !Forgets(t) && !t.Spliced? ==> Note(m, t).repl == m.repl
  {
  }

  lemma {:induction false} CharIsRemembered(width: Bytes -> nat, ts: seq<Token>, i: nat)
    requires AllOk(width, ts) && CharSince(ts, i)
    ensures ModesAfter(ts).lastRune != []
    ensures LastChar(ts, i) ==> ModesAfter(ts).lastRune == ts[i].bytes
    decreases |ts|
  {
    var n := |ts| - 1;
    if !ts[n].Char? {
      ForgottenOrKept(ModesAfter(ts[..n]), ts[n]);
      CharIsRemembered(width, ts[..n], i);
    }
  }

  lemma LastCharStays(ts: seq<Token>, i: nat)
    requires ts != [] && LastChar(ts[..|ts| - 1], i) && !ts[|ts| - 1].Char? && !Forgets(ts[|ts| - 1])
    ensures LastChar(ts, i)
  {
    var us := ts[..|ts| - 1];
    assert forall j :: 0 <= j < |us| ==> us[j] == ts[j];
  }

  lemma {:induction false} FindLastChar(width: Bytes -> nat, ts: seq<Token>) returns (i: nat)
    requires AllOk(width, ts) && ModesAfter(ts).lastRune != []
    ensures LastChar(ts, i)
    decreases |ts|
  {
    var n := |ts| - 1;
    if ts[n].Char? {
      i := n;
    } else {
      ForgottenOrKept(ModesAfter(ts[..n]), ts[n]);
      i := FindLastChar(width, ts[..n]);
      LastCharStays(ts, i);
    }
  }

  /** The scanner remembers a character exactly when there was one since the last reset, and then it
      is the last one. */
  lemma RemembersLastChar(width: Bytes -> nat, ts: seq<Token>)
    requires AllOk(width, ts)
    ensures ModesAfter(ts).lastRune != [] <==> exists i: nat :: CharSince(ts, i)
    ensures ModesAfter(ts).lastRune != [] ==>
              exists i: nat :: LastChar(ts, i) && ModesAfter(ts).lastRune == ts[i].bytes
  {
    if ModesAfter(ts).lastRune != [] {
      var i := FindLastChar(width, ts);
      CharIsRemembered(width, ts, i);
    }
    if i: nat :| CharSince(ts, i) {
      CharIsRemembered(width, ts, i);
    }
  }

  lemma {:induction false} SpliceIsRemembered(width: Bytes -> nat, ts: seq<Token>, i: nat)
    requires AllOk(width, ts) && LastSplice(ts, i)
    ensures ModesAfter(ts).repl == ts[i].repl
    decreases |ts|
  {
    var n := |ts| - 1;
    if i < n {
      ForgottenOrKept(ModesAfter(ts[..n]), ts[n]);
      SpliceIsRemembered(width, ts[..n], i);
    }
  }

  lemma {:induction false} FindLastSplice(width: Bytes -> nat, ts: seq<Token>) returns (i: nat)
    requires AllOk(width, ts) && ModesAfter(ts).repl != []
    ensures LastSplice(ts, i)
    decreases |ts|
  {
    var n := |ts| - 1;
    if ts[n].Spliced? {
      i := n;
    } else {
      ForgottenOrKept(ModesAfter(ts[..n]), ts[n]);
      i := FindLastSplice(width, ts[..n]);
    }
  }

  /** How often a complete CSI b asks for a repetition. */
  function RepeatCount(b: Bytes): nat
    requires IsCsi(b)
  {
    Repetitions(ParamBytes(b[..|b| - 1][2..]))
  }

  /** CSI n b asks for n repetitions: one if n is missing or zero, and never more than 4096. */
  lemma RepetitionsAre(n: nat)
    requires n < 0x8000_0000_0000_0000
    ensures Repetitions(Decimal(n)) == if n == 0 then 1 else if n > 4096 then 4096 else n
    ensures Repetitions([]) == 1
  {
    OneParam(n);
    OneNumber([]);
  }

  lemma SliceOfFront(front: Bytes, r: Bytes, from: nat, to: nat)
    requires from <= to <= |front|
    ensures (front + r)[from..to] == front[from..to]
  {
  }

  lemma Distributes(n: nat, k: nat)
    requires n > 0
    ensures n * k == (n - 1) * k + k
  {
  }

  lemma {:induction false} RepeatLength(r: Bytes, n: nat)
    ensures |Repeat(r, n)| == n * |r|
    decreases n
  {
    if n > 0 {
      RepeatLength(r, n - 1);
      Distributes(n, |r|);
    }
  }

  /** A repetition is that many copies, one behind the other. */
  lemma {:induction false} RepeatIs(r: Bytes, n: nat, i: nat)
    requires i < n
    ensures |Repeat(r, n)| == n * |r| && i * |r| + |r| <= n * |r| && Repeat(r, n)[i * |r|..i * |r| + |r|] == r
    decreases n
  {
    var front := Repeat(r, n - 1);
    RepeatLength(r, n - 1);
    Distributes(n, |r|);
    if i < n - 1 {
      RepeatIs(r, n - 1, i);
      SliceOfFront(front, r, i * |r|, i * |r| + |r|);
    } else {
      assert (front + r)[|front|..] == r;
    }
  }

  /** A replaced CSI b, in terms of what is remembered before it. */
  lemma RepeatToken(width: Bytes -> nat, m: Modes, t: Token)
    requires TokenOk(width, m, t) && t.Spliced? && t.bytes != [] && t.bytes[|t.bytes| - 1] == 0x62
    ensures IsCsi(t.bytes)
    ensures t.repl == if m.lastRune == [] then m.repl else Repeat(m.lastRune, RepeatCount(t.bytes))
  {
  }

  lemma ReusesLastSplice(width: Bytes -> nat, us: seq<Token>)
    requires AllOk(width, us)
    ensures forall i: nat :: LastSplice(us, i) ==> ModesAfter(us).repl == us[i].repl
    ensures (forall i: nat :: !LastSplice(us, i)) ==> ModesAfter(us).repl == []
  {
    forall i: nat | LastSplice(us, i) ensures ModesAfter(us).repl == us[i].repl {
      SpliceIsRemembered(width, us, i);
    }
    if ModesAfter(us).repl != [] {
      var i := FindLastSplice(width, us);
      assert LastSplice(us, i);
    }
  }

  /** Behind `us`, a CSI b sends the last character since the last reset, as often as asked, if there is
      one. If there is none it sends the replacement of the last replaced sequence instead, or nothing
      if there is none of those either. */
  ghost predicate RepeatsLast(us: seq<Token>, t: Token) {
    && IsCsi(t.bytes) && t.Spliced?
    && ((exists i: nat :: CharSince(us, i)) ==>
          exists i: nat :: LastChar(us, i) && t.repl == Repeat(us[i].bytes, RepeatCount(t.bytes)))
    && ((forall i: nat :: !CharSince(us, i)) ==>
          && (forall i: nat :: LastSplice(us, i) ==> t.repl == us[i].repl)
          && ((forall i: nat :: !LastSplice(us, i)) ==> t.repl == []))
  }

  lemma RepeatAfter(width: Bytes -> nat, us: seq<Token>, t: Token)
    requires AllOk(width, us) && TokenOk(width, ModesAfter(us), t)
    requires t.Spliced? && t.bytes != [] && t.bytes[|t.bytes| - 1] == 0x62
    ensures RepeatsLast(us, t)
  {
    RepeatToken(width, ModesAfter(us), t);
    RemembersLastChar(width, us);
    if ModesAfter(us).lastRune == [] {
      ReusesLastSplice(width, us);
    }
  }

  /** What CSI b sends, in every stream. */
  lemma RepeatMeans(width: Bytes -> nat, ts: seq<Token>, j: nat)
    requires AllOk(width, ts) && j < |ts| && ts[j].Spliced? && ts[j].bytes != []
    requires ts[j].bytes[|ts[j].bytes| - 1] == 0x62
    ensures RepeatsLast(ts[..j], ts[j])
  {
    AllOkFront(width, ts, j);
    AllOkAt(width, ts, j);
    RepeatAfter(width, ts[..j], ts[j]);
  }

  lemma {:induction false} AllOkFront(width: Bytes -> nat, ts: seq<Token>, n: nat)
    requires AllOk(width, ts) && n <= |ts|
    ensures AllOk(width, ts[..n])
    decreases |ts|
  {
    if n == |ts| {
      assert ts[..n] == ts;
    } else {
      AllOkFront(width, ts[..|ts| - 1], n);
      assert ts[..|ts| - 1][..n] == ts[..n];
    }
  }

  const SAVE: Bytes := [ESC, BRACKET, 0x73]
  const REPEAT: Bytes := [ESC, BRACKET, 0x62]
  const SAVED: Bytes := [ESC, 0x37]

  function StaleTrace(): Trace {
    Trace([Spliced(SAVE, [], SAVED), Spliced(REPEAT, [], SAVED)], [], SAVE + REPEAT)
  }

  lemma StaleTokens(width: Bytes -> nat)
    ensures AllOk(width, StaleTrace().tokens) && Uninterrupted(StaleTrace().tokens)
    ensures Chained(StaleTrace().tokens, []) && Source(StaleTrace().tokens) == SAVE + REPEAT
    ensures ModesAfter(StaleTrace().tokens) == Modes(false, [], SAVED)
  {
    var s, r := Spliced(SAVE, [], SAVED), Spliced(REPEAT, [], SAVED);
    assert SAVE[..2] == [ESC, BRACKET] && REPEAT[..2] == [ESC, BRACKET];
    assert CsiOpen([ESC, BRACKET]) && IsCsi(SAVE) && IsCsi(REPEAT);
    assert [ESC, BRACKET][2..] == [];
    assert TokenOk(width, FRESH, s);
    assert TokenOk(width, Modes(false, [], SAVED), r);
    assert [] + [s] == [s] && [s] + [r] == StaleTrace().tokens;
    SnocOk(width, [], s);
    SnocTokens([], s);
    SnocOk(width, [s], r);
    SnocTokens([s], r);
  }

  lemma TwoOutputs(a: Token, b: Token, x: Bytes, y: Bytes)
    requires Output(a) == x && Output(b) == y
    ensures Sent([a, b]) == x + y
  {
    assert [] + [a] == [a] && [a] + [b] == [a, b];
    SnocTokens([], a);
    SnocTokens([a], b);
  }

  /** A real input: CSI s and then CSI b, with no character before, in one call. The cursor is saved
      twice instead of nothing being repeated. */
  lemma StaleRepeat(width: Bytes -> nat, s: Scanner, tr: Trace, sent: Bytes)
    requires Explains(width, s, tr, sent) && Chained(tr.tokens, tr.pend) && FramedByCall(tr.tokens, 0, 0)
    requires tr.stream == SAVE + REPEAT
    ensures sent == SAVED + SAVED
  {
    var z := RESET.(replacement := SAVED);
    StaleTokens(width);
    var st := StaleTrace();
    assert Source(st.tokens) + [] == st.stream;
    assert Explains(width, z, st, Sent(st.tokens) + []);
    FramingIsUnique(width, s, tr, sent, z, st, Sent(st.tokens) + []);
    var a, b := tr.tokens[0], tr.tokens[1];
    assert CallToken(a, 0) && CallToken(b, 0);
    assert tr.tokens[..1] == [a] && tr.tokens == [a, b];
    TwoOutputs(a, b, SAVED, SAVED);
  }

  // --- the other compensations --------------------------------------------------------------------------

  lemma CsiIsReplaced(width: Bytes -> nat, m: Modes, t: Token)
    requires TokenOk(width, m, t) && !t.Interrupted? && IsCsi(t.bytes)
    ensures var final := t.bytes[|t.bytes| - 1];
      && (final == 0x73 && QUESTION !in t.bytes[2..] ==> t.Spliced? && t.repl == [0x1b, 0x37])
      && (final == 0x75 && QUESTION !in t.bytes[2..] ==> t.Spliced? && t.repl == [0x1b, 0x38])
      && (t.Spliced? ==> final in {0x73, 0x75, 0x62})
  {
    var b := t.bytes;
    CsiParts(b, 2);
    assert forall x :: x in b[..|b| - 1][2..] ==> x in b[2..] by {
      assert b[..|b| - 1][2..] == b[2..|b| - 1];
      assert b[2..] == b[2..|b| - 1] + [b[|b| - 1]];
    }
  }

  /** In every stream, CSI s and CSI u without a question mark are replaced by ESC 7 and ESC 8, and of the
      other control sequences only CSI b is replaced at all. */
  lemma SavesAndRestores(width: Bytes -> nat, ts: seq<Token>, j: nat)
    requires AllOk(width, ts) && Uninterrupted(ts) && j < |ts| && IsCsi(ts[j].bytes)
    ensures var t := ts[j]; var final := t.bytes[|t.bytes| - 1];
      && (final == 0x73 && QUESTION !in t.bytes[2..] ==> t.Spliced? && t.repl == [0x1b, 0x37])
      && (final == 0x75 && QUESTION !in t.bytes[2..] ==> t.Spliced? && t.repl == [0x1b, 0x38])
      && (t.Spliced? ==> final in {0x73, 0x75, 0x62})
  {
    AllOkAt(width, ts, j);
    CsiIsReplaced(width, ModesAfter(ts[..j]), ts[j]);
  }

  /** Token i switches insert mode: CSI 4 h or CSI 4 l, alone or among other parameters. */
  predicate Switches(t: Token) {
    t.Plain? && |t.bytes| >= 3 && SetsInsert(t.bytes[..|t.bytes| - 1], t.bytes[|t.bytes| - 1])
  }

  predicate LastSwitch(ts: seq<Token>, i: nat) {
    i < |ts| && Switches(ts[i]) && forall j :: i < j < |ts| ==> !Switches(ts[j]) && !Forgets(ts[j])
  }

  lemma SwitchOrKeep(m: Modes, t: Token)
    ensures Forgets(t) ==> !Note(m, t).insert && !Switches(t)
    ensures Switches(t) ==> Note(m, t).insert == (t.bytes[|t.bytes| - 1] == 0x68)
    ensures !Forgets(t) && !Switches(t) ==> Note(m, t).insert == m.insert
  {
  }

  lemma {:induction false} FindLastSwitch(ts: seq<Token>) returns (i: nat)
    requires ModesAfter(ts).insert
    ensures LastSwitch(ts, i) && ts[i].bytes[|ts[i].bytes| - 1] == 0x68
    decreases |ts|
  {
    var n := |ts| - 1;
    SwitchOrKeep(ModesAfter(ts[..n]), ts[n]);
    if Switches(ts[n]) {
      i := n;
    } else {
      i := FindLastSwitch(ts[..n]);
    }
  }

  lemma {:induction false} LastSwitchDecides(ts: seq<Token>, i: nat)
    requires LastSwitch(ts, i)
    ensures ModesAfter(ts).insert == (ts[i].bytes[|ts[i].bytes| - 1] == 0x68)
    decreases |ts|
  {
    var n := |ts| - 1;
    SwitchOrKeep(ModesAfter(ts[..n]), ts[n]);
    if i < n {
      LastSwitchDecides(ts[..n], i);
    }
  }

  /** In every stream insert mode is on exactly when the last CSI 4 h or CSI 4 l since the last reset was
      an h. */
  lemma InsertModeMeans(ts: seq<Token>)
    ensures ModesAfter(ts).insert <==> exists i: nat :: LastSwitch(ts, i) && ts[i].bytes[|ts[i].bytes| - 1] == 0x68
  {
    if ModesAfter(ts).insert {
      var i := FindLastSwitch(ts);
    }
    if i: nat :| LastSwitch(ts, i) && ts[i].bytes[|ts[i].bytes| - 1] == 0x68 {
      LastSwitchDecides(ts, i);
    }
  }

  /** In every stream, what is sent for a character ends in it; a wide one that has not enough room is
      preceded by CR LF, and in insert mode every character is preceded by an ICH for its width. */
  lemma CharsAreShown(width: Bytes -> nat, ts: seq<Token>, j: nat)
    requires AllOk(width, ts) && j < |ts| && ts[j].Char?
    ensures var t, w := ts[j], RuneWidth(width, ts[j].bytes); var on := ModesAfter(ts[..j]).insert && w > 0;
      && Output(t) == t.inject + t.bytes
      && (w > 1 && w > t.room ==> [0x0d, 0x0a] <= t.inject)
      && (on ==> |t.inject| >= |InsertBlanks(w)| && t.inject[|t.inject| - |InsertBlanks(w)|..] == InsertBlanks(w))
      && |t.inject| == (if w > 1 && w > t.room then 2 else 0) + (if on then |InsertBlanks(w)| else 0)
  {
    AllOkAt(width, ts, j);
  }
}
