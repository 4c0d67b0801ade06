/**
 The byte scanner that frames terminal output (internal/capture/emulator.go, gfxScanner).
 `Advance` is its transition function; class GfxScanner performs it on fixed buffers.
 */
module Scanner {
  import opened Bytes

  const BEL: byte := 0x07
  const BACKSLASH: byte := 0x5c
  const BRACKET: byte := 0x5b
  const QUESTION: byte := 0x3f
  const LETTER_C: byte := 0x63

  /** 16 MiB: a longer control string is dropped as a whole. */
  const BUF_LIMIT: nat := 16 * 1024 * 1024
  const REP_MAX: nat := 4096

  datatype Kind = OSC | DCS | APC

  /** Str(k) collects a control string of kind k; StrEnd(k) has just seen an ESC inside it. */
  datatype State = Ground | Esc | CSI | UTF8 | Str(kind: Kind) | StrEnd(kind: Kind)

  datatype Event =
    | Quiet
    | Ris                              // no event, but the reset callback fired
    | Rune(bytes: Bytes)
    | Payload(kind: Kind, payload: Bytes)
    | Replaced(bytes: Bytes)

  datatype Scanner = Scanner(
    state: State,
    buf: Bytes,
    full: bool,
    priv: bool,
    params: Bytes,
    csiLen: nat,
    utf8: Bytes,
    need: nat,
    insertMode: bool,
    lastRune: Bytes,
    replacement: Bytes)

  const RESET: Scanner := Scanner(Ground, [], false, false, [], 0, [], 0, false, [], [])

  function Introducer(k: Kind): byte {
    match k
    case OSC => 0x5d
    case DCS => 0x50
    case APC => 0x5f
  }

  predicate IsLead(b: byte) {
    0xc2 <= b <= 0xf4
  }

  /** The length a lead byte announces. */
  function Need(b: byte): nat {
    if b <= 0xdf then 2 else if b <= 0xef then 3 else 4
  }

  predicate IsParam(b: byte) {
    0x30 <= b <= 0x39 || b == 0x3b || b == 0x3a
  }

  predicate IsFinal(b: byte) {
    0x40 <= b <= 0x7e
  }

  // --- CSI parameters ----------------------------------------------------------------

  predicate IsSeparator(b: byte) {
    b == 0x3b || b == 0x3a
  }

  function Digit(b: int): int {
    b - 0x30
  }

  /** The number the first `n` digits spell. */
  function ValueOf(digits: Bytes, n: nat): int
    requires n <= |digits|
  {
    if n == 0 then 0 else ValueOf(digits, n - 1) * 10 + Digit(digits[n - 1])
  }

  function Value(digits: Bytes): int {
    ValueOf(digits, |digits|)
  }

  /** strconv.Atoi on a run of digits; an empty or overflowing segment counts as zero. */
  function Number(seg: Bytes): int {
    if seg == [] || Value(seg) >= 0x8000_0000_0000_0000 then 0 else Value(seg)
  }

  /** The pieces that a separator ends, and the one behind the last separator. */
  datatype Pieces = Pieces(done: seq<Bytes>, open: Bytes)

  function CutParams(b: Bytes): Pieces {
    if b == [] then Pieces([], [])
    else
      var s, x := CutParams(b[..|b| - 1]), b[|b| - 1];
      if IsSeparator(x) then Pieces(s.done + [s.open], []) else s.(open := s.open + [x])
  }

  function Numbers(ds: seq<Bytes>): seq<int> {
    seq(|ds|, i requires 0 <= i < |ds| => Number(ds[i]))
  }

  /** The numbers of a parameter string, cut at every separator. */
  function Params(b: Bytes): seq<int> {
    Numbers(CutParams(b).done) + [Number(CutParams(b).open)]
  }

  lemma CutSnoc(b: Bytes, x: byte)
    ensures CutParams(b + [x]) ==
      if IsSeparator(x) then Pieces(CutParams(b).done + [CutParams(b).open], []) else CutParams(b).(open := CutParams(b).open + [x])
  {
    assert (b + [x])[..|b|] == b;
  }

  lemma NumbersSnoc(ds: seq<Bytes>, d: Bytes)
    ensures Numbers(ds + [d]) == Numbers(ds) + [Number(d)]
  {
  }

  lemma ByteIsCut(b: Bytes, start: nat, i: nat, done: seq<Bytes>)
    requires start <= i < |b| && CutParams(b[..i]) == Pieces(done, b[start..i])
    ensures CutParams(b[..i + 1]) ==
      if IsSeparator(b[i]) then Pieces(done + [b[start..i]], b[i + 1..i + 1]) else Pieces(done, b[start..i + 1])
  {
    assert b[..i] + [b[i]] == b[..i + 1] && b[start..i] + [b[i]] == b[start..i + 1];
    CutSnoc(b[..i], b[i]);
  }

  /** The loop of parseParams: cut at every separator, one number per piece. */
  method ParseParams(b: Bytes) returns (params: seq<int>)
    ensures params == Params(b)
  {
    params := [];
    ghost var done: seq<Bytes> := [];
    var start, i := 0, 0;
    while i < |b|
      invariant 0 <= start <= i <= |b|
      invariant CutParams(b[..i]) == Pieces(done, b[start..i]) && params == Numbers(done)
    {
      ByteIsCut(b, start, i, done);
      if IsSeparator(b[i]) {
        NumbersSnoc(done, b[start..i]);
        done := done + [b[start..i]];
        params := params + [Number(b[start..i])];
        start := i + 1;
      }
      i := i + 1;
    }
    assert b[..|b|] == b && b[start..|b|] == b[start..];
    params := params + [Number(b[start..])];
  }

  predicate Unbroken(d: Bytes) {
    forall i :: 0 <= i < |d| ==> !IsSeparator(d[i])
  }

  lemma {:induction false} UnbrokenGoesOn(a: Bytes, d: Bytes)
    requires Unbroken(d)
    ensures CutParams(a + d) == Pieces(CutParams(a).done, CutParams(a).open + d)
    decreases |d|
  {
    if d == [] {
      assert a + d == a && CutParams(a).open + d == CutParams(a).open;
    } else {
      var e, x := d[..|d| - 1], d[|d| - 1];
      UnbrokenGoesOn(a, e);
      assert (a + e) + [x] == a + d && (CutParams(a).open + e) + [x] == CutParams(a).open + d;
      CutSnoc(a + e, x);
    }
  }

  lemma NothingBefore(e: Bytes, d: Bytes)
    requires e == []
    ensures e + d == d
  {
  }

  lemma UnbrokenStarts(a: Bytes, d: Bytes)
    requires CutParams(a).open == [] && Unbroken(d)
    ensures CutParams(a + d) == Pieces(CutParams(a).done, d)
  {
    UnbrokenGoesOn(a, d);
    NothingBefore(CutParams(a).open, d);
  }

  /** A separator ends a piece, and what follows up to the next one is a piece. */
  lemma NextPiece(a: Bytes, sep: byte, d: Bytes)
    requires IsSeparator(sep) && Unbroken(d)
    ensures CutParams(a + ([sep] + d)) == Pieces(CutParams(a).done + [CutParams(a).open], d)
  {
    CutSnoc(a, sep);
    UnbrokenStarts(a + [sep], d);
    Assoc(a, [sep], d);
  }

  lemma OnePiece(d: Bytes)
    requires Unbroken(d)
    ensures CutParams(d) == Pieces([], d)
  {
    UnbrokenStarts([], d);
    NothingBefore([], d);
  }

  lemma OneNumber(d: Bytes)
    requires Unbroken(d)
    ensures Params(d) == [Number(d)]
  {
    OnePiece(d);
  }

  /** How often CSI b repeats the last character. */
  function Repetitions(params: Bytes): nat {
    var p := Params(params);
    var n := if |p| > 0 && p[0] > 0 then p[0] else 1;
    if n > REP_MAX then REP_MAX else n
  }

  function Repeat(r: Bytes, n: nat): Bytes {
    if n == 0 then [] else Repeat(r, n - 1) + r
  }

  // --- the transition function ----------------------------------------------------------

  function AppendPayload(s: Scanner, b: byte): Scanner {
    if s.full then s
    else if |s.buf| >= BUF_LIMIT then s.(full := true, buf := [])
    else s.(buf := s.buf + [b])
  }

  function ScanByte(s: Scanner, b: byte): (Scanner, Event) {
    if b == ESC then (s.(state := Esc), Quiet)
    else if b < 0x80 then (s.(lastRune := [b]), Rune([b]))
    else if IsLead(b) then (s.(utf8 := [b], need := Need(b), state := UTF8), Quiet)
    else (s, Quiet)
  }

  function AfterEsc(s: Scanner, b: byte): (Scanner, Event) {
    if b == BRACKET then (s.(state := CSI, priv := false, params := [], csiLen := 2), Quiet)
    else if b == Introducer(OSC) then (s.(state := Str(OSC), buf := [], full := false), Quiet)
    else if b == Introducer(DCS) then (s.(state := Str(DCS), buf := [], full := false), Quiet)
    else if b == Introducer(APC) then (s.(state := Str(APC), buf := [], full := false), Quiet)
    else if b == LETTER_C then (RESET, Ris)
    else (s.(state := Ground), Quiet)
  }

  /** A final byte ends the sequence; s, u and b ask for a replacement. */
  function FinishCsi(s: Scanner, b: byte): (Scanner, Event) {
    var g := s.(state := Ground);
    if (b == 0x68 || b == 0x6c) && !s.priv && 4 in Params(s.params) then (g.(insertMode := b == 0x68), Quiet)
    else if b == 0x73 && !s.priv then (g.(replacement := [ESC, 0x37]), Replaced([ESC, 0x37]))
    else if b == 0x75 && !s.priv then (g.(replacement := [ESC, 0x38]), Replaced([ESC, 0x38]))
    else if b == 0x62 then
      var r := if s.lastRune != [] then Repeat(s.lastRune, Repetitions(s.params)) else s.replacement;
      (g.(replacement := r), Replaced(r))
    else (g, Quiet)
  }

  function InCsi(s0: Scanner, b: byte): (Scanner, Event) {
    var s := s0.(csiLen := s0.csiLen + 1);
    if b == QUESTION then (s.(priv := true), Quiet)
    else if IsParam(b) then (s.(params := s.params + [b]), Quiet)
    else if IsFinal(b) then FinishCsi(s, b)
    else (s, Quiet)
  }

  function InString(s: Scanner, k: Kind, b: byte): (Scanner, Event) {
    if k == OSC && b == BEL then (s.(state := Ground, buf := [], full := false), Payload(k, s.buf))
    else if b == ESC then (s.(state := StrEnd(k)), Quiet)
    else (AppendPayload(s, b), Quiet)
  }

  function AtStringEnd(s: Scanner, k: Kind, b: byte): (Scanner, Event) {
    if b == BACKSLASH then (s.(state := Ground, buf := [], full := false), Payload(k, s.buf))
    else (s.(state := Str(k)), Quiet)
  }

  function InRune(s: Scanner, b: byte): (Scanner, Event) {
    if !IsContinuation(b) then ScanByte(s.(utf8 := [], need := 0, state := Ground), b)
    else
      var r := s.utf8 + [b];
      if |r| == s.need then (s.(utf8 := [], need := 0, state := Ground, lastRune := r), Rune(r))
      else (s.(utf8 := r), Quiet)
  }

  function Advance(s: Scanner, b: byte): (Scanner, Event) {
    match s.state
    case Ground => ScanByte(s, b)
    case UTF8 => InRune(s, b)
    case Esc => AfterEsc(s, b)
    case CSI => InCsi(s, b)
    case Str(k) => InString(s, k, b)
    case StrEnd(k) => AtStringEnd(s, k, b)
  }

  // --- the scanner object -------------------------------------------------------------------

  /** What advance reports; what the event carries is left in the scanner's fields. */
  datatype Report = NoEvent | RuneSeen | StringSeen(kind: Kind) | SequenceReplaced

  /** The columns a character takes; every ASCII byte counts as one, without a lookup. */
  function RuneWidth(width: Bytes -> nat, r: Bytes): nat {
    if |r| == 1 then 1 else width(r)
  }

  function Zeros(): (z: Bytes)
    ensures |z| == 4
  {
    [0, 0, 0, 0]
  }

  /** Go's copy into the front of a four-byte array. */
  function CopyInto(to: Bytes, from: Bytes): Bytes
    requires |from| <= |to|
  {
    from + to[|from|..]
  }

  lemma StoreByte(buf: Bytes, n: nat, b: byte)
    requires n < |buf|
    ensures buf[n := b][..n + 1] == buf[..n] + [b]
  {
  }

  lemma CopiedFront(to: Bytes, from: Bytes)
    requires |from| <= |to|
    ensures |CopyInto(to, from)| == |to| && CopyInto(to, from)[..|from|] == from
  {
  }

  /** The scanner. Its three four-byte arrays are values, as in the source; `width` stands for the
      wide-character table. */
  class GfxScanner {
    const width: Bytes -> nat

    var state: State
    var buf: Bytes
    var full: bool
    var priv: bool
    var paramStr: Bytes
    var csiLen: nat
    var utf8Buf: Bytes
    var utf8Got: nat
    var utf8Need: nat
    var runeBuf: Bytes
    var runeLen: nat
    var w: nat
    var insertMode: bool
    var lastRuneBuf: Bytes
    var lastRuneLen: nat
    var payload: Bytes
    var replacement: Bytes

    /** Every index advance will use is in range, and the payload buffer stays within its cap. */
    ghost predicate Valid()
      reads this
    {
      && |utf8Buf| == 4 && |runeBuf| == 4 && |lastRuneBuf| == 4
      && (state == UTF8 ==> 1 <= utf8Got < utf8Need <= 4 && runeLen == utf8Need)
      && (state != UTF8 ==> utf8Got == 0)
      && lastRuneLen <= 4
      && |buf| <= BUF_LIMIT
    }

    ghost function View(): Scanner
      requires Valid()
      reads this
    {
      Scanner(state, buf, full, priv, paramStr, csiLen, utf8Buf[..utf8Got], utf8Need, insertMode,
              lastRuneBuf[..lastRuneLen], replacement)
    }

    /** The event a report stands for, read off the fields it leaves valid. */
    ghost predicate Reports(ev: Report, e: Event)
      reads this
    {
      match ev
      case NoEvent => e.Quiet? || e.Ris?
      case RuneSeen => runeLen <= |runeBuf| && e == Rune(runeBuf[..runeLen]) && w == RuneWidth(width, e.bytes)
      case StringSeen(k) => e == Payload(k, payload)
      case SequenceReplaced => e == Replaced(replacement)
    }

    constructor (width: Bytes -> nat)
      ensures Valid() && View() == RESET && this.width == width
    {
      this.width := width;
      state, buf, full, priv, paramStr, csiLen := Ground, [], false, false, [], 0;
      utf8Got, utf8Need, runeLen, w := 0, 0, 0, 0;
      insertMode, lastRuneLen, payload, replacement := false, 0, [], [];
      utf8Buf, runeBuf, lastRuneBuf := Zeros(), Zeros(), Zeros();
    }

    method Reset()
      modifies this
      ensures Valid() && View() == RESET
    {
      ResetRunes();
      state, buf, full, priv, paramStr, csiLen := Ground, [], false, false, [], 0;
      insertMode, payload, replacement := false, [], [];
    }

    method ResetRunes()
      modifies this`utf8Buf, this`utf8Got, this`utf8Need, this`runeBuf, this`runeLen, this`w, this`lastRuneBuf, this`lastRuneLen
      ensures |utf8Buf| == 4 && |runeBuf| == 4 && |lastRuneBuf| == 4
      ensures utf8Got == 0 && utf8Need == 0 && lastRuneLen == 0
    {
      utf8Got, utf8Need, runeLen, w, lastRuneLen := 0, 0, 0, 0, 0;
      utf8Buf, runeBuf, lastRuneBuf := Zeros(), Zeros(), Zeros();
    }

    method StartPayload()
      modifies this`buf, this`full
      ensures buf == [] && !full
    {
      buf, full := [], false;
    }

    method TakeByte(b: byte)
      requires Valid()
      modifies this`buf, this`full
      ensures Valid() && View() == AppendPayload(old(View()), b)
    {
      if full {
        return;
      }
      if |buf| >= BUF_LIMIT {
        buf, full := [], true;
        return;
      }
      buf := buf + [b];
    }

    /** An ASCII byte is a character by itself. */
    method Ascii(b: byte)
      requires Valid() && state == Ground
      modifies this
      ensures Valid() && View() == old(View()).(lastRune := [b])
      ensures runeLen == 1 && runeBuf[..1] == [b] && w == 1
    {
      w := 1;
      StoreByte(runeBuf, 0, b);
      assert runeBuf[..0] + [b] == [b];
      runeBuf, runeLen := runeBuf[0 := b], 1;
      lastRuneBuf, lastRuneLen := runeBuf, 1;
    }

    /** A lead byte announces the length of its character. */
    method Lead(b: byte)
      requires Valid() && state == Ground && IsLead(b)
      modifies this
      ensures Valid() && View() == old(View()).(utf8 := [b], need := Need(b), state := UTF8)
    {
      StoreByte(utf8Buf, 0, b);
      assert utf8Buf[..0] + [b] == [b];
      utf8Buf, utf8Got := utf8Buf[0 := b], 1;
      utf8Need := if b <= 0xdf then 2 else if b <= 0xef then 3 else 4;
      runeLen := utf8Need;
      state := UTF8;
    }

    method Scan(b: byte) returns (ev: Report)
      requires Valid() && state == Ground
      modifies this
      ensures Valid() && View() == ScanByte(old(View()), b).0
      ensures Reports(ev, ScanByte(old(View()), b).1)
    {
      if b == ESC {
        state := Esc;
        return NoEvent;
      } else if b < 0x80 {
        Ascii(b);
        return RuneSeen;
      } else if 0xc2 <= b <= 0xf4 {
        Lead(b);
        return NoEvent;
      }
      return NoEvent;
    }

    /** In gsUTF8: a continuation byte is stored, anything else drops the partial character. */
    method Collect(b: byte) returns (ev: Report)
      requires Valid() && state == UTF8
      modifies this
      ensures Valid() && View() == InRune(old(View()), b).0
      ensures Reports(ev, InRune(old(View()), b).1)
    {
      if !IsContinuation(b) {
        utf8Got, utf8Need, state := 0, 0, Ground;
        ev := Scan(b);
        return;
      }
      StoreByte(utf8Buf, utf8Got, b);
      utf8Buf := utf8Buf[utf8Got := b];
      utf8Got := utf8Got + 1;
      if utf8Got == utf8Need {
        TakeRune();
        return RuneSeen;
      }
      return NoEvent;
    }

    /** The last continuation byte is in: the character moves to the rune buffers. */
    method TakeRune()
      requires |utf8Buf| == 4 && |runeBuf| == 4 && |lastRuneBuf| == 4 && |buf| <= BUF_LIMIT
      requires 2 <= utf8Got == utf8Need == runeLen <= 4
      modifies this`w, this`utf8Got, this`utf8Need, this`state, this`runeBuf, this`lastRuneBuf, this`lastRuneLen
      ensures Valid() && state == Ground && utf8Need == 0
      ensures runeBuf[..runeLen] == old(utf8Buf[..utf8Got])
      ensures lastRuneLen == runeLen && lastRuneBuf[..lastRuneLen] == runeBuf[..runeLen]
      ensures w == RuneWidth(width, runeBuf[..runeLen])
    {
      w := RuneWidth(width, utf8Buf[..utf8Got]);
      CopiedFront(runeBuf, utf8Buf[..runeLen]);
      runeBuf := CopyInto(runeBuf, utf8Buf[..runeLen]);
      CopiedFront(lastRuneBuf, runeBuf[..runeLen]);
      lastRuneBuf := CopyInto(lastRuneBuf, runeBuf[..runeLen]);
      utf8Got, utf8Need, state := 0, 0, Ground;
      lastRuneLen := runeLen;
    }

    /** The loop over the parameters of CSI h and CSI l. */
    method TrackInsert(params: seq<int>, enable: bool)
      modifies this`insertMode
      ensures insertMode == if 4 in params then enable else old(insertMode)
    {
      for i := 0 to |params|
        invariant insertMode == if 4 in params[..i] then enable else old(insertMode)
      {
        if params[i] == 4 {
          insertMode := enable;
        }
        assert params[..i + 1] == params[..i] + [params[i]];
      }
      assert params[..|params|] == params;
    }

    method Finish(b: byte) returns (ev: Report)
      requires Valid() && state == CSI
      modifies this
      ensures Valid() && View() == FinishCsi(old(View()), b).0
      ensures Reports(ev, FinishCsi(old(View()), b).1)
    {
      var params := ParseParams(paramStr);
      state := Ground;
      if b == 0x68 || b == 0x6c {
        if !priv {
          TrackInsert(params, b == 0x68);
        }
        return NoEvent;
      } else if b == 0x73 && !priv {
        replacement := [ESC, 0x37];
        return SequenceReplaced;
      } else if b == 0x75 && !priv {
        replacement := [ESC, 0x38];
        return SequenceReplaced;
      } else if b == 0x62 {
        var n := 1;
        if |params| > 0 && params[0] > 0 {
          n := params[0];
        }
        if n > REP_MAX {
          n := REP_MAX;
        }
        if lastRuneLen > 0 {
          replacement := Repeat(lastRuneBuf[..lastRuneLen], n);
        }
        return SequenceReplaced;
      }
      return NoEvent;
    }

    method Complete(k: Kind) returns (ev: Report)
      requires Valid() && (state == Str(k) || state == StrEnd(k))
      modifies this
      ensures Valid() && View() == old(View()).(state := Ground, buf := [], full := false)
      ensures ev == StringSeen(k) && payload == old(buf)
    {
      state := Ground;
      payload, buf := buf, [];
      full := false;
      return StringSeen(k);
    }

    /** The caller of advance takes the payload away. */
    method ClearPayload()
      requires Valid()
      modifies this`payload
      ensures Valid() && View() == old(View())
    {
      payload := [];
    }

    /** In gsEsc: one byte decides what follows; ESC c runs the reset callback. */
    method Dispatch(b: byte) returns (ris: bool)
      requires Valid() && state == Esc
      modifies this
      ensures Valid() && View() == AfterEsc(old(View()), b).0
      ensures ris == AfterEsc(old(View()), b).1.Ris?
    {
      ris := false;
      if b == BRACKET {
        state, priv, paramStr, csiLen := CSI, false, [], 2;
      } else if b == Introducer(OSC) {
        state := Str(OSC);
        StartPayload();
      } else if b == Introducer(DCS) {
        state := Str(DCS);
        StartPayload();
      } else if b == Introducer(APC) {
        state := Str(APC);
        StartPayload();
      } else if b == LETTER_C {
        Reset();
        ris := true;
      } else {
        state := Ground;
      }
    }

    method Sequence(b: byte) returns (ev: Report)
      requires Valid() && state == CSI
      modifies this
      ensures Valid() && View() == InCsi(old(View()), b).0
      ensures Reports(ev, InCsi(old(View()), b).1) && !InCsi(old(View()), b).1.Ris?
    {
      ev := NoEvent;
      ghost var before := View();
      csiLen := csiLen + 1;
      assert View() == before.(csiLen := before.csiLen + 1);
      if b == QUESTION {
        priv := true;
      } else if IsParam(b) {
        paramStr := paramStr + [b];
      } else if IsFinal(b) {
        ev := Finish(b);
      }
    }

    method Text(k: Kind, b: byte) returns (ev: Report)
      requires Valid() && state == Str(k)
      modifies this
      ensures Valid() && View() == InString(old(View()), k, b).0
      ensures Reports(ev, InString(old(View()), k, b).1)
    {
      ev := NoEvent;
      if k == OSC && b == BEL {
        ev := Complete(k);
      } else if b == ESC {
        state := StrEnd(k);
      } else {
        TakeByte(b);
      }
    }

    method TextEnd(k: Kind, b: byte) returns (ev: Report)
      requires Valid() && state == StrEnd(k)
      modifies this
      ensures Valid() && View() == AtStringEnd(old(View()), k, b).0
      ensures Reports(ev, AtStringEnd(old(View()), k, b).1)
    {
      ev := NoEvent;
      if b == BACKSLASH {
        ev := Complete(k);
      } else {
        state := Str(k);
      }
    }

    /** One byte of terminal output; `ris` says that the reset callback ran. */
    method Step(b: byte) returns (ev: Report, ris: bool)
      requires Valid()
      modifies this
      ensures Valid() && View() == Advance(old(View()), b).0
      ensures Reports(ev, Advance(old(View()), b).1)
      ensures ris == Advance(old(View()), b).1.Ris?
    {
      ev, ris := NoEvent, false;
      match state
      case Ground => ev := Scan(b);
      case UTF8 => ev := Collect(b);
      case Esc => ris := Dispatch(b);
      case CSI => ev := Sequence(b);
      case Str(k) => ev := Text(k, b);
      case StrEnd(k) => ev := TextEnd(k, b);
    }
  }
}
