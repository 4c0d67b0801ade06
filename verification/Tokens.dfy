/**
 What the scanner makes of a byte stream, stated on the bytes alone: which stretches of output
 are characters, control sequences (section 5.4 of ECMA-48), control strings (section 5.6 of
 ECMA-48) or partial UTF-8 characters (section 4 of RFC 3629), and that the scanner of
 internal/capture/emulator.go frames every stream that way.
 */
module Tokens {
  import opened Bytes
  import opened Scanner

  /** One framed stretch of the stream, with what was sent to the terminal in its place. */
  datatype Token =
    | Char(bytes: Bytes, inject: Bytes, room: nat)                   // a character, after `inject`
    | Plain(bytes: Bytes)                                            // forwarded as it is
    | Abandoned(bytes: Bytes)                                        // a character cut short: dropped
    | Spliced(bytes: Bytes, kept: Bytes, repl: Bytes)                // a replaced control sequence
    | Control(bytes: Bytes, kind: Kind, payload: Bytes, after: Bytes)   // a control string, then `after`
    | Interrupted(bytes: Bytes)                                      // cut off by a resize

  /** What earlier tokens leave behind for later ones. */
  datatype Modes = Modes(insert: bool, lastRune: Bytes, repl: Bytes)

  const FRESH: Modes := Modes(false, [], [])

  // --- characters -----------------------------------------------------------------------

  predicate Continued(b: Bytes) {
    forall i :: 1 <= i < |b| ==> IsContinuation(b[i])
  }

  predicate IsRune(b: Bytes) {
    || (|b| == 1 && b[0] < 0x80 && b[0] != ESC)
    || (|b| >= 2 && IsLead(b[0]) && |b| == Need(b[0]) && Continued(b))
  }

  predicate PartialRune(b: Bytes) {
    1 <= |b| && IsLead(b[0]) && |b| < Need(b[0]) && Continued(b)
  }

  predicate IsStray(b: Bytes) {
    |b| == 1 && b[0] >= 0x80 && !IsLead(b[0])
  }

  // --- escapes and control sequences ------------------------------------------------------

  predicate IsIntroducer(b: byte) {
    b == BRACKET || b == Introducer(OSC) || b == Introducer(DCS) || b == Introducer(APC)
  }

  predicate IsEscape(b: Bytes) {
    |b| == 2 && b[0] == ESC && !IsIntroducer(b[1])
  }

  predicate CsiOpen(b: Bytes) {
    |b| >= 2 && b[0] == ESC && b[1] == BRACKET && forall i :: 2 <= i < |b| ==> !IsFinal(b[i])
  }

  predicate IsCsi(b: Bytes) {
    |b| >= 3 && CsiOpen(b[..|b| - 1]) && IsFinal(b[|b| - 1])
  }

  predicate Private(body: Bytes) {
    QUESTION in body
  }

  /** The digits and separators of a control sequence, in order. */
  function ParamBytes(body: Bytes): Bytes {
    if body == [] then [] else
      ParamBytes(body[..|body| - 1]) + if IsParam(body[|body| - 1]) then [body[|body| - 1]] else []
  }

  /** What replaces a complete control sequence, if anything does: save cursor, restore cursor, repeat. */
  function Splice(m: Modes, open: Bytes, final: byte): Option<Bytes>
    requires |open| >= 2
  {
    if final == 0x73 && !Private(open[2..]) then Some([ESC, 0x37])
    else if final == 0x75 && !Private(open[2..]) then Some([ESC, 0x38])
    else if final == 0x62 then
      Some(if m.lastRune == [] then m.repl else Repeat(m.lastRune, Repetitions(ParamBytes(open[2..]))))
    else None
  }

  /** CSI 4 h and CSI 4 l switch insert mode. */
  predicate SetsInsert(open: Bytes, final: byte)
    requires |open| >= 2
  {
    (final == 0x68 || final == 0x6c) && !Private(open[2..]) && 4 in Params(ParamBytes(open[2..]))
  }

  // --- control strings --------------------------------------------------------------------

  /** `raw` holds no terminator of a string of kind k, and does not end in the middle of a pair. */
  predicate Body(k: Kind, raw: Bytes) {
    if raw == [] then true
    else if raw[0] == ESC then |raw| >= 2 && raw[1] != BACKSLASH && Body(k, raw[2..])
    else !(k == OSC && raw[0] == BEL) && Body(k, raw[1..])
  }

  /** `raw` without its pairs of ESC and another byte. */
  function Clean(raw: Bytes): Bytes {
    if raw == [] then []
    else if raw[0] == ESC then if |raw| == 1 then [] else Clean(raw[2..])
    else [raw[0]] + Clean(raw[1..])
  }

  /** All or nothing: a text over the cap leaves nothing. */
  function Capped(text: Bytes): Bytes {
    if |text| <= BUF_LIMIT then text else []
  }

  predicate OpensString(k: Kind, b: Bytes) {
    |b| >= 2 && b[0] == ESC && b[1] == Introducer(k)
  }

  predicate BellString(k: Kind, b: Bytes, payload: Bytes) {
    && k == OSC && OpensString(k, b) && |b| >= 3 && b[|b| - 1] == BEL
    && Body(k, b[2..|b| - 1]) && payload == Capped(Clean(b[2..|b| - 1]))
  }

  predicate EscString(k: Kind, b: Bytes, payload: Bytes) {
    && OpensString(k, b) && |b| >= 4 && b[|b| - 2] == ESC && b[|b| - 1] == BACKSLASH
    && Body(k, b[2..|b| - 2]) && payload == Capped(Clean(b[2..|b| - 2]))
  }

  predicate IsControlString(k: Kind, b: Bytes, payload: Bytes) {
    BellString(k, b, payload) || EscString(k, b, payload)
  }

  lemma {:induction false} BodyGrows(k: Kind, raw: Bytes, x: Bytes)
    requires Body(k, raw)
    ensures Body(k, raw + x) == Body(k, x) && Clean(raw + x) == Clean(raw) + Clean(x)
    decreases |raw|
  {
    if raw == [] {
      assert raw + x == x;
    } else if raw[0] == ESC {
      BodyGrows(k, raw[2..], x);
      DropAppend(raw, x, 2);
    } else {
      BodyGrows(k, raw[1..], x);
      DropAppend(raw, x, 1);
      Assoc([raw[0]], Clean(raw[1..]), Clean(x));
    }
  }

  // --- the scanner against the bytes it has not yet framed -------------------------------------

  predicate Remembers(s: Scanner, m: Modes) {
    s.insertMode == m.insert && s.lastRune == m.lastRune && s.replacement == m.repl
  }

  predicate Collects(s: Scanner, text: Bytes) {
    s.full == (|text| > BUF_LIMIT) && s.buf == Capped(text)
  }

  /** The scanner's fields are what the unframed bytes `pend` make them. */
  predicate Holds(s: Scanner, pend: Bytes) {
    match s.state
    case Ground => pend == []
    case UTF8 => pend == s.utf8 && PartialRune(pend) && s.need == Need(pend[0])
    case Esc => pend == [ESC]
    case CSI =>
      && CsiOpen(pend) && s.csiLen == |pend|
      && s.priv == Private(pend[2..]) && s.params == ParamBytes(pend[2..])
    case Str(k) => OpensString(k, pend) && Body(k, pend[2..]) && Collects(s, Clean(pend[2..]))
    case StrEnd(k) =>
      && OpensString(k, pend) && |pend| >= 3 && pend[|pend| - 1] == ESC
      && Body(k, pend[2..|pend| - 1]) && Collects(s, Clean(pend[2..|pend| - 1]))
  }

  predicate Fits(s: Scanner, m: Modes, pend: Bytes) {
    Remembers(s, m) && Holds(s, pend)
  }

  // --- unfinished stretches ---------------------------------------------------------------------

  predicate OpenString(k: Kind, b: Bytes) {
    && OpensString(k, b)
    && (Body(k, b[2..]) || (|b| >= 3 && b[|b| - 1] == ESC && Body(k, b[2..|b| - 1])))
  }

  predicate Unfinished(b: Bytes) {
    PartialRune(b) || b == [ESC] || CsiOpen(b) || OpenString(OSC, b) || OpenString(DCS, b) || OpenString(APC, b)
  }

  lemma RestIsUnfinished(s: Scanner, pend: Bytes)
    requires Holds(s, pend)
    ensures pend == [] || Unfinished(pend)
  {
  }

  /** What reaches the terminal at once of an unframed stretch: a partial character is held back. */
  function Forwarded(pend: Bytes): Bytes {
    if pend != [] && IsLead(pend[0]) then [] else pend
  }

  // --- tokens --------------------------------------------------------------------------------

  predicate PlainBytes(b: Bytes, m: Modes) {
    IsStray(b) || IsEscape(b) || (IsCsi(b) && Splice(m, b[..|b| - 1], b[|b| - 1]).None?)
  }

  function Decimal(n: nat): Bytes {
    if n < 10 then [DecimalDigit(n)] else Decimal(n / 10) + [DecimalDigit(n % 10)]
  }

  function DecimalDigit(n: int): byte
    requires 0 <= n < 10
  {
    0x30 + n
  }

  const CRLF: Bytes := [0x0d, 0x0a]

  /** CSI n @: insert n blank cells. */
  function InsertBlanks(n: nat): Bytes {
    [ESC, BRACKET] + Decimal(n) + [0x40]
  }

  /** CSI row ; column H, both counted from one. */
  function MoveTo(row: nat, col: nat): Bytes {
    [ESC, BRACKET] + Decimal(row + 1) + [0x3b] + Decimal(col + 1) + [0x48]
  }

  ghost predicate IsCursorMove(b: Bytes) {
    exists row: nat, col: nat :: b == MoveTo(row, col)
  }

  /** What precedes a character: a line break for a wide one that does not fit in the `room` left from
      the cursor to the end of the row, then blanks in insert mode. */
  predicate InjectOk(width: Bytes -> nat, m: Modes, r: Bytes, inject: Bytes, room: nat) {
    var w := RuneWidth(width, r);
    && (w > 1 ==> room >= 1)
    && inject == (if w > 1 && w > room then CRLF else []) + (if m.insert && w > 0 then InsertBlanks(w) else [])
  }

  ghost predicate TokenOk(width: Bytes -> nat, m: Modes, t: Token) {
    match t
    case Char(b, inject, room) => IsRune(b) && InjectOk(width, m, b, inject, room)
    case Plain(b) => PlainBytes(b, m)
    case Abandoned(b) => PartialRune(b)
    case Spliced(b, kept, repl) =>
      IsCsi(b) && Splice(m, b[..|b| - 1], b[|b| - 1]) == Some(repl) && kept < b
    case Control(b, k, payload, after) =>
      IsControlString(k, b, payload) && (after == [] || (k == APC && IsCursorMove(after)))
    case Interrupted(b) => b == [] || Unfinished(b)
  }

  function Note(m: Modes, t: Token): Modes {
    match t
    case Char(b, _, _) => m.(lastRune := b)
    case Plain(b) => AfterPlain(m, b)
    case Spliced(_, _, repl) => m.(repl := repl)
    case Interrupted(_) => FRESH
    case _ => m
  }

  /** ESC c resets everything; CSI 4 h and CSI 4 l set and clear insert mode. */
  function AfterPlain(m: Modes, b: Bytes): Modes {
    if b == [ESC, LETTER_C] then FRESH
    else if |b| >= 3 && SetsInsert(b[..|b| - 1], b[|b| - 1]) then m.(insert := b[|b| - 1] == 0x68)
    else m
  }

  // --- one byte --------------------------------------------------------------------------------

  /** What feeding b to a scanner that holds `pend` must amount to. */
  predicate Tracked(s: Scanner, m: Modes, pend: Bytes, b: byte) {
    var (s', ev) := Advance(s, b);
    var grown := pend + [b];
    match ev
    case Rune(r) => r == grown && IsRune(r) && Fits(s', m.(lastRune := r), [])
    case Payload(k, p) => IsControlString(k, grown, p) && Fits(s', m, [])
    case Replaced(x) =>
      IsCsi(grown) && Splice(m, pend, b) == Some(x) && s'.csiLen == |grown| && Fits(s', m.(repl := x), [])
    case Ris => grown == [ESC, LETTER_C] && Fits(s', FRESH, [])
    case Quiet =>
      if s'.state == Ground then PlainBytes(grown, m) && Fits(s', AfterPlain(m, grown), [])
      else Fits(s', m, grown)
  }

  /** A byte that does not continue the partial character held makes the scanner drop it. */
  predicate Breaks(s: Scanner, b: byte) {
    s.state == UTF8 && !IsContinuation(b)
  }

  /** Dropping a partial character, then taking the byte in ground state. */
  lemma DropPartial(s: Scanner, m: Modes, pend: Bytes, b: byte)
    requires Fits(s, m, pend) && Breaks(s, b)
    ensures var g := s.(utf8 := [], need := 0, state := Ground);
            PartialRune(pend) && Fits(g, m, []) && Advance(s, b) == Advance(g, b)
  {
  }

  lemma TrackGround(s: Scanner, m: Modes, pend: Bytes, b: byte)
    requires Fits(s, m, pend) && s.state == Ground
    ensures Tracked(s, m, pend, b)
  {
    assert pend + [b] == [b];
  }

  lemma TrackRune(s: Scanner, m: Modes, pend: Bytes, b: byte)
    requires Fits(s, m, pend) && s.state == UTF8 && IsContinuation(b)
    ensures Tracked(s, m, pend, b)
  {
    var grown := pend + [b];
    assert grown[0] == pend[0];
    assert Continued(grown);
  }

  lemma TrackEsc(s: Scanner, m: Modes, pend: Bytes, b: byte)
    requires Fits(s, m, pend) && s.state == Esc
    ensures Tracked(s, m, pend, b)
  {
    var grown := pend + [b];
    assert grown == [ESC, b];
    assert grown[2..] == [];
  }

  lemma CsiBodyGrows(pend: Bytes, b: byte)
    requires |pend| >= 2
    ensures (pend + [b])[2..] == pend[2..] + [b]
    ensures ParamBytes(pend[2..] + [b]) == ParamBytes(pend[2..]) + if IsParam(b) then [b] else []
  {
    var body := pend[2..];
    assert (body + [b])[..|body|] == body;
  }

  lemma CsiStaysOpen(pend: Bytes, b: byte)
    requires CsiOpen(pend) && !IsFinal(b)
    ensures CsiOpen(pend + [b])
    ensures Private(pend[2..] + [b]) == (Private(pend[2..]) || b == QUESTION)
  {
  }

  lemma MiddleHolds(s: Scanner, pend: Bytes, b: byte)
    requires Holds(s, pend) && s.state == CSI && !IsFinal(b)
    ensures InCsi(s, b).1 == Quiet && InCsi(s, b).0.state == CSI && Holds(InCsi(s, b).0, pend + [b])
  {
    var s', grown := InCsi(s, b).0, pend + [b];
    CsiBodyGrows(pend, b);
    CsiStaysOpen(pend, b);
    assert s'.csiLen == |grown| && CsiOpen(grown);
    assert s'.priv == Private(grown[2..]) && s'.params == ParamBytes(grown[2..]);
  }

  lemma TrackMiddle(s: Scanner, m: Modes, pend: Bytes, b: byte)
    requires Fits(s, m, pend) && s.state == CSI && !IsFinal(b)
    ensures Tracked(s, m, pend, b)
  {
    MiddleHolds(s, pend, b);
    assert Remembers(InCsi(s, b).0, m);
  }

  lemma TrackCsi(s: Scanner, m: Modes, pend: Bytes, b: byte)
    requires Fits(s, m, pend) && s.state == CSI
    ensures Tracked(s, m, pend, b)
  {
    if IsFinal(b) {
      assert (pend + [b])[..|pend|] == pend;
      TrackFinal(s, m, pend, b);
    } else {
      TrackMiddle(s, m, pend, b);
    }
  }

  lemma TrackFinal(s: Scanner, m: Modes, pend: Bytes, b: byte)
    requires Fits(s, m, pend) && s.state == CSI && IsFinal(b) && IsCsi(pend + [b])
    ensures Tracked(s, m, pend, b)
  {
    var grown := pend + [b];
    assert grown[..|grown| - 1] == pend && grown[|grown| - 1] == b;
    assert grown[1] == BRACKET;
    assert grown != [ESC, LETTER_C];
  }

  lemma PayloadHolds(s: Scanner, pend: Bytes, b: byte, k: Kind)
    requires Holds(s, pend) && s.state == Str(k) && !(k == OSC && b == BEL) && b != ESC
    ensures Holds(AppendPayload(s, b), pend + [b])
  {
    var raw := pend[2..];
    DropAppend(pend, [b], 2);
    BodyGrows(k, raw, [b]);
    assert [b][1..] == [];
    assert Clean([b]) == [b];
    assert Body(k, [b]);
    assert Collects(AppendPayload(s, b), Clean(raw) + [b]);
    assert OpensString(k, pend + [b]);
  }

  lemma TrackPayload(s: Scanner, m: Modes, pend: Bytes, b: byte, k: Kind)
    requires Fits(s, m, pend) && s.state == Str(k) && !(k == OSC && b == BEL) && b != ESC
    ensures Tracked(s, m, pend, b)
  {
    PayloadHolds(s, pend, b, k);
    var s' := AppendPayload(s, b);
    assert Advance(s, b) == (s', Quiet) && s'.state == Str(k);
    assert Fits(s', m, pend + [b]);
  }

  lemma TrackText(s: Scanner, m: Modes, pend: Bytes, b: byte, k: Kind)
    requires Fits(s, m, pend) && s.state == Str(k)
    ensures Tracked(s, m, pend, b)
  {
    if !(k == OSC && b == BEL) && b != ESC {
      TrackPayload(s, m, pend, b, k);
    } else {
      var grown := pend + [b];
      assert grown[2..|grown| - 1] == pend[2..];
    }
  }

  /** ESC and another byte inside a string are passed over. */
  lemma PairHolds(s: Scanner, pend: Bytes, b: byte, k: Kind)
    requires Holds(s, pend) && s.state == StrEnd(k) && b != BACKSLASH
    ensures Holds(s.(state := Str(k)), pend + [b])
  {
    var grown, raw := pend + [b], pend[2..|pend| - 1];
    assert grown[2..] == raw + [ESC, b];
    BodyGrows(k, raw, [ESC, b]);
    assert [ESC, b][2..] == [];
    assert Clean([ESC, b]) == [] && Body(k, [ESC, b]);
    assert Clean(raw) + [] == Clean(raw);
  }

  lemma TrackTextEnd(s: Scanner, m: Modes, pend: Bytes, b: byte, k: Kind)
    requires Fits(s, m, pend) && s.state == StrEnd(k)
    ensures Tracked(s, m, pend, b)
  {
    var grown := pend + [b];
    if b == BACKSLASH {
      assert grown[2..|grown| - 2] == pend[2..|pend| - 1];
      assert EscString(k, grown, s.buf);
    } else {
      PairHolds(s, pend, b, k);
      var s' := s.(state := Str(k));
      assert Advance(s, b) == (s', Quiet) && Fits(s', m, grown);
    }
  }

  /** The scanner frames every stream as the token definitions say, one byte at a time. */
  lemma AdvanceTracks(s: Scanner, m: Modes, pend: Bytes, b: byte)
    requires Fits(s, m, pend) && !Breaks(s, b)
    ensures Tracked(s, m, pend, b)
  {
    match s.state
    case Ground => TrackGround(s, m, pend, b);
    case UTF8 => TrackRune(s, m, pend, b);
    case Esc => TrackEsc(s, m, pend, b);
    case CSI => TrackCsi(s, m, pend, b);
    case Str(k) => TrackText(s, m, pend, b, k);
    case StrEnd(k) => TrackTextEnd(s, m, pend, b, k);
  }
}
