/**
 The way a stream is cut into tokens depends on the stream alone, not on how it was cut into calls:
 complete tokens form a prefix code. And what the wrapper adds reads back as what it meant.
 */
module Framing {
  import opened Bytes
  import opened Scanner
  import opened Tokens
  import opened Rewriting

  // --- no two framings of one stream ---------------------------------------------------------------

  predicate IsString(k: Kind, b: Bytes) {
    || BellString(k, b, if |b| >= 3 then Capped(Clean(b[2..|b| - 1])) else [])
    || EscString(k, b, if |b| >= 4 then Capped(Clean(b[2..|b| - 2])) else [])
  }

  /** A complete token other than an abandoned character. */
  predicate Whole(b: Bytes) {
    IsRune(b) || IsStray(b) || IsEscape(b) || IsCsi(b) || IsString(OSC, b) || IsString(DCS, b) || IsString(APC, b)
  }

  predicate Terminator(k: Kind, term: Bytes) {
    (k == OSC && term == [BEL]) || term == [ESC, BACKSLASH]
  }

  /** No text of a control string runs past a terminator. */
  lemma TextStops(k: Kind, raw: Bytes, term: Bytes, more: Bytes)
    requires Body(k, raw) && Terminator(k, term)
    ensures !Body(k, raw + (term + more))
    ensures !Body(k, raw + [ESC])
  {
    BodyGrows(k, raw, term + more);
    assert (term + more)[0] == term[0];
    assert term == [ESC, BACKSLASH] ==> (term + more)[1] == BACKSLASH;
    BodyGrows(k, raw, [ESC]);
  }

  /** Two texts that begin the same string and are followed by a terminator or by nothing yet. */
  lemma SameText(k: Kind, x: Bytes, raw: Bytes, term: Bytes, more: Bytes, raw2: Bytes, tail: Bytes)
    requires Body(k, raw) && Terminator(k, term) && x == raw + (term + more)
    requires Body(k, raw2) && x == raw2 + tail
    requires Terminator(k, tail) || tail == [ESC] || tail == []
    ensures more == [] && Terminator(k, tail)
  {
    var n, m := |raw|, |raw2|;
    if m >= n + |term| {
      var y := raw2[n + |term|..];
      assert raw2 == raw + (term + y) by {
        assert raw2 == x[..m];
      }
      TextStops(k, raw, term, y);
      assert false;
    }
    assert |raw2| + |tail| == |raw| + |term| + |more|;
    assert x[n] == term[0] && x[n + |term| - 1] == term[|term| - 1];
    assert tail != [] ==> x[m] == tail[0];
  }

  lemma CsiParts(v: Bytes, n: nat)
    ensures IsCsi(v) ==> v[0] == ESC && v[1] == BRACKET
    ensures IsCsi(v) && 2 <= n < |v| - 1 ==> !IsFinal(v[n])
  {
    if IsCsi(v) {
      var open := v[..|v| - 1];
      assert open[0] == v[0] && open[1] == v[1];
      assert 2 <= n < |v| - 1 ==> open[n] == v[n];
    }
  }

  /** Complete tokens form a prefix code: nothing complete or unfinished properly extends one. */
  lemma PlainStops(u: Bytes, f: Bytes, v: Bytes)
    requires IsRune(u) || IsStray(u) || IsEscape(u)
    requires v == u + f && (Whole(v) || Unfinished(v))
    ensures f == [] && !Unfinished(v)
  {
    assert v[0] == u[0];
    assert |u| > 1 ==> v[1] == u[1];
    CsiParts(v, 2);
  }

  lemma CsiStops(u: Bytes, f: Bytes, v: Bytes)
    requires IsCsi(u) && v == u + f && (Whole(v) || Unfinished(v))
    ensures f == [] && !Unfinished(v)
  {
    var n := |u| - 1;
    CsiParts(u, n);
    CsiParts(v, n);
    assert v[0] == u[0] && v[1] == u[1] && v[n] == u[n];
  }

  /** The text and the terminator of a complete string. */
  function Cut(k: Kind, b: Bytes): (r: (Bytes, Bytes))
    requires IsString(k, b)
    ensures Body(k, r.0) && Terminator(k, r.1) && b == b[..2] + (r.0 + r.1)
  {
    if k == OSC && b[|b| - 1] == BEL then (b[2..|b| - 1], [BEL]) else (b[2..|b| - 2], [ESC, BACKSLASH])
  }

  lemma StringKind(k: Kind, v: Bytes)
    requires OpensString(k, v) && (Whole(v) || Unfinished(v))
    ensures IsString(k, v) || OpenString(k, v)
    ensures Unfinished(v) ==> OpenString(k, v)
  {
    CsiParts(v, 2);
  }

  lemma CutBehind(k: Kind, u: Bytes, f: Bytes, v: Bytes)
    requires IsString(k, u) && v == u + f
    ensures v[2..] == Cut(k, u).0 + (Cut(k, u).1 + f)
  {
    var c := Cut(k, u);
    assert u[2..] == c.0 + c.1;
    assert v[2..] == u[2..] + f;
    Assoc(c.0, c.1, f);
  }

  lemma StringStops(k: Kind, u: Bytes, f: Bytes, v: Bytes)
    requires IsString(k, u) && v == u + f && (Whole(v) || Unfinished(v))
    ensures f == [] && !Unfinished(v)
  {
    var c := Cut(k, u);
    CutBehind(k, u, f, v);
    assert v[0] == u[0] && v[1] == u[1];
    StringKind(k, v);
    OpenHasNoEnd(k, v, c.0, c.1, f);
    var d := Cut(k, v);
    NothingMore(v, []);
    CutBehind(k, v, [], v);
    NothingMore(d.1, []);
    SameText(k, v[2..], c.0, c.1, f, d.0, d.1);
  }

  /** A string that is still open has not passed a terminator. */
  lemma OpenHasNoEnd(k: Kind, v: Bytes, raw: Bytes, term: Bytes, more: Bytes)
    requires Body(k, raw) && Terminator(k, term)
    requires |v| >= 2 && v[2..] == raw + (term + more)
    ensures !OpenString(k, v)
  {
    var x := v[2..];
    TextStops(k, raw, term, more);
    var init := x[..|x| - 1];
    assert x == init + [x[|x| - 1]];
    assert v[2..|v| - 1] == init;
    if Body(k, init) && x[|x| - 1] == ESC {
      SameText(k, x, raw, term, more, init, [ESC]);
    }
  }

  lemma WholeStops(u: Bytes, f: Bytes, v: Bytes)
    requires Whole(u) && v == u + f && (Whole(v) || Unfinished(v))
    ensures f == [] && !Unfinished(v)
  {
    if IsCsi(u) {
      CsiStops(u, f, v);
    } else if IsString(OSC, u) {
      StringStops(OSC, u, f, v);
    } else if IsString(DCS, u) {
      StringStops(DCS, u, f, v);
    } else if IsString(APC, u) {
      StringStops(APC, u, f, v);
    } else {
      PlainStops(u, f, v);
    }
  }

  /** A piece of the stream with what follows it: complete, or a character that `f` cuts short. */
  predicate Piece(u: Bytes, f: Bytes) {
    Whole(u) || (PartialRune(u) && f != [] && !IsContinuation(f[0]))
  }

  lemma NotShorter(u: Bytes, f: Bytes, v: Bytes, g: Bytes)
    requires u + f == v + g && Piece(u, f) && (Piece(v, g) || Unfinished(v))
    ensures |u| >= |v|
  {
    if |u| < |v| {
      var d := v[|u|..];
      assert v == u + d by {
        assert v == (v + g)[..|v|];
        assert u == (u + f)[..|u|];
      }
      assert (u + f)[|u|] == (v + g)[|u|];
      if Whole(u) {
        WholeStops(u, d, v);
      } else {
        assert v[0] == u[0];
        LeadStays(v);
      }
    }
  }

  lemma LeadStays(v: Bytes)
    requires v != [] && IsLead(v[0]) && (Whole(v) || Unfinished(v))
    ensures Continued(v)
  {
    CsiParts(v, 2);
  }

  /** The first piece of a stream is determined. */
  lemma SamePiece(u: Bytes, f: Bytes, v: Bytes, g: Bytes)
    requires u + f == v + g && Piece(u, f) && Piece(v, g)
    ensures u == v && f == g
  {
    NotShorter(u, f, v, g);
    NotShorter(v, g, u, f);
    assert u == (u + f)[..|u|] && f == (u + f)[|u|..];
    assert v == (v + g)[..|v|] && g == (v + g)[|v|..];
  }

  /** An unfinished rest holds no piece. */
  lemma RestHasNoPiece(rest: Bytes, v: Bytes, g: Bytes)
    requires rest == v + g && Piece(v, g)
    ensures rest != [] && !Unfinished(rest)
  {
    if Unfinished(rest) {
      if Whole(v) {
        WholeStops(v, g, rest);
      } else {
        assert rest + [] == rest;
        NotShorter(v, g, rest, []);
      }
    }
  }

  // --- tokens of one stream ---------------------------------------------------------------------------

  lemma {:induction false} SourceAppend(a: seq<Token>, z: seq<Token>)
    ensures Source(a + z) == Source(a) + Source(z)
    decreases |z|
  {
    if z == [] {
      assert a + z == a;
    } else {
      var z0, t := z[..|z| - 1], z[|z| - 1];
      assert a + z == (a + z0) + [t] && z == z0 + [t];
      SourceAppend(a, z0);
      SnocTokens(a + z0, t);
      SnocTokens(z0, t);
      Assoc(Source(a), Source(z0), t.bytes);
    }
  }

  lemma {:induction false} AllOkAt(width: Bytes -> nat, ts: seq<Token>, n: nat)
    requires AllOk(width, ts) && n < |ts|
    ensures TokenOk(width, ModesAfter(ts[..n]), ts[n])
    decreases |ts|
  {
    if n < |ts| - 1 {
      AllOkAt(width, ts[..|ts| - 1], n);
      assert ts[..|ts| - 1][..n] == ts[..n];
    }
  }

  /** What follows token n in the stream: the next token, or the unframed rest. */
  function After(ts: seq<Token>, pend: Bytes, n: nat): Bytes
    requires n < |ts|
  {
    if n + 1 < |ts| then ts[n + 1].bytes else pend
  }

  lemma {:induction false} ChainedAt(ts: seq<Token>, pend: Bytes, n: nat)
    requires Chained(ts, pend) && n < |ts|
    ensures Cuts(ts[n], After(ts, pend, n))
    decreases |ts|
  {
    if n < |ts| - 1 {
      ChainedAt(ts[..|ts| - 1], ts[|ts| - 1].bytes, n);
    }
  }

  predicate Uninterrupted(ts: seq<Token>) {
    forall i :: 0 <= i < |ts| ==> !ts[i].Interrupted?
  }

  lemma TokenIsPiece(width: Bytes -> nat, m: Modes, t: Token, f: Bytes)
    requires TokenOk(width, m, t) && !t.Interrupted? && Cuts(t, f)
    ensures Piece(t.bytes, f) && t.bytes != []
  {
  }

  lemma SourceAround(ts: seq<Token>, n: nat)
    requires n < |ts|
    ensures Source(ts) == (Source(ts[..n]) + ts[n].bytes) + Source(ts[n + 1..])
  {
    var front, rest := ts[..n] + [ts[n]], ts[n + 1..];
    Around(ts, n);
    SourceAppend(front, rest);
    SnocTokens(ts[..n], ts[n]);
  }

  lemma SourceStarts(ts: seq<Token>, pend: Bytes)
    requires ts != [] && ts[0].bytes != []
    ensures Source(ts) + pend != [] && (Source(ts) + pend)[0] == ts[0].bytes[0]
  {
    SourceAround(ts, 0);
    assert Source(ts[..0]) == [];
  }

  lemma FollowedBy(width: Bytes -> nat, ts: seq<Token>, pend: Bytes, n: nat)
    requires AllOk(width, ts) && Chained(ts, pend) && Uninterrupted(ts) && n < |ts|
    ensures Cuts(ts[n], Source(ts[n + 1..]) + pend)
  {
    ChainedAt(ts, pend, n);
    if n + 1 < |ts| {
      AllOkAt(width, ts, n + 1);
      ChainedAt(ts, pend, n + 1);
      TokenIsPiece(width, ModesAfter(ts[..n + 1]), ts[n + 1], After(ts, pend, n + 1));
      SourceStarts(ts[n + 1..], pend);
    } else {
      assert Source(ts[n + 1..]) + pend == pend;
    }
  }

  /** Token n of a trace is a piece of the stream, followed by everything behind it. */
  lemma PieceAt(width: Bytes -> nat, ts: seq<Token>, pend: Bytes, n: nat)
    requires AllOk(width, ts) && Chained(ts, pend) && Uninterrupted(ts) && n < |ts|
    ensures var f := Source(ts[n + 1..]) + pend;
            Piece(ts[n].bytes, f) && Source(ts) + pend == Source(ts[..n]) + (ts[n].bytes + f)
  {
    AllOkAt(width, ts, n);
    FollowedBy(width, ts, pend, n);
    TokenIsPiece(width, ModesAfter(ts[..n]), ts[n], Source(ts[n + 1..]) + pend);
    SourceAround(ts, n);
    Regrouped(Source(ts[..n]), ts[n].bytes, Source(ts[n + 1..]), pend);
  }

  lemma Regrouped(a: Bytes, b: Bytes, c: Bytes, d: Bytes)
    ensures ((a + b) + c) + d == a + (b + (c + d))
  {
  }

  /** Equal up to what the wrapper added or held back. */
  predicate Alike(t: Token, u: Token) {
    && t.bytes == u.bytes
    && (t.Char? <==> u.Char?) && (t.Plain? <==> u.Plain?) && (t.Abandoned? <==> u.Abandoned?)
    && (t.Spliced? <==> u.Spliced?) && (t.Spliced? ==> t.repl == u.repl)
    && (t.Control? <==> u.Control?) && (t.Control? ==> t.kind == u.kind && t.payload == u.payload)
  }

  lemma SameBytesAlike(width: Bytes -> nat, m: Modes, t: Token, u: Token)
    requires TokenOk(width, m, t) && TokenOk(width, m, u) && t.bytes == u.bytes
    requires !t.Interrupted? && !u.Interrupted?
    ensures Alike(t, u) && Note(m, t) == Note(m, u)
  {
    CsiParts(t.bytes, 2);
  }

  ghost predicate Framed(width: Bytes -> nat, tr: Trace) {
    AllOk(width, tr.tokens) && Chained(tr.tokens, tr.pend) && Uninterrupted(tr.tokens)
  }

  predicate SameFront(a: Trace, b: Trace, n: nat) {
    && n <= |a.tokens| && n <= |b.tokens|
    && Source(a.tokens[..n]) == Source(b.tokens[..n])
    && ModesAfter(a.tokens[..n]) == ModesAfter(b.tokens[..n])
  }

  lemma SameNextBytes(width: Bytes -> nat, a: Trace, b: Trace, k: nat)
    requires Framed(width, a) && Framed(width, b)
    requires Source(a.tokens) + a.pend == Source(b.tokens) + b.pend
    requires SameFront(a, b, k) && k < |a.tokens| && k < |b.tokens|
    ensures a.tokens[k].bytes == b.tokens[k].bytes
  {
    var f, g := Source(a.tokens[k + 1..]) + a.pend, Source(b.tokens[k + 1..]) + b.pend;
    PieceAt(width, a.tokens, a.pend, k);
    PieceAt(width, b.tokens, b.pend, k);
    SameTail(Source(a.tokens[..k]), a.tokens[k].bytes + f, b.tokens[k].bytes + g);
    SamePiece(a.tokens[k].bytes, f, b.tokens[k].bytes, g);
  }

  lemma SameNext(width: Bytes -> nat, a: Trace, b: Trace, k: nat)
    requires AllOk(width, a.tokens) && AllOk(width, b.tokens)
    requires SameFront(a, b, k) && k < |a.tokens| && k < |b.tokens|
    requires a.tokens[k].bytes == b.tokens[k].bytes && !a.tokens[k].Interrupted? && !b.tokens[k].Interrupted?
    ensures Alike(a.tokens[k], b.tokens[k]) && SameFront(a, b, k + 1)
  {
    var t, u := a.tokens[k], b.tokens[k];
    AllOkAt(width, a.tokens, k);
    AllOkAt(width, b.tokens, k);
    SameBytesAlike(width, ModesAfter(a.tokens[..k]), t, u);
    Around(a.tokens, k);
    Around(b.tokens, k);
    SnocTokens(a.tokens[..k], t);
    SnocTokens(b.tokens[..k], u);
  }

  lemma {:induction false} SameUpTo(width: Bytes -> nat, a: Trace, b: Trace, n: nat)
    requires Framed(width, a) && Framed(width, b)
    requires Source(a.tokens) + a.pend == Source(b.tokens) + b.pend
    requires n <= |a.tokens| && n <= |b.tokens|
    ensures SameFront(a, b, n)
  {
    if n > 0 {
      SameUpTo(width, a, b, n - 1);
      SameNextBytes(width, a, b, n - 1);
      SameNext(width, a, b, n - 1);
    }
  }

  lemma SameTail(a: Bytes, x: Bytes, y: Bytes)
    requires a + x == a + y
    ensures x == y
  {
    assert x == (a + x)[|a|..] && y == (a + y)[|a|..];
  }

  lemma NoMoreTokens(width: Bytes -> nat, s: Scanner, a: Trace, b: Trace)
    requires Framed(width, a) && Framed(width, b) && Holds(s, a.pend)
    requires Source(a.tokens) + a.pend == Source(b.tokens) + b.pend
    ensures |a.tokens| >= |b.tokens|
  {
    var n := |a.tokens|;
    if n < |b.tokens| {
      SameUpTo(width, a, b, n);
      assert a.tokens[..n] == a.tokens;
      PieceAt(width, b.tokens, b.pend, n);
      var u, g := b.tokens[n].bytes, Source(b.tokens[n + 1..]) + b.pend;
      SameTail(Source(a.tokens), a.pend, u + g);
      RestHasNoPiece(a.pend, u, g);
      RestIsUnfinished(s, a.pend);
    }
  }

  /**
   However one stream is cut into calls of Write, and wherever the cursor was, it is framed in the
   same way: the same tokens with the same payloads and replacements, and the same unframed rest.
   */
  lemma FramingIsUnique(width: Bytes -> nat, s1: Scanner, a: Trace, sent1: Bytes, s2: Scanner, b: Trace, sent2: Bytes)
    requires Explains(width, s1, a, sent1) && Chained(a.tokens, a.pend) && Uninterrupted(a.tokens)
    requires Explains(width, s2, b, sent2) && Chained(b.tokens, b.pend) && Uninterrupted(b.tokens)
    requires a.stream == b.stream
    ensures |a.tokens| == |b.tokens| && a.pend == b.pend
    ensures forall i :: 0 <= i < |a.tokens| ==> Alike(a.tokens[i], b.tokens[i])
    ensures s1.insertMode == s2.insertMode && s1.lastRune == s2.lastRune && s1.replacement == s2.replacement
  {
    NoMoreTokens(width, s1, a, b);
    NoMoreTokens(width, s2, b, a);
    var n := |a.tokens|;
    forall i | 0 <= i < n
      ensures Alike(a.tokens[i], b.tokens[i])
    {
      SameUpTo(width, a, b, i);
      SameNextBytes(width, a, b, i);
      SameNext(width, a, b, i);
    }
    SameUpTo(width, a, b, n);
    assert a.tokens[..n] == a.tokens && b.tokens[..n] == b.tokens;
    SameTail(Source(a.tokens), a.pend, b.pend);
  }

  // --- characters are those of UTF-8 ---------------------------------------------------------------------

  function InByte(n: int): byte
    requires 0 <= n < 256
  {
    n
  }

  /** The encoding of a code point (section 3 of RFC 3629). */
  function Utf8(c: nat): (b: Bytes)
    requires c < 0x110000
    ensures b != []
  {
    if c < 0x80 then [InByte(c)]
    else if c < 0x800 then [InByte(0xc0 + c / 64), InByte(0x80 + c % 64)]
    else if c < 0x10000 then [InByte(0xe0 + c / 4096), InByte(0x80 + c / 64 % 64), InByte(0x80 + c % 64)]
    else [InByte(0xf0 + c / 262144), InByte(0x80 + c / 4096 % 64), InByte(0x80 + c / 64 % 64), InByte(0x80 + c % 64)]
  }

  /** Every encoded code point but ESC is one character to the scanner. */
  lemma Utf8IsRune(c: nat)
    requires c < 0x110000 && c != 0x1b
    ensures IsRune(Utf8(c))
  {
  }

  predicate Leads(c: nat, b: byte) {
    0x80 <= c < 0x110000 && Utf8(c)[0] == b
  }

  predicate Trails(c: nat, b: byte) {
    0x80 <= c < 0x110000 && Utf8(c)[|Utf8(c)| - 1] == b
  }

  /** And no byte starts or continues a character unless it does so in some encoding. */
  lemma BytesAreUtf8(b: byte)
    ensures IsLead(b) <==> exists c: nat :: Leads(c, b)
    ensures IsContinuation(b) <==> exists c: nat :: Trails(c, b)
  {
    if IsLead(b) {
      var c: nat := LeastLed(b);
      assert Leads(c, b);
    }
    if IsContinuation(b) {
      var c: nat := 0x80 + (b as int - 0x80);
      assert Trails(c, b);
    }
  }

  /** The smallest code point whose encoding a lead byte starts. */
  function LeastLed(b: byte): nat
    requires IsLead(b)
  {
    var n := b as int;
    if n <= 0xdf then (n - 0xc0) * 64
    else if n == 0xe0 then 0x800
    else if n <= 0xef then (n - 0xe0) * 4096
    else if n == 0xf0 then 0x10000
    else (n - 0xf0) * 262144
  }

  // --- what the wrapper adds ----------------------------------------------------------------------------

  predicate IsDecimal(b: Bytes) {
    forall i :: 0 <= i < |b| ==> 0x30 <= b[i] <= 0x39
  }

  lemma {:induction false} ValueOfFront(d: Bytes, more: Bytes, n: nat)
    requires n <= |d|
    ensures ValueOf(d + more, n) == ValueOf(d, n)
    decreases n
  {
    if n > 0 {
      ValueOfFront(d, more, n - 1);
    }
  }

  /** Writing a number out and reading it back gives the number. */
  lemma {:induction false} DecimalRoundTrip(n: nat)
    ensures IsDecimal(Decimal(n)) && Decimal(n) != [] && Value(Decimal(n)) == n
  {
    if n >= 10 {
      var d, z := Decimal(n / 10), [DecimalDigit(n % 10)];
      DecimalRoundTrip(n / 10);
      ValueOfFront(d, z, |d|);
      assert Decimal(n) == d + z;
      assert ValueOf(d + z, |d| + 1) == ValueOf(d + z, |d|) * 10 + Digit((d + z)[|d|]);
    } else {
      assert ValueOf(Decimal(n), 1) == Digit(Decimal(n)[0]);
    }
  }

  lemma {:induction false} ParamBytesKeeps(b: Bytes)
    requires forall i :: 0 <= i < |b| ==> IsParam(b[i])
    ensures ParamBytes(b) == b
  {
    if b != [] {
      ParamBytesKeeps(b[..|b| - 1]);
    }
  }

  lemma OneParam(n: nat)
    requires n < 0x8000_0000_0000_0000
    ensures Params(Decimal(n)) == [n]
  {
    DecimalRoundTrip(n);
    OneNumber(Decimal(n));
  }

  lemma Command(params: Bytes, final: byte)
    requires (forall i :: 0 <= i < |params| ==> IsParam(params[i])) && IsFinal(final)
    ensures IsCsi(([ESC, BRACKET] + params) + [final]) && ParamBytes(params) == params
  {
    var open: Bytes := [ESC, BRACKET] + params;
    assert (open + [final])[..|open|] == open;
    assert CsiOpen(open);
    ParamBytesKeeps(params);
  }

  /** Each command the wrapper sends is one control sequence that says what it was meant to say. */
  lemma BlanksCommand(n: nat)
    requires n < 0x8000_0000_0000_0000
    ensures IsCsi(InsertBlanks(n)) && Params(ParamBytes(Decimal(n))) == [n]
  {
    DecimalRoundTrip(n);
    Command(Decimal(n), 0x40);
    OneParam(n);
  }

  lemma MoveCommand(row: nat, col: nat)
    requires row + 1 < 0x8000_0000_0000_0000 && col + 1 < 0x8000_0000_0000_0000
    ensures var params := (Decimal(row + 1) + [0x3b]) + Decimal(col + 1);
            && IsCsi(MoveTo(row, col)) && MoveTo(row, col) == ([ESC, BRACKET] + params) + [0x48]
            && Params(ParamBytes(params)) == [row + 1, col + 1]
  {
    var r, c := Decimal(row + 1), Decimal(col + 1);
    DecimalRoundTrip(row + 1);
    DecimalRoundTrip(col + 1);
    Command((r + [0x3b]) + c, 0x48);
    TwoParams(row + 1, col + 1);
    Assoc([ESC, BRACKET] + r, [0x3b], c);
    Assoc([ESC, BRACKET], r, [0x3b] + c);
    Assoc(r, [0x3b], c);
  }

  // --- what the grammar means in bytes ------------------------------------------------------------

  /** Pieces with a separator between each two. */
  function Joined(ds: seq<Bytes>, seps: Bytes): Bytes
    requires ds != [] && |seps| == |ds| - 1
  {
    if |ds| == 1 then ds[0] else Joined(ds[..|ds| - 1], seps[..|seps| - 1]) + ([seps[|seps| - 1]] + ds[|ds| - 1])
  }

  /** Digits, possibly none, and a semicolon or a colon between each two pieces. */
  predicate Listed(ds: seq<Bytes>, seps: Bytes) {
    && ds != [] && |seps| == |ds| - 1
    && (forall i :: 0 <= i < |ds| ==> IsDecimal(ds[i]))
    && (forall i :: 0 <= i < |seps| ==> seps[i] == 0x3b || seps[i] == 0x3a)
  }

  lemma {:induction false} CutOfList(ds: seq<Bytes>, seps: Bytes)
    requires Listed(ds, seps)
    ensures CutParams(Joined(ds, seps)) == Pieces(ds[..|ds| - 1], ds[|ds| - 1])
    decreases |ds|
  {
    var n := |ds| - 1;
    if n == 0 {
      OnePiece(ds[0]);
    } else {
      CutOfList(ds[..n], seps[..n - 1]);
      NextPiece(Joined(ds[..n], seps[..n - 1]), seps[n - 1], ds[n]);
      assert ds[..n][..n - 1] + [ds[..n][n - 1]] == ds[..n];
    }
  }

  /** parseParams reads any pieces of digits with semicolons or colons between them as their numbers. */
  lemma ParamsOfList(ds: seq<Bytes>, seps: Bytes)
    requires Listed(ds, seps)
    ensures Params(Joined(ds, seps)) == Numbers(ds)
  {
    CutOfList(ds, seps);
    NumbersSnoc(ds[..|ds| - 1], ds[|ds| - 1]);
    assert ds[..|ds| - 1] + [ds[|ds| - 1]] == ds;
  }

  function Decimals(ns: seq<nat>): seq<Bytes> {
    seq(|ns|, i requires 0 <= i < |ns| => Decimal(ns[i]))
  }

  /** And what is written in decimal is read back. */
  lemma ParamsRoundTrip(ns: seq<nat>, seps: Bytes)
    requires ns != [] && |seps| == |ns| - 1
    requires forall i :: 0 <= i < |ns| ==> ns[i] < 0x8000_0000_0000_0000
    requires forall i :: 0 <= i < |seps| ==> seps[i] == 0x3b || seps[i] == 0x3a
    ensures Params(Joined(Decimals(ns), seps)) == ns
  {
    var ds := Decimals(ns);
    forall i | 0 <= i < |ns| ensures IsDecimal(ds[i]) && Number(ds[i]) == ns[i] {
      DecimalRoundTrip(ns[i]);
    }
    ParamsOfList(ds, seps);
  }

  lemma {:induction false} JoinedIsParams(ds: seq<Bytes>, seps: Bytes)
    requires Listed(ds, seps)
    ensures forall x :: x in Joined(ds, seps) ==> IsParam(x)
    decreases |ds|
  {
    if |ds| > 1 {
      JoinedIsParams(ds[..|ds| - 1], seps[..|seps| - 1]);
    }
  }

  lemma TwoParams(m: nat, n: nat)
    requires m < 0x8000_0000_0000_0000 && n < 0x8000_0000_0000_0000
    ensures Params((Decimal(m) + [0x3b]) + Decimal(n)) == [m, n]
  {
    ParamsRoundTrip([m, n], [0x3b]);
    assert Decimals([m, n]) == [Decimal(m), Decimal(n)];
    assert [Decimal(m), Decimal(n)][..1] == [Decimal(m)];
    Assoc(Decimal(m), [0x3b], Decimal(n));
  }

  /** CSI, such a list and a final byte from 0x40 to 0x7e are one control sequence with those parameters. */
  lemma SequenceIs(ds: seq<Bytes>, seps: Bytes, final: byte)
    requires Listed(ds, seps) && 0x40 <= final <= 0x7e
    ensures IsCsi(([0x1b, 0x5b] + Joined(ds, seps)) + [final]) && Params(ParamBytes(Joined(ds, seps))) == Numbers(ds)
  {
    JoinedIsParams(ds, seps);
    Command(Joined(ds, seps), final);
    ParamsOfList(ds, seps);
  }

  lemma {:induction false} PlainText(k: Kind, text: Bytes)
    requires ESC !in text && (k == OSC ==> BEL !in text)
    ensures Body(k, text) && Clean(text) == text
    decreases |text|
  {
    if text != [] {
      PlainText(k, text[1..]);
      assert [text[0]] + text[1..] == text;
    }
  }

  /** OSC, DCS and APC strings in bytes: ESC with ], P or _, a text without ESC of at most 16 MiB, and
      ESC backslash; an OSC may end in BEL instead and its text has none. The payload is the text. */
  lemma StringIs(text: Bytes)
    requires 0x1b !in text && |text| <= 16 * 1024 * 1024
    ensures IsControlString(DCS, ([0x1b, 0x50] + text) + [0x1b, 0x5c], text)
    ensures IsControlString(APC, ([0x1b, 0x5f] + text) + [0x1b, 0x5c], text)
    ensures 0x07 !in text ==>
      && IsControlString(OSC, ([0x1b, 0x5d] + text) + [0x1b, 0x5c], text)
      && IsControlString(OSC, ([0x1b, 0x5d] + text) + [0x07], text)
  {
    StringOf(DCS, 0x50, text);
    StringOf(APC, 0x5f, text);
    if 0x07 !in text {
      StringOf(OSC, 0x5d, text);
      var b: Bytes := ([0x1b, 0x5d] + text) + [0x07];
      PlainText(OSC, text);
      assert b[2..|b| - 1] == text;
      assert BellString(OSC, b, text);
    }
  }

  lemma StringOf(k: Kind, introducer: byte, text: Bytes)
    requires introducer == Introducer(k) && ESC !in text && (k == OSC ==> BEL !in text) && |text| <= BUF_LIMIT
    ensures IsControlString(k, ([ESC, introducer] + text) + [ESC, BACKSLASH], text)
  {
    var b: Bytes := ([ESC, introducer] + text) + [ESC, BACKSLASH];
    PlainText(k, text);
    assert b[2..|b| - 2] == text;
    assert EscString(k, b, text);
  }
}
