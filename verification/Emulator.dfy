/**
 The emulator wrapper (internal/capture/emulator.go, with the placement half of graphics.go). The
 terminal engine behind it is a log of the bytes it was sent and a cursor that may be anywhere on
 the screen whenever it is read.
 */
module Emulator {
  import opened Bytes
  import opened Scanner
  import opened Tokens
  import opened Rewriting
  import opened Graphics
  import opened Framing
  import opened Content

  /** U+10EEEE in UTF-8: the kitty placeholder. */
  const PLACEHOLDER: Bytes := [0xf4, 0x8e, 0xbb, 0xae]

  /** "1337;File=": how an OSC with an iTerm2 picture begins. */
  const INLINE_FILE: Bytes := [0x31, 0x33, 0x33, 0x37, 0x3b, 0x46, 0x69, 0x6c, 0x65, 0x3d]

  predicate StartsWithPlaceholder(p: Bytes) {
    |p| >= 4 && p[..4] == PLACEHOLDER
  }

  predicate ContainsPlaceholder(p: Bytes) {
    exists i :: 0 <= i <= |p| && StartsWithPlaceholder(p[i..])
  }

  /** bytes.ReplaceAll with nothing: occurrences are removed from the left, once. */
  function Strip(p: Bytes): Bytes {
    if p == [] then []
    else if StartsWithPlaceholder(p) then Strip(p[4..])
    else [p[0]] + Strip(p[1..])
  }

  lemma PlaceholderAhead(a: Bytes, b: Bytes)
    ensures StartsWithPlaceholder((a + PLACEHOLDER) + b) <==> a == [] || StartsWithPlaceholder(a)
  {
    var p := (a + PLACEHOLDER) + b;
    assert p[|a|] == 0xf4;
    if a == [] {
      assert p[..4] == PLACEHOLDER;
    } else if |a| < 4 {
      assert PLACEHOLDER[|a|] != 0xf4;
      assert p[..4][|a|] == p[|a|];
    } else {
      assert p[..4] == a[..4];
    }
  }

  /** A placeholder anywhere is taken out and what is on either side of it is stripped by itself. With the
      input that has none, which stays as it is, this determines the result. */
  lemma {:induction false} StripSplits(a: Bytes, b: Bytes)
    ensures Strip((a + PLACEHOLDER) + b) == Strip(a) + Strip(b)
    decreases |a|
  {
    var p := (a + PLACEHOLDER) + b;
    PlaceholderAhead(a, b);
    if a == [] {
      assert p[4..] == b;
    } else if StartsWithPlaceholder(a) {
      assert p[4..] == (a[4..] + PLACEHOLDER) + b;
      StripSplits(a[4..], b);
    } else {
      assert p[0] == a[0] && p[1..] == (a[1..] + PLACEHOLDER) + b;
      StripSplits(a[1..], b);
      Assoc([a[0]], Strip(a[1..]), Strip(b));
    }
  }

  /** Write reports as many bytes as it was given exactly when there was no placeholder among them. */
  lemma {:induction false} StripLength(p: Bytes)
    ensures |Strip(p)| <= |p|
    ensures |Strip(p)| == |p| <==> !ContainsPlaceholder(p)
    ensures !ContainsPlaceholder(p) ==> Strip(p) == p
    decreases |p|
  {
    if p == [] {
    } else if StartsWithPlaceholder(p) {
      StripLength(p[4..]);
      assert StartsWithPlaceholder(p[0..]) by {
        assert p[0..] == p;
      }
    } else {
      var q := p[1..];
      StripLength(q);
      forall i | 0 <= i <= |q|
        ensures q[i..] == p[i + 1..]
      {
      }
      if ContainsPlaceholder(p) {
        var i :| 0 <= i <= |p| && StartsWithPlaceholder(p[i..]);
        assert p[0..] == p;
        assert q[i - 1..] == p[i..];
      }
    }
  }

  /** ESC c. */
  const RIS_TOKEN: Token := Plain([ESC, LETTER_C])

  predicate HasReset(ts: seq<Token>, from: nat) {
    exists j :: from <= j < |ts| && ts[j] == RIS_TOKEN
  }

  lemma ResetStays(ts: seq<Token>, us: seq<Token>, from: nat)
    requires ts <= us && from <= |ts|
    ensures HasReset(ts, from) || HasReset(us, |ts|) ==> HasReset(us, from)
  {
    if HasReset(ts, from) {
      var j :| from <= j < |ts| && ts[j] == RIS_TOKEN;
      assert us[j] == RIS_TOKEN;
    }
  }

  class Emulator {
    const scanner: GfxScanner
    var cols: int
    var rows: int
    var cellW: int
    var cellH: int
    var images: seq<Asset>
    /** Every byte the terminal engine has received. */
    var sent: Bytes
    ghost var trace: Trace

    function Scr(): Screen
      reads this
    {
      Screen(cols, rows, cellW, cellH)
    }

    ghost predicate ScreenOk()
      reads this
    {
      GoodScreen(Scr()) && AllInside(Scr(), images)
    }

    /** Between calls: the trace explains every byte sent, and every clamped image is on the screen. */
    ghost predicate Valid()
      reads this, scanner
    {
      && scanner.Valid() && ScreenOk()
      && Explains(scanner.width, scanner.View(), trace, sent)
      && Chained(trace.tokens, trace.pend)
    }

    /** The same in the middle of a call of Write that still holds `run`. */
    ghost predicate Writing(run: Bytes, from: nat, start: nat)
      reads this, scanner
    {
      && scanner.Valid() && ScreenOk()
      && Midway(scanner.width, scanner.View(), trace, sent, run, from, start)
    }

    constructor (cols: int, rows: int, width: Bytes -> nat)
      ensures Valid() && fresh(scanner) && trace == EMPTY && sent == [] && images == []
      ensures this.cols == Max(1, cols) && this.rows == Max(1, rows)
    {
      scanner := new GfxScanner(width);
      this.cols, this.rows := Max(1, cols), Max(1, rows);
      cellW, cellH := 9, 18;
      images, sent, trace := [], [], EMPTY;
    }

    method Cursor() returns (x: int, y: int)
      requires GoodScreen(Scr())
      ensures OnScreen(Scr(), y, x)
    {
      x :| 0 <= x < cols;
      y :| 0 <= y < rows;
    }

    /** moveCursorTo: any position is pulled to the nearest one on the screen, and one that is there
        already is taken as it is. */
    method MoveCursorTo(row: int, col: int)
      requires GoodScreen(Scr())
      modifies this`sent
      ensures OnScreen(Scr(), Nearest(row, rows), Nearest(col, cols))
      ensures sent == old(sent) + MoveTo(Nearest(row, rows), Nearest(col, cols))
      ensures OnScreen(Scr(), row, col) ==> sent == old(sent) + MoveTo(row, col)
    {
      var r, c := Min(Max(0, row), rows - 1), Min(Max(0, col), cols - 1);
      sent := sent + MoveTo(r, c);
    }

    /** addImage: the picture is always kept, clamped to the screen, and the cursor moves past it. */
    method AddImage(w: nat, h: nat, c: Bytes, r: Bytes) returns (ghost x: int, ghost y: int)
      requires ScreenOk()
      modifies this`images, this`sent
      ensures ScreenOk()
      ensures |images| == |old(images)| + 1 && images[..|old(images)|] == old(images)
      ensures var a := images[|old(images)|];
              var cells := KittyCells(Scr(), w, h, KeyNumber(c), KeyNumber(r));
              && OnScreen(Scr(), y, x) && a.proto == Kitty && a.col == x && a.row == y && a.width == w && a.height == h
              && a.cellCols == Min(cols - x, cells.0) && a.cellRows == Min(rows - y, cells.1)
              && OnScreen(Scr(), CursorAfter(Scr(), a).0, CursorAfter(Scr(), a).1)
              && sent == old(sent) + MoveTo(CursorAfter(Scr(), a).0, CursorAfter(Scr(), a).1)
    {
      var curX, curY := Cursor();
      x, y := curX, curY;
      var keyCols := Atoi(c);
      var keyRows := Atoi(r);
      var cells := KittyCells(Scr(), w, h, keyCols, keyRows);
      var a := Clamped(Scr(), Kitty, curX, curY, cells, w, h);
      images := images + [a];
      var p := CursorAfter(Scr(), a);
      MoveCursorTo(p.0, p.1);
    }

    /** The sides of a picture that some decoder may have produced. */
    method Decoded() returns (img: Option<(nat, nat)>) {
      img := *;
    }

    /** A kitty transmission: ignored, still incomplete, undecodable, or placed. */
    method HandleAPC(payload: Bytes) returns (ghost after: Bytes)
      requires ScreenOk()
      modifies this`images, this`sent
      ensures ScreenOk() && sent == old(sent) + after && old(images) <= images
      ensures after == [] || IsCursorMove(after)
      ensures payload == [] || payload[0] != 0x47 ==> images == old(images) && after == []
    {
      after := [];
      if payload == [] || payload[0] != 0x47 {
        return;
      }
      var img := Decoded();
      if img.Some? {
        var c: Bytes := *;
        var r: Bytes := *;
        ghost var x, y;
        x, y := AddImage(img.value.0, img.value.1, c, r);
        ghost var p := CursorAfter(Scr(), images[|images| - 1]);
        after := MoveTo(p.0, p.1);
      }
    }

    /** Sixel data needs a q; a decoded picture is kept, clamped to the screen. */
    method HandleDCS(payload: Bytes)
      requires ScreenOk()
      modifies this`images
      ensures ScreenOk() && old(images) <= images
      ensures 0x71 !in payload ==> images == old(images)
    {
      if 0x71 !in payload {
        return;
      }
      var img := Decoded();
      if img.Some? {
        ghost var x, y;
        x, y := AddSixel(img.value.0, img.value.1);
      }
    }

    /** The placement half of handleDCS: the cursor stays where it is. */
    method AddSixel(w: nat, h: nat) returns (ghost x: int, ghost y: int)
      requires ScreenOk()
      modifies this`images
      ensures ScreenOk()
      ensures |images| == |old(images)| + 1 && images[..|old(images)|] == old(images)
      ensures var a := images[|old(images)|];
              var cells := SixelCells(Scr(), w, h);
              && OnScreen(Scr(), y, x) && a.proto == Sixel && a.col == x && a.row == y && a.width == w && a.height == h
              && a.cellCols == Min(cols - x, cells.0) && a.cellRows == Min(rows - y, cells.1)
    {
      var curX, curY := Cursor();
      x, y := curX, curY;
      images := images + [Clamped(Scr(), Sixel, curX, curY, SixelCells(Scr(), w, h), w, h)];
    }

    /** An iTerm2 picture takes one row and an unclamped number of columns. */
    method HandleOSC(payload: Bytes)
      requires ScreenOk()
      modifies this`images
      ensures ScreenOk() && old(images) <= images
      ensures !(INLINE_FILE <= payload) ==> images == old(images)
    {
      if !(INLINE_FILE <= payload) {
        return;
      }
      var img := Decoded();
      if img.Some? {
        var x, y := Cursor();
        var n: nat := *;
        images := images + [Asset(ITerm2, y, x, Max(1, n), 1, img.value.0, img.value.1)];
      }
    }

    method Handle(k: Kind, payload: Bytes) returns (ghost after: Bytes)
      requires ScreenOk()
      modifies this`images, this`sent
      ensures ScreenOk() && sent == old(sent) + after && old(images) <= images
      ensures after == [] || (k == APC && IsCursorMove(after))
    {
      after := [];
      match k
      case OSC => HandleOSC(payload);
      case DCS => HandleDCS(payload);
      case APC => after := HandleAPC(payload);
    }

    /** A wide character that does not fit in the row is preceded by a line break; `room` is what the
        row had left at the cursor. */
    method BreakLine(run: Bytes, w: nat) returns (rest: Bytes, ghost inject: Bytes, ghost room: nat)
      requires GoodScreen(Scr())
      modifies this`sent
      ensures inject == (if w > 1 && w > room then CRLF else []) && (w > 1 ==> room >= 1)
      ensures sent + rest == (old(sent) + run) + inject
      ensures old(sent) <= sent
    {
      rest, inject, room := run, [], 0;
      if w > 1 {
        sent, rest := sent + run, [];
        var x, _ := Cursor();
        room := cols - x;
        if x + w > cols {
          sent := sent + CRLF;
          inject := CRLF;
        }
      }
    }

    /** In insert mode a character is preceded by as many blanks as it is wide. */
    method MakeRoom(run: Bytes, w: nat) returns (rest: Bytes, ghost inject: Bytes)
      modifies this`sent
      ensures inject == if scanner.insertMode && w > 0 then InsertBlanks(w) else []
      ensures sent + rest == (old(sent) + run) + inject
      ensures old(sent) <= sent
    {
      rest, inject := run, [];
      if scanner.insertMode && w > 0 {
        sent, rest := sent + run, [];
        sent := sent + InsertBlanks(w);
        inject := InsertBlanks(w);
      }
    }

    /** A completed character: wide ones may need a line break, insert mode needs blanks first. */
    method ShowRune(run: Bytes) returns (rest: Bytes, ghost inject: Bytes, ghost room: nat)
      requires scanner.Valid() && GoodScreen(Scr()) && scanner.runeLen <= 4
      requires scanner.w == RuneWidth(scanner.width, scanner.runeBuf[..scanner.runeLen])
      modifies this`sent
      ensures InjectOk(scanner.width, Modes(scanner.insertMode, [], []), scanner.runeBuf[..scanner.runeLen], inject, room)
      ensures sent + rest == ((old(sent) + run) + inject) + scanner.runeBuf[..scanner.runeLen]
      ensures old(sent) <= sent
    {
      var r := scanner.runeBuf[..scanner.runeLen];
      ghost var sent0, crlf, blanks := sent, [], [];
      rest, crlf, room := BreakLine(run, scanner.w);
      rest, blanks := MakeRoom(rest, scanner.w);
      inject := crlf + blanks;
      Assoc(sent0 + run, crlf, blanks);
      Assoc(sent, rest, r);
      rest := rest + r;
    }

    /** What one byte's event must find: the scanner has taken b, the trace has not. */
    ghost predicate Taken(b: byte, run: Bytes, from: nat, start: nat, s: Scanner, tr: Trace, e: Event)
      reads this, scanner
    {
      && scanner.Valid() && ScreenOk()
      && Ready(scanner.width, s, tr, sent, run, from, start, b)
      && Advance(s, b) == (scanner.View(), e)
    }

    method OnRune(b: byte, run: Bytes, ghost from: nat, ghost start: nat, ghost s: Scanner, ghost tr: Trace, ghost e: Event)
      returns (rest: Bytes)
      requires Taken(b, run, from, start, s, tr, e) && scanner.Reports(RuneSeen, e)
      modifies this`sent, this`trace
      ensures Writing(rest, from, start) && old(sent) <= sent
      ensures Follows(tr, trace, b)
    {
      ghost var sent0, s2 := sent, scanner.View();
      ghost var inject, room;
      ghost var wd := scanner.width;
      assert Ready(wd, s, tr, sent0, run, from, start, b) && Advance(s, b) == (s2, e);
      CharFacts(s, ModesAfter(tr.tokens), tr.pend, b, s2, e.bytes);
      rest, inject, room := ShowRune(run);
      trace := RuneStep(wd, s, tr, sent0, run, from, start, b, s2, e.bytes, inject, room, sent, rest);
    }

    method OnReplaced(b: byte, run: Bytes, ghost from: nat, ghost start: nat, ghost s: Scanner, ghost tr: Trace)
      returns (rest: Bytes)
      requires Taken(b, run, from, start, s, tr, Replaced(scanner.replacement))
      modifies this`trace
      ensures Writing(rest, from, start)
      ensures Follows(tr, trace, b)
    {
      ghost var s2 := scanner.View();
      SpliceFacts(s, ModesAfter(tr.tokens), tr.pend, b, s2, scanner.replacement);
      var cut := scanner.csiLen - 1;
      if cut > |run| {
        cut := |run|;
      }
      rest := run[..|run| - cut] + scanner.replacement;
      trace := ReplacedStep(scanner.width, s, tr, sent, run, from, start, b, s2, scanner.replacement, cut);
    }

    method FlushAndHandle(b: byte, k: Kind, run: Bytes) returns (ghost after: Bytes)
      requires ScreenOk() && scanner.Valid()
      modifies this`sent, this`images, scanner`payload
      ensures scanner.Valid() && scanner.View() == old(scanner.View())
      ensures ScreenOk() && sent == (old(sent) + (run + [b])) + after && old(images) <= images
      ensures after == [] || (k == APC && IsCursorMove(after))
    {
      sent := sent + (run + [b]);
      after := Handle(k, scanner.payload);
      scanner.ClearPayload();
    }

    method OnString(b: byte, k: Kind, run: Bytes, ghost from: nat, ghost start: nat, ghost s: Scanner, ghost tr: Trace)
      returns (rest: Bytes)
      requires Taken(b, run, from, start, s, tr, Payload(k, scanner.payload))
      modifies this`sent, this`images, this`trace, scanner`payload
      ensures Writing(rest, from, start) && old(sent) <= sent && old(images) <= images
      ensures Follows(tr, trace, b)
    {
      ghost var sent0, s2, p := sent, scanner.View(), scanner.payload;
      ghost var wd := scanner.width;
      assert Ready(wd, s, tr, sent0, run, from, start, b) && Advance(s, b) == (s2, Payload(k, p));
      ghost var after := FlushAndHandle(b, k, run);
      rest := [];
      trace := StringStep(wd, s, tr, sent0, run, from, start, b, s2, k, p, after, sent);
    }

    method OnQuiet(b: byte, run: Bytes, ghost from: nat, ghost start: nat, ghost s: Scanner, ghost tr: Trace, ghost e: Event)
      returns (rest: Bytes)
      requires Taken(b, run, from, start, s, tr, e) && (e.Quiet? || e.Ris?)
      modifies this`trace
      ensures Writing(rest, from, start)
      ensures Follows(tr, trace, b)
      ensures e.Ris? ==> HasReset(trace.tokens, |tr.tokens|)
    {
      ghost var s2 := scanner.View();
      rest := run;
      if scanner.state != UTF8 {
        rest := run + [b];
      }
      trace := NoEventStep(scanner.width, s, tr, sent, run, from, start, b, s2, e);
      assert e.Ris? ==> trace.tokens[|tr.tokens|] == RIS_TOKEN;
    }

    /** The scanner takes the byte; a reset it sees drops the images. */
    method Take(b: byte, run: Bytes, ghost from: nat, ghost start: nat)
      returns (ev: Report, ghost s: Scanner, ghost tr: Trace, ghost e: Event)
      requires Writing(run, from, start)
      modifies this`images, scanner
      ensures Taken(b, run, from, start, s, tr, e) && scanner.Reports(ev, e)
      ensures tr.stream == trace.stream && trace.tokens <= tr.tokens
      ensures images == if e.Ris? then [] else old(images)
    {
      ghost var s0 := scanner.View();
      s, tr, e := Grounded(s0, b), Dropped(s0, trace, b), Advance(s0, b).1;
      Prepare(scanner.width, s0, trace, sent, run, from, start, b);
      var ris;
      ev, ris := scanner.Step(b);
      if ris {
        images := [];
      }
    }

    /** Between calls, while no sequence was replaced or interrupted: the engine holds the stream with
        known additions, less partial characters cut short and the character being collected. */
    lemma ContentIsPreserved() returns (kept: Bytes)
      requires Valid() && Uninterrupted(trace.tokens) && NoSpliceFinals(trace.tokens)
      ensures Adorned(kept, sent) && Thinned(trace.stream, kept + Held(trace.pend), [])
      ensures (forall i :: 0 <= i < |trace.tokens| ==> !trace.tokens[i].Abandoned?) ==>
                kept + Held(trace.pend) == trace.stream
    {
      kept := ContentPreserved(scanner.width, scanner.View(), trace, sent);
    }

    /** What Write does with one event of the scanner. */
    method OnEvent(ev: Report, b: byte, run: Bytes, ghost from: nat, ghost start: nat, ghost s: Scanner, ghost tr: Trace, ghost e: Event)
      returns (rest: Bytes)
      requires Taken(b, run, from, start, s, tr, e) && scanner.Reports(ev, e)
      modifies this`images, this`sent, this`trace, scanner`payload
      ensures Writing(rest, from, start) && Follows(tr, trace, b)
      ensures old(sent) <= sent && old(images) <= images
      ensures e.Ris? ==> HasReset(trace.tokens, |tr.tokens|)
    {
      match ev
      case RuneSeen => rest := OnRune(b, run, from, start, s, tr, e);
      case SequenceReplaced => rest := OnReplaced(b, run, from, start, s, tr);
      case StringSeen(k) => rest := OnString(b, k, run, from, start, s, tr);
      case NoEvent => rest := OnQuiet(b, run, from, start, s, tr, e);
    }

    /** The body of the loop in Write: one byte of output. */
    method Feed(b: byte, run: Bytes, ghost from: nat, ghost start: nat) returns (rest: Bytes)
      requires Writing(run, from, start)
      modifies this`images, this`sent, this`trace, scanner
      ensures Writing(rest, from, start)
      ensures trace.stream == old(trace.stream) + [b]
      ensures old(trace.tokens) <= trace.tokens && old(sent) <= sent
      ensures old(images) <= images || HasReset(trace.tokens, |old(trace.tokens)|)
    {
      var ev, s, tr, e := Take(b, run, from, start);
      rest := OnEvent(ev, b, run, from, start, s, tr, e);
      ResetStays(tr.tokens, trace.tokens, |old(trace.tokens)|);
    }

    method FeedAll(q: Bytes, ghost from: nat, ghost start: nat) returns (run: Bytes)
      requires Writing([], from, start)
      modifies this`images, this`sent, this`trace, scanner
      ensures Writing(run, from, start)
      ensures trace.stream == old(trace.stream) + q
      ensures old(trace.tokens) <= trace.tokens && old(sent) <= sent
      ensures old(images) <= images || HasReset(trace.tokens, |old(trace.tokens)|)
    {
      run := [];
      var i := 0;
      while i < |q|
        invariant 0 <= i <= |q| && Writing(run, from, start)
        invariant trace.stream == old(trace.stream) + q[..i]
        invariant old(trace.tokens) <= trace.tokens && old(sent) <= sent
        invariant old(images) <= images || HasReset(trace.tokens, |old(trace.tokens)|)
      {
        ghost var before := trace.tokens;
        run := Feed(q[i], run, from, start);
        ResetStays(before, trace.tokens, |old(trace.tokens)|);
        Assoc(old(trace.stream), q[..i], [q[i]]);
        Around(q, i);
        i := i + 1;
      }
      assert q[..i] == q;
    }

    /** One call with any bytes: the trace grows by exactly the stripped input, earlier tokens stay,
        and a control sequence replaced in this call loses exactly the bytes that came with it. */
    method Write(p: Bytes) returns (n: nat)
      requires Valid()
      modifies this`images, this`sent, this`trace, scanner
      ensures Valid()
      ensures n == |Strip(p)| && trace.stream == old(trace.stream) + Strip(p)
      ensures old(trace.tokens) <= trace.tokens && old(sent) <= sent
      ensures FramedByCall(trace.tokens, |old(trace.tokens)|, |old(trace.stream)|)
      ensures old(images) <= images || HasReset(trace.tokens, |old(trace.tokens)|)
    {
      if |p| == 0 {
        return 0;
      }
      var q := Strip(p);
      CallBegins(scanner.width, scanner.View(), trace, sent);
      var run := FeedAll(q, |trace.tokens|, |trace.stream|);
      sent := sent + run;
      return |q|;
    }

    /** A change of size drops the images and the scanner's state; the same size changes nothing. */
    method Resize(newCols: int, newRows: int)
      requires Valid()
      modifies this`cols, this`rows, this`images, this`trace, scanner
      ensures Valid() && cols == Max(1, newCols) && rows == Max(1, newRows)
      ensures trace.stream == old(trace.stream) && old(trace.tokens) <= trace.tokens
      ensures if cols == old(cols) && rows == old(rows) then images == old(images) && trace == old(trace)
              else images == [] && trace.pend == [] && scanner.View() == RESET
    {
      var c, r := Max(1, newCols), Max(1, newRows);
      if c == cols && r == rows {
        return;
      }
      InterruptKeepsTrace(scanner.width, scanner.View(), trace, sent);
      cols, rows := c, r;
      images := [];
      scanner.Reset();
      trace := trace.(tokens := trace.tokens + [Interrupted(trace.pend)], pend := []);
    }
  }
}
