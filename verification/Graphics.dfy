/**
 Image placement and raw pixel data (internal/capture/graphics.go). Pictures are decoded
 elsewhere; here only their sizes, their place on the character grid and the pixels of the two
 raw formats matter.
 */
module Graphics {
  import opened Bytes
  import opened Scanner

  datatype Protocol = Kitty | Sixel | ITerm2

  datatype Asset = Asset(proto: Protocol, row: int, col: int, cellCols: int, cellRows: int, width: int, height: int)

  /** The grid and the pixel size of one cell. */
  datatype Screen = Screen(cols: int, rows: int, cellW: int, cellH: int)

  predicate GoodScreen(scr: Screen) {
    scr.cols >= 1 && scr.rows >= 1
  }

  predicate OnScreen(scr: Screen, row: int, col: int) {
    0 <= row < scr.rows && 0 <= col < scr.cols
  }

  /** The asset covers at least one cell and none outside the grid. */
  predicate Inside(scr: Screen, a: Asset) {
    && OnScreen(scr, a.row, a.col)
    && 1 <= a.cellCols && a.col + a.cellCols <= scr.cols
    && 1 <= a.cellRows && a.row + a.cellRows <= scr.rows
  }

  /** iTerm2 assets are not clamped by the source and are left out of the claim. */
  predicate AllInside(scr: Screen, assets: seq<Asset>) {
    forall i :: 0 <= i < |assets| ==> assets[i].proto == ITerm2 || Inside(scr, assets[i])
  }

  function Min(a: int, b: int): int {
    if a < b then a else b
  }

  function Max(a: int, b: int): int {
    if a > b then a else b
  }

  /** The point of 0 .. n - 1 nearest to x. */
  function Nearest(x: int, n: int): (r: int)
    requires n >= 1
    ensures 0 <= r < n
    ensures 0 <= x < n ==> r == x
    ensures x < 0 ==> r == 0
    ensures x >= n ==> r == n - 1
  {
    if x < 0 then 0 else if x >= n then n - 1 else x
  }

  // --- numbers ---------------------------------------------------------------------------------

  const ATOI_CAP: int := 0x4000_0000
  const INT64_MAX: int := 0x7fff_ffff_ffff_ffff

  /** What a signed 64-bit integer holds after the exact result x. */
  function Wrap64(x: int): int {
    (x + 0x8000_0000_0000_0000) % 0x1_0000_0000_0000_0000 - 0x8000_0000_0000_0000
  }

  predicate IsDigit(b: byte) {
    0x30 <= b <= 0x39
  }

  predicate AllDigits(s: Bytes) {
    forall i :: 0 <= i < |s| ==> IsDigit(s[i])
  }

  lemma {:induction false} ValueGrows(s: Bytes, n: nat, m: nat)
    requires AllDigits(s) && n <= m <= |s|
    ensures 0 <= ValueOf(s, n) <= ValueOf(s, m)
    decreases m
  {
    if n < m {
      ValueGrows(s, n, m - 1);
    } else if n > 0 {
      ValueGrows(s, n - 1, n - 1);
    }
  }

  /** A decimal number of at most 2^30; anything else, and anything larger, is zero. */
  function KeyNumber(s: Bytes): int {
    if AllDigits(s) && Value(s) <= ATOI_CAP then Value(s) else 0
  }

  /** atoi checks the cap after every digit; what counts is the whole number. */
  method Atoi(s: Bytes) returns (n: int)
    ensures n == KeyNumber(s)
    ensures 0 <= n <= ATOI_CAP
  {
    n := 0;
    for i := 0 to |s|
      invariant (forall j :: 0 <= j < i ==> IsDigit(s[j])) && n == ValueOf(s, i) && 0 <= n <= ATOI_CAP
    {
      if s[i] < 0x30 || s[i] > 0x39 {
        assert !IsDigit(s[i]);
        return 0;
      }
      n := n * 10 + Digit(s[i]);
      if n > ATOI_CAP {
        if AllDigits(s) {
          ValueGrows(s, i + 1, |s|);
        }
        return 0;
      }
    }
  }

  /** Division as the source does it: towards zero. */
  function TruncatedDiv(a: int, b: int): int
    requires b > 0
  {
    if a >= 0 then a / b else -((-a) / b)
  }

  function IntDivCeil(a: int, b: int): int {
    if b <= 0 then 1 else TruncatedDiv(a + b - 1, b)
  }

  /** For every size b the result covers a. It is the least that does exactly unless a is at most -b
      and 1 - a - b is no multiple of b, where truncation has gone up by one; no caller passes such an a.
      Without a size it is one. */
  lemma CeilCovers(a: int, b: int)
    ensures b <= 0 ==> IntDivCeil(a, b) == 1
    ensures b > 0 ==> a <= IntDivCeil(a, b) * b
    ensures b > 0 ==> ((IntDivCeil(a, b) - 1) * b < a <==> a > -b || (1 - a - b) % b == 0)
  {
    if b > 0 {
      var r := IntDivCeil(a, b);
      if a > -b {
        CeilOfSmall(a, b);
      } else {
        var m := 1 - a - b;
        var q := m / b;
        assert m == q * b + m % b;
        assert r == -q;
        assert r * b == -(q * b);
        assert (r - 1) * b == r * b - b;
      }
    }
  }

  lemma CeilOfSmall(a: int, b: int)
    requires b > 0 && a > -b
    ensures (IntDivCeil(a, b) - 1) * b < a <= IntDivCeil(a, b) * b
  {
    var q := (a + b - 1) / b;
    assert a + b - 1 == q * b + (a + b - 1) % b;
    assert (q - 1) * b == q * b - b;
  }

  /** n is the least number of cells, but at least one, of size b that cover a. */
  predicate FewestCells(a: int, b: int, n: int) {
    n >= 1 && (b <= 0 ==> n == 1) && (b > 0 ==> a <= n * b && (n > 1 ==> (n - 1) * b < a))
  }

  lemma CeilIsFewest(a: int, b: int)
    requires a >= 0
    ensures FewestCells(a, b, Max(1, IntDivCeil(a, b)))
  {
    if b > 0 {
      CeilOfSmall(a, b);
    }
  }

  // --- placement --------------------------------------------------------------------------------

  /** The cell rectangle of a kitty picture before it is clamped: keys c and r, or derived from the
      pixel size, or the missing one derived from the other. */
  function KittyCells(scr: Screen, w: int, h: int, c: int, r: int): (cells: (int, int))
    requires w >= 0 && h >= 0
    ensures cells.0 >= 1 && cells.1 >= 1
    ensures c > 0 ==> cells.0 == c
    ensures r > 0 ==> cells.1 == r
    ensures c <= 0 && r <= 0 ==> FewestCells(w, scr.cellW, cells.0) && FewestCells(h, scr.cellH, cells.1)
    ensures c <= 0 && r > 0 ==> FewestCells(w * r, h, cells.0)
    ensures c > 0 && r <= 0 ==> FewestCells(h * c, w, cells.1)
  {
    if c <= 0 && r <= 0 then
      CeilIsFewest(w, scr.cellW);
      CeilIsFewest(h, scr.cellH);
      (Max(1, IntDivCeil(w, scr.cellW)), Max(1, IntDivCeil(h, scr.cellH)))
    else if c <= 0 then
      assert w * r >= 0;
      CeilIsFewest(w * r, h);
      (Max(1, IntDivCeil(w * r, h)), r)
    else if r <= 0 then
      assert h * c >= 0;
      CeilIsFewest(h * c, w);
      (c, Max(1, IntDivCeil(h * c, w)))
    else (c, r)
  }

  /** The cell rectangle of a sixel picture before it is clamped. */
  function SixelCells(scr: Screen, w: int, h: int): (cells: (int, int))
    requires w >= 0 && h >= 0
    ensures FewestCells(w, scr.cellW, cells.0) && FewestCells(h, scr.cellH, cells.1)
  {
    CeilIsFewest(w, scr.cellW);
    CeilIsFewest(h, scr.cellH);
    (Max(1, IntDivCeil(w, scr.cellW)), Max(1, IntDivCeil(h, scr.cellH)))
  }

  /** No product taken for a placement leaves 64 bits: keys are capped and picture sides are 32-bit. */
  lemma PlacementFits(w: int, h: int, c: int)
    requires 0 <= w < 0x8000_0000 && 0 <= h < 0x8000_0000 && 0 <= c <= ATOI_CAP
    ensures 0 <= w * c && w * c + h - 1 <= INT64_MAX
  {
    assert w * c <= 0x8000_0000 * ATOI_CAP by {
      assert w * c <= 0x8000_0000 * c;
    }
  }

  function Clamped(scr: Screen, proto: Protocol, x: int, y: int, cells: (int, int), w: int, h: int): (a: Asset)
    requires OnScreen(scr, y, x) && cells.0 >= 1 && cells.1 >= 1
    ensures Inside(scr, a) && a.proto == proto && a.row == y && a.col == x && a.width == w && a.height == h
    ensures a.cellCols <= cells.0 && a.cellRows <= cells.1
    ensures a.cellCols < cells.0 ==> a.col + a.cellCols == scr.cols
    ensures a.cellRows < cells.1 ==> a.row + a.cellRows == scr.rows
  {
    Asset(proto, y, x, Min(scr.cols - x, cells.0), Min(scr.rows - y, cells.1), w, h)
  }

  /** Where the cursor goes after a kitty picture: (row, column). */
  function CursorAfter(scr: Screen, a: Asset): (p: (int, int))
    requires Inside(scr, a)
    ensures OnScreen(scr, p.0, p.1)
    ensures a.col + a.cellCols < scr.cols ==> p == (a.row + a.cellRows - 1, a.col + a.cellCols)
    ensures a.col + a.cellCols == scr.cols ==> p == (Min(scr.rows - 1, a.row + a.cellRows), 0)
  {
    var nx := a.col + a.cellCols;
    var wraps := nx >= scr.cols;
    var ny := if wraps then Min(scr.rows - 1, a.row + 1) else a.row;
    (Min(scr.rows - 1, ny + Max(0, a.cellRows - 1)), if wraps then 0 else nx)
  }

  // --- raw pixels ---------------------------------------------------------------------------------

  datatype Pixel = Pixel(r: byte, g: byte, b: byte, a: byte)

  datatype Picture = Picture(width: int, height: int, pixels: seq<Pixel>)

  function BytesPerPixel(alpha: bool): int {
    if alpha then 4 else 3
  }

  predicate Holds(data: Bytes, off: int, alpha: bool) {
    0 <= off && off + BytesPerPixel(alpha) <= |data|
  }

  function PixelAt(data: Bytes, off: int, alpha: bool): Pixel
    requires Holds(data, off, alpha)
  {
    Pixel(data[off], data[off + 1], data[off + 2], if alpha then data[off + 3] else 0xff)
  }

  /** The first `n` pixels of `data` in reading order. */
  predicate PixelsOf(data: Bytes, alpha: bool, n: int, pixels: seq<Pixel>) {
    && n == |pixels|
    && forall k :: 0 <= k < n ==>
         Holds(data, k * BytesPerPixel(alpha), alpha) && pixels[k] == PixelAt(data, k * BytesPerPixel(alpha), alpha)
  }

  /** The bytes of a pixel in transmission order: red, green, blue, and alpha if there is one. */
  function PixelBytes(p: Pixel, alpha: bool): Bytes {
    [p.r, p.g, p.b] + if alpha then [p.a] else []
  }

  function Flattened(pixels: seq<Pixel>, alpha: bool): Bytes {
    if pixels == [] then [] else Flattened(pixels[..|pixels| - 1], alpha) + PixelBytes(pixels[|pixels| - 1], alpha)
  }

  /** The pixels of a drawn picture, written out again, are the data it was drawn from; without an alpha
      byte every pixel is opaque. */
  lemma {:induction false} PixelsRoundTrip(data: Bytes, alpha: bool, n: nat, pixels: seq<Pixel>)
    requires PixelsOf(data, alpha, n, pixels)
    ensures n * BytesPerPixel(alpha) <= |data| && Flattened(pixels, alpha) == data[..n * BytesPerPixel(alpha)]
    ensures !alpha ==> forall k :: 0 <= k < n ==> pixels[k].a == 0xff
    decreases n
  {
    if n > 0 {
      var off := (n - 1) * BytesPerPixel(alpha);
      PixelsRoundTrip(data, alpha, n - 1, pixels[..n - 1]);
      assert Holds(data, off, alpha) && pixels[n - 1] == PixelAt(data, off, alpha);
      assert n * BytesPerPixel(alpha) == off + BytesPerPixel(alpha);
      assert data[..off + BytesPerPixel(alpha)] == data[..off] + PixelBytes(pixels[n - 1], alpha);
    }
  }

  predicate IsInt64(x: int) {
    -0x8000_0000_0000_0000 <= x <= INT64_MAX
  }

  /** The size rawToImage compares with, as a 64-bit integer. */
  function WrappedSize(w: int, h: int, alpha: bool): int {
    Wrap64(Wrap64(w * h) * BytesPerPixel(alpha))
  }

  /** The size product of a capped header is exact in 64 bits, and so is the size of its picture. */
  lemma SizeFits(w: int, h: int, alpha: bool)
    requires 0 <= w <= ATOI_CAP && 0 <= h <= ATOI_CAP
    ensures 0 <= w * h * BytesPerPixel(alpha) <= INT64_MAX && 0 <= 4 * (w * h) <= INT64_MAX
    ensures WrappedSize(w, h, alpha) == w * h * BytesPerPixel(alpha)
  {
    ProductBound(w, h);
    NoWrap(w * h, alpha);
  }

  lemma ProductBound(w: int, h: int)
    requires 0 <= w <= ATOI_CAP && 0 <= h <= ATOI_CAP
    ensures 0 <= w * h <= 0x1000_0000_0000_0000
  {
    assert 0 <= (ATOI_CAP - w) * h;
    assert (ATOI_CAP - w) * h == ATOI_CAP * h - w * h;
  }

  /** While a picture of four bytes per pixel fits in 64 bits, nothing wraps. */
  lemma NoWrap(n: int, alpha: bool)
    requires 0 <= 4 * n <= INT64_MAX
    ensures Wrap64(Wrap64(n) * BytesPerPixel(alpha)) == n * BytesPerPixel(alpha)
  {
    assert Wrap64(n) == n;
  }

  /** Without the cap the size check could pass although the pixels are missing. */
  lemma UncappedSizeWraps()
    ensures var w, h := 0x1_0000_0000, 0x1_0000_0000;
            w > 0 && h > 0 && WrappedSize(w, h, false) == 0 < w * h * 3
  {
  }

  lemma RowMajor(w: int, h: int, x: int, y: int)
    requires 0 <= x < w && 0 <= y < h
    ensures 0 <= y * w + x && y * w + x + 1 <= w * h
  {
    assert 0 <= y * w;
    assert y * w + w == (y + 1) * w <= h * w;
  }

  lemma Scaled(k: int, n: int, bpp: int)
    requires 0 <= k && k + 1 <= n && (bpp == 3 || bpp == 4)
    ensures 0 <= k * bpp && k * bpp + bpp <= n * bpp
  {
    if bpp == 3 {
      assert k * 3 + 3 <= n * 3;
    }
  }

  /** What rawToImage may come to; making a picture whose pixels do not fit in 64 bits panics. */
  datatype RawResult = NoPicture | Drawn(picture: Picture) | Panics

  /** rawToImage, for every pair of 64-bit sides. It draws, with pixel k the k-th group of bytes and every
      read in bounds, exactly when the sides are positive, the picture fits in 64 bits and the data
      holds all its pixels; it panics exactly when the wrapped size lets a picture through that does
      not fit. */
  method RawToImage(data: Bytes, w: int, h: int, alpha: bool) returns (r: RawResult)
    requires IsInt64(w) && IsInt64(h)
    ensures r.Drawn? <==> w > 0 && h > 0 && 4 * (w * h) <= INT64_MAX && w * h * BytesPerPixel(alpha) <= |data|
    ensures r.Drawn? ==> r.picture.width == w && r.picture.height == h
    ensures r.Drawn? ==> PixelsOf(data, alpha, w * h, r.picture.pixels)
    ensures r.Panics? <==> w > 0 && h > 0 && 4 * (w * h) > INT64_MAX && WrappedSize(w, h, alpha) <= |data|
  {
    var need := WrappedSize(w, h, alpha);
    if w <= 0 || h <= 0 || |data| < need {
      if w > 0 && h > 0 && 4 * (w * h) <= INT64_MAX {
        NoWrap(w * h, alpha);
      }
      return NoPicture;
    }
    if 4 * (w * h) > INT64_MAX {
      return Panics;
    }
    assert 0 <= w * h;
    NoWrap(w * h, alpha);
    var pixels: seq<Pixel> := [];
    var y := 0;
    while y < h
      invariant 0 <= y <= h && PixelsOf(data, alpha, y * w, pixels)
    {
      pixels := ReadRow(data, w, h, alpha, y, pixels);
      assert y * w + w == (y + 1) * w;
      y := y + 1;
    }
    assert h * w == w * h;
    r := Drawn(Picture(w, h, pixels));
  }

  /** The inner loop of rawToImage: one row. */
  method ReadRow(data: Bytes, w: int, h: int, alpha: bool, y: int, before: seq<Pixel>) returns (pixels: seq<Pixel>)
    requires 0 < w && 0 <= y < h && w * h * BytesPerPixel(alpha) <= |data|
    requires PixelsOf(data, alpha, y * w, before)
    ensures PixelsOf(data, alpha, y * w + w, pixels)
  {
    pixels := before;
    var bpp := BytesPerPixel(alpha);
    var x := 0;
    while x < w
      invariant 0 <= x <= w && PixelsOf(data, alpha, y * w + x, pixels)
    {
      var off := (y * w + x) * bpp;
      RowMajor(w, h, x, y);
      Scaled(y * w + x, w * h, bpp);
      pixels := pixels + [if alpha then Pixel(data[off], data[off + 1], data[off + 2], data[off + 3])
                          else Pixel(data[off], data[off + 1], data[off + 2], 0xff)];
      x := x + 1;
    }
  }

  /** The f=24 and f=32 branch of finishKitty: sides from keys s and v, whatever they hold. It never
      panics. */
  method RawPicture(data: Bytes, s: Bytes, v: Bytes, alpha: bool) returns (r: RawResult)
    ensures !r.Panics?
    ensures r.Drawn? <==>
              && KeyNumber(s) > 0 && KeyNumber(v) > 0
              && KeyNumber(s) * KeyNumber(v) * BytesPerPixel(alpha) <= |data|
    ensures r.Drawn? ==>
              && r.picture.width == Value(s) && r.picture.height == Value(v)
              && PixelsOf(data, alpha, Value(s) * Value(v), r.picture.pixels)
  {
    var w := Atoi(s);
    var h := Atoi(v);
    SizeFits(w, h, alpha);
    if w <= 0 || h <= 0 {
      return NoPicture;
    }
    r := RawToImage(data, w, h, alpha);
  }
}
