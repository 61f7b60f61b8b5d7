/** The pixel loops of src/dvdbr2dvbsub.c over flat byte and index buffers, proved
    to compute the palettes, index planes and enlargements of IndexedImage. */
module IndexedImageLoops {
  import opened IndexedImage

  /** `y * w` in the form the row loops add it up. */
  ghost function Times(y: nat, w: nat): nat {
    if y == 0 then 0 else Times(y - 1, w) + w
  }

  lemma {:induction false} TimesIs(y: nat, w: nat)
    ensures Times(y, w) == y * w
  {
    if y > 0 { TimesIs(y - 1, w); assert y * w == (y - 1) * w + w; }
  }

  /** An RGBA plane of `h` rows, each starting `ls` bytes after the last. */
  ghost predicate Plane(rgba: seq<byte>, ls: nat, w: nat, h: nat) {
    4 * w <= ls && |rgba| >= ls * h
  }

  lemma PixelFits(rgba: seq<byte>, ls: nat, w: nat, h: nat, x: nat, y: nat)
    requires Plane(rgba, ls, w, h) && x < w && y < h
    ensures 0 <= y * ls && y * ls + x * 4 + 3 < |rgba|
  {
    TimesMore(y, h, ls);
  }

  function Colour(rgba: seq<byte>, at: nat): int
    requires at + 3 < |rgba|
  {
    var r: int, g: int, b: int, a: int := rgba[at], rgba[at + 1], rgba[at + 2], rgba[at + 3];
    r * 0x100_0000 + g * 0x1_0000 + b * 0x100 + a
  }

  /** The four bytes of a colour can be read off it again. */
  lemma ColourBytes(rgba: seq<byte>, at: nat)
    requires at + 3 < |rgba|
    ensures var c := Colour(rgba, at);
            && rgba[at] == c / 0x100_0000 && rgba[at + 1] == c / 0x1_0000 % 256
            && rgba[at + 2] == c / 0x100 % 256 && rgba[at + 3] == c % 256
  {
    var r: int, g: int, b: int, a: int := rgba[at], rgba[at + 1], rgba[at + 2], rgba[at + 3];
    Digit(r, g);
    Digit(r * 256 + g, b);
    Digit((r * 256 + g) * 256 + b, a);
    Shifts(Colour(rgba, at));
  }

  lemma Digit(q: nat, d: nat)
    requires d < 256
    ensures (q * 256 + d) / 256 == q && (q * 256 + d) % 256 == d
  {
  }

  lemma Shifts(c: nat)
    ensures c / 0x1_0000 == c / 256 / 256 && c / 0x100_0000 == c / 256 / 256 / 256
  {
  }

  ghost function ColourAt(rgba: seq<byte>, ls: nat, w: nat, h: nat, k: nat): int
    requires Plane(rgba, ls, w, h) && k < w * h
  {
    OfIndex(k, w, h);
    PixelFits(rgba, ls, w, h, k % w, k / w);
    Colour(rgba, (k / w) * ls + (k % w) * 4)
  }

  ghost function ColoursOf(rgba: seq<byte>, ls: nat, w: nat, h: nat): (r: seq<int>)
    requires Plane(rgba, ls, w, h)
    ensures |r| == w * h
  {
    seq(w * h, k requires 0 <= k < w * h => ColourAt(rgba, ls, w, h, k))
  }

  lemma PixelAt(rgba: seq<byte>, ls: nat, w: nat, h: nat, x: nat, y: nat)
    requires Plane(rgba, ls, w, h) && x < w && y < h
    ensures Times(y, w) + x < w * h && Times(y, ls) + x * 4 + 3 < |rgba|
    ensures ColourAt(rgba, ls, w, h, Times(y, w) + x) == Colour(rgba, Times(y, ls) + x * 4)
  {
    TimesIs(y, w);
    TimesIs(y, ls);
    InRow(x, y, w, h);
    PixelFits(rgba, ls, w, h, x, y);
  }

  /** Colour `base + x` is the pixel `x` places after byte `row`. */
  ghost predicate PixelIs(cols: seq<int>, base: nat, rgba: seq<byte>, row: nat, x: nat, sx: nat) {
    base + x < |cols| && row + sx * 4 + 3 < |rgba| && cols[base + x] == Colour(rgba, row + sx * 4)
  }

  ghost predicate RowIs(cols: seq<int>, base: nat, rgba: seq<byte>, row: nat, w: nat) {
    forall x: nat {:trigger PixelIs(cols, base, rgba, row, x, x)} :: x < w ==> PixelIs(cols, base, rgba, row, x, x)
  }

  lemma PlanePixel(rgba: seq<byte>, ls: nat, w: nat, h: nat, x: nat, y: nat)
    requires Plane(rgba, ls, w, h) && x < w && y < h
    ensures PixelIs(ColoursOf(rgba, ls, w, h), Times(y, w), rgba, Times(y, ls), x, x)
  {
    PixelAt(rgba, ls, w, h, x, y);
  }

  lemma PlaneRow(rgba: seq<byte>, ls: nat, w: nat, h: nat, y: nat)
    requires Plane(rgba, ls, w, h) && y < h
    ensures RowIs(ColoursOf(rgba, ls, w, h), Times(y, w), rgba, Times(y, ls), w)
  {
    forall x: nat | x < w ensures PixelIs(ColoursOf(rgba, ls, w, h), Times(y, w), rgba, Times(y, ls), x, x) {
      PlanePixel(rgba, ls, w, h, x, y);
    }
  }

  /** Find the colour in the palette, or add it, or fall back to slot 0. */
  method PutColour(palette: array<int>, colours: nat, col: int) returns (found: nat, colours': nat)
    requires palette.Length == PALETTE_SLOTS && colours <= MAX_COLOURS
    modifies palette
    ensures colours' <= MAX_COLOURS && palette[..colours'] == AddColour(old(palette[..colours]), col)
    ensures found == SlotOf(palette[..colours'], col) < MAX_COLOURS
    ensures palette[colours'..] == old(palette[colours'..])
  {
    var i := 0;
    while i < colours
      invariant 0 <= i <= colours && col !in palette[..i]
      invariant palette[..] == old(palette[..])
    {
      if palette[i] == col {
        FirstSlot(palette[..colours], i, col);
        return i, colours;
      }
      i := i + 1;
    }
    if colours < MAX_COLOURS {
      palette[colours] := col;
      FirstSlot(palette[..colours + 1], colours, col);
      return colours, colours + 1;
    }
    return 0, colours;
  }

  lemma {:induction false} FirstSlot(pal: seq<int>, k: nat, c: int)
    requires k < |pal| && pal[k] == c && c !in pal[..k]
    ensures SlotOf(pal, c) == k
  {
    if k > 0 {
      assert pal[0] in pal[..k];
      assert pal[1..][..k - 1] == pal[..k][1..];
      FirstSlot(pal[1..], k - 1, c);
    }
  }

  lemma FinalSlot(cols: seq<int>, i: nat)
    requires i < |cols|
    ensures SlotOf(PaletteOf([], cols[..i + 1]), cols[i]) == SlotOf(PaletteOf([], cols), cols[i])
  {
    var head, now := cols[..i + 1], PaletteOf([], cols[..i + 1]);
    assert cols == head + cols[i + 1..] && head[i] == cols[i];
    PaletteAppend([], head, cols[i + 1..]);
    Grows([], head);
    Grows(now, cols[i + 1..]);
    assert Settled(now, cols[i]);
    if cols[i] !in now { FullStays(now, cols[i + 1..]); }
    SlotKept(now, PaletteOf([], cols), cols[i]);
  }

  /** The slots picked on the way are the slots under the final palette. */
  lemma FinalSlots(cols: seq<int>, idx: seq<int>)
    requires |idx| == |cols|
    requires forall i :: 0 <= i < |cols| ==> idx[i] == SlotOf(PaletteOf([], cols[..i + 1]), cols[i])
    ensures idx == IndexPlane(cols)
  {
    forall i | 0 <= i < |cols| ensures idx[i] == IndexPlane(cols)[i] { FinalSlot(cols, i); }
  }

  lemma {:induction false} FullStays(pal: seq<int>, cols: seq<int>)
    requires |pal| >= MAX_COLOURS
    ensures PaletteOf(pal, cols) == pal
  {
    if cols != [] { FullStays(pal, cols[1..]); }
  }

  method RgbaToIndexed(rgba: seq<byte>, ls: nat, w: nat, h: nat)
      returns (idx: array<int>, palette: array<int>, colours: nat)
    requires Plane(rgba, ls, w, h)
    ensures idx[..] == IndexPlane(ColoursOf(rgba, ls, w, h))
    ensures palette.Length == PALETTE_SLOTS && colours <= MAX_COLOURS
    ensures palette[..colours] == PaletteOf([], ColoursOf(rgba, ls, w, h))
    ensures forall i :: colours <= i < PALETTE_SLOTS ==> palette[i] == 0
  {
    ghost var cols := ColoursOf(rgba, ls, w, h);
    forall y | 0 <= y < h ensures RowIs(cols, Times(y, w), rgba, Times(y, ls), w) { PlaneRow(rgba, ls, w, h, y); }
    TimesIs(h, w);
    idx, palette, colours := ScanPlane(cols, rgba, ls, w, h, w * h);
    assert cols[..|cols|] == cols;
    FinalSlots(cols, idx[..]);
  }

  method ScanPlane(ghost cols: seq<int>, rgba: seq<byte>, ls: nat, w: nat, h: nat, n: nat)
      returns (idx: array<int>, palette: array<int>, colours: nat)
    requires |cols| == n == Times(h, w)
    requires forall y :: 0 <= y < h ==> RowIs(cols, Times(y, w), rgba, Times(y, ls), w)
    ensures Scanned(cols, idx, palette, colours, n)
  {
    idx := new int[n];
    palette := new int[PALETTE_SLOTS](_ => 0);
    colours := 0;
    var y, base, row := 0, 0, 0;
    assert cols[..0] == [];
    while y < h
      invariant 0 <= y <= h && base == Times(y, w) && row == Times(y, ls)
      invariant Scanned(cols, idx, palette, colours, base)
    {
      colours := ScanRow(cols, rgba, row, w, idx, palette, colours, base);
      y, base, row := y + 1, base + w, row + ls;
    }
  }

  method ScanRow(ghost cols: seq<int>, rgba: seq<byte>, row: nat, w: nat,
                 idx: array<int>, palette: array<int>, colours: nat, base: nat) returns (n: nat)
    requires Scanned(cols, idx, palette, colours, base) && RowIs(cols, base, rgba, row, w)
    modifies idx, palette
    ensures Scanned(cols, idx, palette, n, base + w)
  {
    n := colours;
    var x := 0;
    while x < w
      invariant 0 <= x <= w
      invariant Scanned(cols, idx, palette, n, base + x)
    {
      assert PixelIs(cols, base, rgba, row, x, x);
      var col := Colour(rgba, row + x * 4);
      n := ScanPixel(cols, idx, palette, n, base + x, col);
      x := x + 1;
    }
  }

  /** The state of the scan after its first `k` pixels. */
  ghost predicate Scanned(cols: seq<int>, idx: array<int>, palette: array<int>, colours: nat, k: nat)
    reads idx, palette
  {
    && k <= |cols| == idx.Length && palette.Length == PALETTE_SLOTS && idx != palette && colours <= MAX_COLOURS
    && palette[..colours] == PaletteOf([], cols[..k])
    && (forall i :: colours <= i < PALETTE_SLOTS ==> palette[i] == 0)
    && (forall i :: 0 <= i < k ==> idx[i] == SlotOf(PaletteOf([], cols[..i + 1]), cols[i]))
  }

  method ScanPixel(ghost cols: seq<int>, idx: array<int>, palette: array<int>, colours: nat, k: nat, col: int)
      returns (colours': nat)
    requires Scanned(cols, idx, palette, colours, k) && k < |cols| && col == cols[k]
    modifies idx, palette
    ensures Scanned(cols, idx, palette, colours', k + 1)
  {
    var found;
    found, colours' := PutColour(palette, colours, col);
    idx[k] := found;
    assert cols[..k + 1] == cols[..k] + [col];
    PaletteAppend([], cols[..k], [col]);
  }

  lemma SampleIs(xs: seq<int>, sw: nat, sh: nat, dw: nat, dh: nat, x: nat, y: nat, k: nat, j: nat)
    requires Sizes(xs, sw, sh, dw, dh) && x < dw && y < dh
    requires k == y * dw + x && j == Src(y, sh, dh) * sw + Src(x, sw, dw)
    ensures k < dw * dh && j < |xs| && SampleAt(xs, sw, sh, dw, dh, k) == xs[j]
  {
    InRow(x, y, dw, dh);
    InRow(Src(x, sw, dw), Src(y, sh, dh), sw, sh);
  }

  /** The `dw` indices of `out` from `base` on are the row at `srow`, stretched. */
  ghost predicate RowStretched(out: seq<int>, base: nat, src: seq<int>, srow: nat, sw: nat, dw: nat)
    requires 1 <= sw
  {
    forall x: nat {:trigger Src(x, sw, dw)} :: x < dw ==> SameAt(out, base + x, src, srow + Src(x, sw, dw))
  }

  lemma RowIsStretched(src: seq<int>, sw: nat, sh: nat, dw: nat, dh: nat, y: nat)
    requires Sizes(src, sw, sh, dw, dh) && y < dh
    ensures RowStretched(Scaled(src, sw, sh, dw, dh), Times(y, dw), src, Times(Src(y, sh, dh), sw), sw, dw)
  {
    TimesIs(y, dw);
    TimesIs(Src(y, sh, dh), sw);
    forall x: nat | x < dw
      ensures SameAt(Scaled(src, sw, sh, dw, dh), Times(y, dw) + x, src, Times(Src(y, sh, dh), sw) + Src(x, sw, dw))
    {
      ScaledAt(src, sw, sh, dw, dh, x, y);
    }
  }

  /** The first `k` indices are those of `out`. */
  ghost predicate Filled(out: seq<int>, dst: array<int>, k: nat) reads dst {
    k <= |out| == dst.Length && forall i :: 0 <= i < k ==> dst[i] == out[i]
  }

  method ResizeRow(src: seq<int>, srow: nat, sw: nat, dst: array<int>, dw: nat, base: nat, ghost out: seq<int>)
    requires 1 <= sw && base + dw <= |out| && Filled(out, dst, base) && RowStretched(out, base, src, srow, sw, dw)
    modifies dst
    ensures Filled(out, dst, base + dw)
  {
    var x := 0;
    while x < dw
      invariant 0 <= x <= dw && Filled(out, dst, base + x)
    {
      var sx := Src(x, sw, dw);
      assert SameAt(out, base + x, src, srow + sx);
      dst[base + x] := src[srow + sx];
      x := x + 1;
    }
  }

  method ResizeIndices(ghost out: seq<int>, src: seq<int>, sw: nat, sh: nat, dw: nat, dh: nat, n: nat)
      returns (dst: array<int>)
    requires 1 <= sw && 1 <= sh && |out| == n == Times(dh, dw)
    requires forall y :: 0 <= y < dh ==> RowStretched(out, Times(y, dw), src, Times(Src(y, sh, dh), sw), sw, dw)
    ensures Filled(out, dst, n)
  {
    dst := new int[n];
    var y, base := 0, 0;
    while y < dh
      invariant 0 <= y <= dh && base == Times(y, dw) <= n && Filled(out, dst, base)
    {
      var sy := Src(y, sh, dh);
      TimesIs(sy, sw);
      TimesGrow(y + 1, dh, dw);
      ResizeRow(src, sy * sw, sw, dst, dw, base, out);
      y, base := y + 1, base + dw;
    }
  }

  lemma {:induction false} TimesGrow(a: nat, b: nat, w: nat)
    requires a <= b
    ensures Times(a, w) <= Times(b, w)
  {
    if a < b { TimesGrow(a, b - 1, w); }
  }

  /** Every pixel of `dst`, `u` values wide, equals the pixel of `src` it falls on. */
  ghost predicate Resized(src: seq<int>, sl: nat, sw: nat, sh: nat, dst: seq<int>, dl: nat, dw: nat, dh: nat, u: nat) {
    forall x, y, cx, cy, ch {:trigger Falls(x, dw, cx, sw), Falls(y, dh, cy, sh), Part(ch, u)} ::
      0 <= x < dw && 0 <= y < dh && Falls(x, dw, cx, sw) && Falls(y, dh, cy, sh) && Part(ch, u) ==>
        SameAt(dst, y * dl + x * u + ch, src, cy * sl + cx * u + ch)
  }

  ghost predicate Part(ch: int, u: nat) { 0 <= ch < u }

  ghost predicate SameAt(a: seq<int>, i: int, b: seq<int>, j: int) {
    0 <= i < |a| && 0 <= j < |b| && a[i] == b[j]
  }

  lemma ScaledIsResized(src: seq<int>, sw: nat, sh: nat, dw: nat, dh: nat)
    requires Sizes(src, sw, sh, dw, dh)
    ensures Resized(src, sw, sw, sh, Scaled(src, sw, sh, dw, dh), dw, dw, dh, 1)
  {
    forall x, y, cx, cy, ch | 0 <= x < dw && 0 <= y < dh && Falls(x, dw, cx, sw) && Falls(y, dh, cy, sh) && Part(ch, 1)
      ensures SameAt(Scaled(src, sw, sh, dw, dh), y * dw + x * 1 + ch, src, cy * sw + cx * 1 + ch)
    {
      ScaledFalls(src, sw, sh, dw, dh, x, y, cx, cy);
    }
  }

  method IndexedResize(src: seq<int>, sw: nat, sh: nat, dw: nat, dh: nat) returns (dst: array<int>)
    requires Sizes(src, sw, sh, dw, dh)
    ensures dst[..] == Scaled(src, sw, sh, dw, dh)
    ensures Resized(src, sw, sw, sh, dst[..], dw, dw, dh, 1)
  {
    ghost var out := Scaled(src, sw, sh, dw, dh);
    forall y | 0 <= y < dh ensures RowStretched(out, Times(y, dw), src, Times(Src(y, sh, dh), sw), sw, dw) {
      RowIsStretched(src, sw, sh, dw, dh, y);
    }
    TimesIs(dh, dw);
    dst := ResizeIndices(out, src, sw, sh, dw, dh, dw * dh);
    assert dst[..] == out;
    ScaledIsResized(src, sw, sh, dw, dh);
  }

  /** Four bytes per pixel, copied one by one. */
  method RgbaResize(src: seq<byte>, ls: nat, sw: nat, sh: nat, dw: nat, dh: nat) returns (dst: array<byte>)
    requires Plane(src, ls, sw, sh) && 1 <= sw && 1 <= sh && 1 <= dw && 1 <= dh
    ensures Plane(dst[..], 4 * dw, dw, dh)
    ensures ColoursOf(dst[..], 4 * dw, dw, dh) == Scaled(ColoursOf(src, ls, sw, sh), sw, sh, dw, dh)
    ensures Resized(src, ls, sw, sh, dst[..], 4 * dw, dw, dh, 4)
  {
    ghost var out := Scaled(ColoursOf(src, ls, sw, sh), sw, sh, dw, dh);
    forall y | 0 <= y < dh ensures StretchIs(out, Times(y, dw), src, Times(Src(y, sh, dh), ls), sw, dw) {
      SourceRow(src, ls, sw, sh, dw, dh, y);
    }
    TimesIs(dh, dw);
    dst := ResizePlane(out, src, ls, sw, sh, dw, dh, dw * dh);
    AllCopied(out, dst[..], dw, dh);
    ColoursResized(src, ls, sw, sh, dst[..], dw, dh);
  }

  /** Equal colours have equal bytes. */
  lemma SameBytes(a: seq<byte>, i: nat, b: seq<byte>, j: nat, ch: nat)
    requires i + 3 < |a| && j + 3 < |b| && Colour(a, i) == Colour(b, j) && ch < 4
    ensures a[i + ch] == b[j + ch]
  {
    ColourBytes(a, i);
    ColourBytes(b, j);
  }

  lemma PixelResized(src: seq<byte>, ls: nat, sw: nat, sh: nat, dst: seq<byte>, dw: nat, dh: nat,
                     x: nat, y: nat, cx: int, cy: int, ch: nat)
    requires Plane(src, ls, sw, sh) && Plane(dst, 4 * dw, dw, dh) && 1 <= sw && 1 <= sh && x < dw && y < dh && ch < 4
    requires ColoursOf(dst, 4 * dw, dw, dh) == Scaled(ColoursOf(src, ls, sw, sh), sw, sh, dw, dh)
    requires Falls(x, dw, cx, sw) && Falls(y, dh, cy, sh)
    ensures SameAt(dst, y * (4 * dw) + x * 4 + ch, src, cy * ls + cx * 4 + ch)
  {
    ScaledFalls(ColoursOf(src, ls, sw, sh), sw, sh, dw, dh, x, y, cx, cy);
    ColourOfPixel(src, ls, sw, sh, cx, cy);
    ColourOfPixel(dst, 4 * dw, dw, dh, x, y);
    SameBytes(dst, y * (4 * dw) + x * 4, src, cy * ls + cx * 4, ch);
  }

  lemma ColourOfPixel(rgba: seq<byte>, ls: nat, w: nat, h: nat, x: nat, y: nat)
    requires Plane(rgba, ls, w, h) && x < w && y < h
    ensures 0 <= y * w + x < w * h && 0 <= y * ls + x * 4 && y * ls + x * 4 + 3 < |rgba|
    ensures ColoursOf(rgba, ls, w, h)[y * w + x] == Colour(rgba, y * ls + x * 4)
  {
    InRow(x, y, w, h);
    PixelFits(rgba, ls, w, h, x, y);
  }

  lemma ColoursResized(src: seq<byte>, ls: nat, sw: nat, sh: nat, dst: seq<byte>, dw: nat, dh: nat)
    requires Plane(src, ls, sw, sh) && Plane(dst, 4 * dw, dw, dh) && 1 <= sw && 1 <= sh && 1 <= dw && 1 <= dh
    requires ColoursOf(dst, 4 * dw, dw, dh) == Scaled(ColoursOf(src, ls, sw, sh), sw, sh, dw, dh)
    ensures Resized(src, ls, sw, sh, dst, 4 * dw, dw, dh, 4)
  {
    forall x, y, cx, cy, ch | 0 <= x < dw && 0 <= y < dh && Falls(x, dw, cx, sw) && Falls(y, dh, cy, sh) && Part(ch, 4)
      ensures SameAt(dst, y * (4 * dw) + x * 4 + ch, src, cy * ls + cx * 4 + ch)
    {
      PixelResized(src, ls, sw, sh, dst, dw, dh, x, y, cx, cy, ch);
    }
  }

  method ResizePlane(ghost out: seq<int>, src: seq<byte>, ls: nat, sw: nat, sh: nat, dw: nat, dh: nat, n: nat)
      returns (dst: array<byte>)
    requires 1 <= sw && 1 <= sh && |out| == n == Times(dh, dw)
    requires forall y :: 0 <= y < dh ==> StretchIs(out, Times(y, dw), src, Times(Src(y, sh, dh), ls), sw, dw)
    ensures Copied(out, dst, n)
  {
    dst := new byte[4 * n](_ => 0);
    var y, base := 0, 0;
    while y < dh
      invariant 0 <= y <= dh && base == Times(y, dw)
      invariant Copied(out, dst, base)
    {
      var sy := Src(y, sh, dh);
      TimesIs(sy, ls);
      CopyRow(src, sy * ls, sw, dst, dw, base, out);
      y, base := y + 1, base + dw;
    }
  }

  /** The first `k` pixels are those of `out`. */
  ghost predicate Copied(out: seq<int>, dst: array<byte>, k: nat) reads dst {
    k <= |out| && dst.Length == 4 * |out| && forall i :: 0 <= i < k ==> Colour(dst[..], 4 * i) == out[i]
  }

  /** The `dw` colours of `out` from `base` on are the row at byte `srow`, stretched. */
  ghost predicate StretchIs(out: seq<int>, base: nat, src: seq<byte>, srow: nat, sw: nat, dw: nat)
    requires 1 <= sw
  {
    forall x: nat {:trigger Src(x, sw, dw)} :: x < dw ==> PixelIs(out, base, src, srow, x, Src(x, sw, dw))
  }

  method CopyRow(src: seq<byte>, srow: nat, sw: nat, dst: array<byte>, dw: nat, base: nat, ghost out: seq<int>)
    requires 1 <= sw && Copied(out, dst, base) && StretchIs(out, base, src, srow, sw, dw)
    modifies dst
    ensures Copied(out, dst, base + dw)
  {
    var x := 0;
    while x < dw
      invariant 0 <= x <= dw
      invariant Copied(out, dst, base + x)
    {
      var sp, dp := srow + Src(x, sw, dw) * 4, 4 * (base + x);
      assert PixelIs(out, base, src, srow, x, Src(x, sw, dw));
      ghost var was := dst[..];
      dst[dp], dst[dp + 1], dst[dp + 2], dst[dp + 3] := src[sp], src[sp + 1], src[sp + 2], src[sp + 3];
      forall i | 0 <= i < base + x ensures Colour(dst[..], 4 * i) == Colour(was, 4 * i) { }
      x := x + 1;
    }
  }

  lemma SourcePixel(src: seq<byte>, ls: nat, sw: nat, sh: nat, dw: nat, dh: nat, x: nat, y: nat)
    requires Plane(src, ls, sw, sh) && 1 <= sw && 1 <= sh && x < dw && y < dh
    ensures Times(y, dw) + x < dw * dh && Times(Src(y, sh, dh), ls) + Src(x, sw, dw) * 4 + 3 < |src|
    ensures SampleAt(ColoursOf(src, ls, sw, sh), sw, sh, dw, dh, Times(y, dw) + x)
            == Colour(src, Times(Src(y, sh, dh), ls) + Src(x, sw, dw) * 4)
  {
    var sx, sy := Src(x, sw, dw), Src(y, sh, dh);
    TimesIs(y, dw);
    TimesIs(sy, sw);
    SampleIs(ColoursOf(src, ls, sw, sh), sw, sh, dw, dh, x, y, Times(y, dw) + x, Times(sy, sw) + sx);
    PixelAt(src, ls, sw, sh, sx, sy);
  }

  lemma ScaledPixel(src: seq<byte>, ls: nat, sw: nat, sh: nat, dw: nat, dh: nat, x: nat, y: nat)
    requires Plane(src, ls, sw, sh) && 1 <= sw && 1 <= sh && x < dw && y < dh
    ensures PixelIs(Scaled(ColoursOf(src, ls, sw, sh), sw, sh, dw, dh), Times(y, dw),
                    src, Times(Src(y, sh, dh), ls), x, Src(x, sw, dw))
  {
    SourcePixel(src, ls, sw, sh, dw, dh, x, y);
  }

  lemma SourceRow(src: seq<byte>, ls: nat, sw: nat, sh: nat, dw: nat, dh: nat, y: nat)
    requires Plane(src, ls, sw, sh) && 1 <= sw && 1 <= sh && 1 <= dw && y < dh
    ensures StretchIs(Scaled(ColoursOf(src, ls, sw, sh), sw, sh, dw, dh), Times(y, dw), src,
                      Times(Src(y, sh, dh), ls), sw, dw)
  {
    forall x: nat | x < dw
      ensures PixelIs(Scaled(ColoursOf(src, ls, sw, sh), sw, sh, dw, dh), Times(y, dw),
                      src, Times(Src(y, sh, dh), ls), x, Src(x, sw, dw))
    {
      ScaledPixel(src, ls, sw, sh, dw, dh, x, y);
    }
  }

  lemma PackedAt(dst: seq<byte>, dw: nat, dh: nat, i: nat)
    requires 1 <= dw && |dst| == 4 * (dw * dh) && i < dw * dh && Plane(dst, 4 * dw, dw, dh)
    ensures ColourAt(dst, 4 * dw, dw, dh, i) == Colour(dst, 4 * i)
  {
    OfIndex(i, dw, dh);
    FourTimes(i / dw, dw);
  }

  lemma FourTimes(y: nat, w: nat)
    ensures y * (4 * w) == 4 * (y * w) && (4 * w) * y == 4 * (w * y)
  {
  }

  lemma AllCopied(out: seq<int>, dst: seq<byte>, dw: nat, dh: nat)
    requires 1 <= dw && 1 <= dh && |out| == dw * dh && |dst| == 4 * |out|
    requires forall i :: 0 <= i < |out| ==> Colour(dst, 4 * i) == out[i]
    ensures Plane(dst, 4 * dw, dw, dh)
    ensures ColoursOf(dst, 4 * dw, dw, dh) == out
  {
    FourTimes(dh, dw);
    forall i | 0 <= i < dw * dh ensures ColoursOf(dst, 4 * dw, dw, dh)[i] == out[i] { PackedAt(dst, dw, dh, i); }
  }
}
