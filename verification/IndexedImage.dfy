/** Palette building and nearest-neighbour scaling of RGBA subtitle bitmaps
    (src/dvdbr2dvbsub.c).  An image is the row-major sequence of its colours. */
module IndexedImage {
  type byte = b: int | 0 <= b < 256

  const MAX_COLOURS: nat := 16
  const PALETTE_SLOTS: nat := 256    // AVPALETTE_SIZE bytes, four per entry

  // ------------------------------------------------------------ the palette

  function AddColour(pal: seq<int>, c: int): seq<int> {
    if c in pal || |pal| >= MAX_COLOURS then pal else pal + [c]
  }

  function PaletteOf(pal: seq<int>, cols: seq<int>): seq<int>
    decreases |cols|
  {
    if cols == [] then pal else PaletteOf(AddColour(pal, cols[0]), cols[1..])
  }

  /** The slot a colour is drawn with: where the palette has it, else slot 0. */
  function SlotOf(pal: seq<int>, c: int): (k: nat)
    ensures c in pal ==> k < |pal| && pal[k] == c
    ensures c !in pal ==> k == 0
  {
    if c !in pal then 0 else if pal[0] == c then 0 else 1 + SlotOf(pal[1..], c)
  }

  ghost function IndexPlane(cols: seq<int>): seq<int> {
    seq(|cols|, k requires 0 <= k < |cols| => SlotOf(PaletteOf([], cols), cols[k]))
  }

  lemma {:induction false} PaletteAppend(pal: seq<int>, a: seq<int>, b: seq<int>)
    ensures PaletteOf(pal, a + b) == PaletteOf(PaletteOf(pal, a), b)
    decreases |a|
  {
    if a == [] { assert a + b == b; } else {
      assert (a + b)[1..] == a[1..] + b;
      PaletteAppend(AddColour(pal, a[0]), a[1..], b);
    }
  }

  /** Adding `c` to the palette would change nothing. */
  ghost predicate Settled(pal: seq<int>, c: int) {
    c in pal || |pal| >= MAX_COLOURS
  }

  /** Scanning settles every colour scanned and only appends. */
  lemma {:induction false} Grows(pal: seq<int>, cols: seq<int>)
    ensures pal <= PaletteOf(pal, cols)
    ensures forall c :: c in cols ==> Settled(PaletteOf(pal, cols), c)
    ensures forall c :: c in PaletteOf(pal, cols) ==> c in pal || c in cols
    ensures |pal| <= MAX_COLOURS ==> |PaletteOf(pal, cols)| <= MAX_COLOURS
    decreases |cols|
  {
    if cols != [] { Grows(AddColour(pal, cols[0]), cols[1..]); assert Settled(AddColour(pal, cols[0]), cols[0]); }
  }

  lemma {:induction false} NothingNew(pal: seq<int>, cols: seq<int>)
    requires forall c :: c in cols ==> Settled(pal, c)
    ensures PaletteOf(pal, cols) == pal
  {
    if cols != [] { assert Settled(pal, cols[0]); NothingNew(pal, cols[1..]); }
  }

  ghost predicate Distinct(s: seq<int>) {
    forall i, j :: 0 <= i < j < |s| ==> s[i] != s[j]
  }

  lemma {:induction false} StaysDistinct(pal: seq<int>, cols: seq<int>)
    requires Distinct(pal)
    ensures Distinct(PaletteOf(pal, cols))
    decreases |cols|
  {
    if cols != [] { StaysDistinct(AddColour(pal, cols[0]), cols[1..]); }
  }

  /** A slot chosen while scanning is the slot under the final palette. */
  lemma {:induction false} SlotKept(pal: seq<int>, more: seq<int>, c: int)
    requires pal <= more && (c in pal || c !in more)
    ensures SlotOf(pal, c) == SlotOf(more, c)
  {
    if c in pal && pal[0] != c { SlotKept(pal[1..], more[1..], c); }
  }

  lemma {:induction false} SlotAt(pal: seq<int>, k: nat)
    requires k < |pal| && Distinct(pal)
    ensures SlotOf(pal, pal[k]) == k
  {
    if k > 0 { SlotAt(pal[1..], k - 1); assert pal[1..][k - 1] == pal[k]; }
  }

  function Colours(s: seq<int>): set<int> {
    set c | c in s
  }

  lemma {:induction false} DistinctCount(s: seq<int>)
    requires Distinct(s)
    ensures |Colours(s)| == |s|
  {
    if s != [] {
      DistinctCount(s[1..]);
      assert Colours(s) == Colours(s[1..]) + {s[0]};
    }
  }

  /** Looking every index up in the palette gives the image back exactly when it
      has at most 16 colours. */
  lemma ExactIffFewColours(cols: seq<int>)
    ensures var pal := PaletteOf([], cols);
            (forall k :: 0 <= k < |cols| ==> SlotOf(pal, cols[k]) < |pal| && pal[SlotOf(pal, cols[k])] == cols[k])
            <==> |Colours(cols)| <= 16
  {
    var pal := PaletteOf([], cols);
    Grows([], cols);
    StaysDistinct([], cols);
    DistinctCount(pal);
    Covered(cols, pal);
    forall k | 0 <= k < |cols| ensures |Colours(cols)| <= MAX_COLOURS ==> cols[k] in pal {
      assert Settled(pal, cols[k]) && Colours(pal) <= Colours(cols);
      StrictSubset(Colours(pal), Colours(cols), cols[k]);
    }
  }

  /** A list whose colours all are in `pal` has no more colours than that. */
  lemma Covered(cols: seq<int>, pal: seq<int>)
    ensures (forall k :: 0 <= k < |cols| ==> cols[k] in pal) ==> |Colours(cols)| <= |Colours(pal)|
  {
    if forall k :: 0 <= k < |cols| ==> cols[k] in pal { Smaller(Colours(cols), Colours(pal)); }
  }

  lemma StrictSubset(a: set<int>, b: set<int>, x: int)
    ensures a <= b && x in b && x !in a ==> |a| < |b|
  {
    if a <= b && x in b && x !in a {
      Smaller(a, b - {x});
      assert |b - {x}| == |b| - 1;
    }
  }

  lemma Smaller(a: set<int>, b: set<int>)
    requires a <= b
    ensures |a| <= |b|
  {
    assert a + (b - a) == b && a * (b - a) == {};
  }

  // ---------------------------------------------------------------- scaling

  /** The source coordinate that destination coordinate `i` of `m` samples, of `n`. */
  function Src(i: nat, n: nat, m: nat): (k: nat)
    requires 1 <= n && i < m
    ensures k < n
  {
    SrcBounds(i, n, m);
    i * n / m
  }

  lemma Quotient(a: nat, m: nat)
    requires m > 0
    ensures (a / m) * m <= a < (a / m) * m + m
  {
  }

  lemma TimesMore(t: nat, q: nat, m: nat)
    ensures t < q ==> t * m + m <= q * m
  {
    TimesDiff(t, q, m);
  }

  lemma {:induction false} TimesDiff(t: nat, q: nat, m: nat)
    ensures t <= q ==> q * m == t * m + (q - t) * m && 0 <= (q - t) * m && (t < q ==> m <= (q - t) * m)
  {
    if t < q { TimesAtLeast(q - t, m); }
  }

  lemma {:induction false} TimesAtLeast(d: nat, m: nat)
    requires 1 <= d
    ensures m <= d * m
  {
    if d > 1 {
      TimesAtLeast(d - 1, m);
      assert d * m == (d - 1) * m + m;
    }
  }

  lemma SrcBounds(i: nat, n: nat, m: nat)
    requires 1 <= n && i < m
    ensures 0 <= i * n / m < n
  {
    Quotient(i * n, m);
    TimesMore(i, m, n);
    TimesMore(n, i * n / m, m);
  }

  /** What nearest-neighbour means: scaled down from `m` to `n`, coordinate `i` falls on `c`. */
  ghost predicate Falls(i: int, m: int, c: int, n: int) { c * m <= i * n < c * m + m }

  /** The sampled coordinate is the one the destination falls on, and there is only one. */
  lemma SrcFalls(i: nat, m: nat, c: int, n: nat)
    requires 1 <= n && i < m
    ensures Falls(i, m, Src(i, n, m), n)
    ensures Falls(i, m, c, n) ==> c == Src(i, n, m)
  {
    var q := Src(i, n, m);
    Quotient(i * n, m);
    if 0 <= c { TimesMore(c, q, m); TimesMore(q, c, m); } else { NegativeTimes(c, m); }
  }

  lemma NegativeTimes(c: int, m: nat)
    ensures c < 0 ==> c * m + m <= 0
  {
    if c < 0 { TimesMore(0, -c, m); assert (-c) * m == -(c * m); }
  }

  lemma SrcSteps(i: nat, n: nat, m: nat)
    requires 1 <= n <= m && i + 1 < m
    ensures Src(i, n, m) <= Src(i + 1, n, m) <= Src(i, n, m) + 1
  {
    var q, t := Src(i, n, m), Src(i + 1, n, m);
    Quotient(i * n, m);
    Quotient((i + 1) * n, m);
    assert (i + 1) * n == i * n + n;
    TimesMore(t, q, m);
    TimesMore(q, q + 1, m);
    TimesMore(q + 1, t, m);
  }

  lemma SrcEnds(n: nat, m: nat)
    requires 1 <= n && 1 <= m
    ensures Src(0, n, m) == 0
    ensures n <= m ==> Src(m - 1, n, m) == n - 1
    ensures n > m ==> Src(m - 1, n, m) < n - 1
  {
    var t := Src(m - 1, n, m);
    Quotient((m - 1) * n, m);
    assert (m - 1) * n == m * n - n;
    assert (n - 1) * m == n * m - m;
    TimesMore(t, n - 1, m);
  }

  lemma SrcMonotone(i: nat, j: nat, n: nat, m: nat)
    requires 1 <= n && i <= j < m
    ensures Src(i, n, m) <= Src(j, n, m)
  {
    var q, t := Src(i, n, m), Src(j, n, m);
    Quotient(i * n, m);
    Quotient(j * n, m);
    TimesMore(i, j, n);
    TimesMore(t, q, m);
  }

  ghost predicate Sizes(xs: seq<int>, sw: nat, sh: nat, dw: nat, dh: nat) {
    1 <= sw && 1 <= sh && 1 <= dw && 1 <= dh && |xs| == sw * sh
  }

  lemma InRow(x: nat, y: nat, w: nat, h: nat)
    requires x < w && y < h
    ensures y * w <= y * w + x < (y + 1) * w <= w * h
    ensures (y * w + x) / w == y && (y * w + x) % w == x
  {
    TimesMore(y, y + 1, w);
    TimesMore(y + 1, h, w);
    var k := y * w + x;
    Quotient(k, w);
    TimesMore(y, k / w, w);
    TimesMore(k / w, y, w);
  }

  lemma OfIndex(k: nat, w: nat, h: nat)
    requires k < w * h
    ensures w > 0 && k / w < h && k % w < w && k == (k / w) * w + k % w
  {
    assert w == 0 ==> w * h == 0;
    Quotient(k, w);
    TimesMore(h, k / w, w);
  }

  /** The source position that destination position `k` samples. */
  ghost function SamplePos(sw: nat, sh: nat, dw: nat, dh: nat, k: nat): (j: nat)
    requires 1 <= sw && 1 <= sh && k < dw * dh
    ensures j < sw * sh
  {
    OfIndex(k, dw, dh);
    var y, x := Src(k / dw, sh, dh), Src(k % dw, sw, dw);
    InRow(x, y, sw, sh);
    y * sw + x
  }

  ghost function SampleAt(xs: seq<int>, sw: nat, sh: nat, dw: nat, dh: nat, k: nat): int
    requires Sizes(xs, sw, sh, dw, dh) && k < dw * dh
  {
    xs[SamplePos(sw, sh, dw, dh, k)]
  }

  ghost function Scaled(xs: seq<int>, sw: nat, sh: nat, dw: nat, dh: nat): (r: seq<int>)
    requires Sizes(xs, sw, sh, dw, dh)
    ensures |r| == dw * dh
  {
    seq(dw * dh, k requires 0 <= k < dw * dh => SampleAt(xs, sw, sh, dw, dh, k))
  }

  ghost function RowOf(xs: seq<int>, w: nat, h: nat, y: nat): seq<int>
    requires |xs| == w * h && y < h
  {
    RowBounds(w, h, y);
    xs[y * w..(y + 1) * w]
  }

  lemma RowBounds(w: nat, h: nat, y: nat)
    requires y < h
    ensures y * w <= (y + 1) * w <= w * h && (y + 1) * w == y * w + w
  {
    TimesMore(y + 1, h, w);
  }

  /** The first `m` of the `dw` pixels a row is stretched to. */
  ghost function Stretched(row: seq<int>, dw: nat, m: nat): (r: seq<int>)
    requires 1 <= |row| && m <= dw
    ensures |r| == m
  {
    seq(m, i requires 0 <= i < m => row[Src(i, |row|, dw)])
  }

  lemma ScaledRow(xs: seq<int>, sw: nat, sh: nat, dw: nat, dh: nat, y: nat)
    requires Sizes(xs, sw, sh, dw, dh) && y < dh
    ensures |RowOf(xs, sw, sh, Src(y, sh, dh))| == sw
    ensures RowOf(Scaled(xs, sw, sh, dw, dh), dw, dh, y) == Stretched(RowOf(xs, sw, sh, Src(y, sh, dh)), dw, dw)
  {
    var g := Src(y, sh, dh);
    RowBounds(sw, sh, g);
    RowBounds(dw, dh, y);
    forall x | 0 <= x < dw
      ensures RowOf(Scaled(xs, sw, sh, dw, dh), dw, dh, y)[x] == Stretched(RowOf(xs, sw, sh, g), dw, dw)[x]
    {
      ScaledAt(xs, sw, sh, dw, dh, x, y);
    }
  }

  lemma ScaledAt(xs: seq<int>, sw: nat, sh: nat, dw: nat, dh: nat, x: nat, y: nat)
    requires Sizes(xs, sw, sh, dw, dh) && x < dw && y < dh
    ensures 0 <= y * dw + x < dw * dh && 0 <= Src(y, sh, dh) * sw + Src(x, sw, dw) < |xs|
    ensures Scaled(xs, sw, sh, dw, dh)[y * dw + x] == xs[Src(y, sh, dh) * sw + Src(x, sw, dw)]
  {
    InRow(x, y, dw, dh);
    InRow(Src(x, sw, dw), Src(y, sh, dh), sw, sh);
  }

  /** Scaling for any sizes: a pixel shows the source pixel that it falls on in both directions. */
  lemma ScaledFalls(xs: seq<int>, sw: nat, sh: nat, dw: nat, dh: nat, x: nat, y: nat, cx: int, cy: int)
    requires Sizes(xs, sw, sh, dw, dh) && x < dw && y < dh && Falls(x, dw, cx, sw) && Falls(y, dh, cy, sh)
    ensures 0 <= cx < sw && 0 <= cy < sh && 0 <= y * dw + x < dw * dh && 0 <= cy * sw + cx < |xs|
    ensures Scaled(xs, sw, sh, dw, dh)[y * dw + x] == xs[cy * sw + cx]
  {
    SrcFalls(x, dw, cx, sw);
    SrcFalls(y, dh, cy, sh);
    ScaledAt(xs, sw, sh, dw, dh, x, y);
  }

  lemma FallsOnQuotient(i: nat, n: nat, k: nat)
    requires 1 <= k && 1 <= n
    ensures Falls(i, k * n, i / k, n)
  {
    var q := i / k;
    Quotient(i, k);
    TimesDiff(q * k, i, n);
    TimesMore(i, q * k + k, n);
    assert q * (k * n) == q * k * n && (q * k + k) * n == q * k * n + k * n;
  }

  /** Enlarging by an integer factor: every pixel becomes a `k` by `k` square. */
  lemma EnlargedBy(xs: seq<int>, sw: nat, sh: nat, k: nat, x: nat, y: nat)
    requires 1 <= sw && 1 <= sh && 1 <= k && |xs| == sw * sh && x < k * sw && y < k * sh
    ensures 0 <= y * (k * sw) + x < (k * sw) * (k * sh) && 0 <= (y / k) * sw + x / k < |xs|
    ensures Scaled(xs, sw, sh, k * sw, k * sh)[y * (k * sw) + x] == xs[(y / k) * sw + x / k]
  {
    FallsOnQuotient(x, sw, k);
    FallsOnQuotient(y, sh, k);
    ScaledFalls(xs, sw, sh, k * sw, k * sh, x, y, x / k, y / k);
  }

  /** Stretching a row adds its colours in the same order. */
  lemma {:induction false} StretchPalette(pal: seq<int>, row: seq<int>, dw: nat, m: nat)
    requires 1 <= |row| <= dw && 1 <= m <= dw
    ensures PaletteOf(pal, Stretched(row, dw, m)) == PaletteOf(pal, row[..Src(m - 1, |row|, dw) + 1])
  {
    SrcEnds(|row|, dw);
    if m == 1 {
      assert Stretched(row, dw, 1) == row[..1];
    } else {
      var f, g := Src(m - 2, |row|, dw), Src(m - 1, |row|, dw);
      SrcSteps(m - 2, |row|, dw);
      StretchPalette(pal, row, dw, m - 1);
      assert Stretched(row, dw, m) == Stretched(row, dw, m - 1) + [row[g]];
      PaletteAppend(pal, Stretched(row, dw, m - 1), [row[g]]);
      if g == f {
        Grows(pal, row[..f + 1]);
        assert row[..f + 1][f] == row[g];
        NothingNew(PaletteOf(pal, row[..f + 1]), [row[g]]);
      } else {
        assert row[..g + 1] == row[..f + 1] + [row[g]];
        PaletteAppend(pal, row[..f + 1], [row[g]]);
      }
    }
  }

  /** The first `n` rows. */
  ghost function Top(xs: seq<int>, w: nat, h: nat, n: nat): seq<int>
    requires |xs| == w * h && n <= h
  {
    if n > 0 then RowBounds(w, h, n - 1); xs[..n * w] else []
  }

  lemma TopRow(xs: seq<int>, w: nat, h: nat, n: nat)
    requires |xs| == w * h && n < h
    ensures Top(xs, w, h, n + 1) == Top(xs, w, h, n) + RowOf(xs, w, h, n)
  {
    RowBounds(w, h, n);
    if n == 0 { assert 0 * w == 0; }
  }

  lemma TopAll(xs: seq<int>, w: nat, h: nat)
    requires |xs| == w * h
    ensures Top(xs, w, h, h) == xs
  {
  }

  /** A row of the enlargement adds what the row it samples would add. */
  lemma EnlargedRow(xs: seq<int>, sw: nat, sh: nat, dw: nat, dh: nat, y: nat)
    requires Sizes(xs, sw, sh, dw, dh) && sw <= dw && y < dh
    ensures var out := Scaled(xs, sw, sh, dw, dh);
            PaletteAfter(out, dw, dh, y + 1)
            == PaletteOf(PaletteAfter(out, dw, dh, y), RowOf(xs, sw, sh, Src(y, sh, dh)))
  {
    var out, row := Scaled(xs, sw, sh, dw, dh), RowOf(xs, sw, sh, Src(y, sh, dh));
    TopRow(out, dw, dh, y);
    PaletteAppend([], Top(out, dw, dh, y), RowOf(out, dw, dh, y));
    ScaledRow(xs, sw, sh, dw, dh, y);
    StretchPalette(PaletteOf([], Top(out, dw, dh, y)), row, dw, dw);
    SrcEnds(sw, dw);
    assert row[..sw] == row;
  }

  /** The palette after the first `n` rows. */
  ghost function PaletteAfter(xs: seq<int>, w: nat, h: nat, n: nat): seq<int>
    requires |xs| == w * h && n <= h
  {
    PaletteOf([], Top(xs, w, h, n))
  }

  lemma AfterRow(xs: seq<int>, w: nat, h: nat, n: nat)
    requires |xs| == w * h && n < h
    ensures PaletteAfter(xs, w, h, n + 1) == PaletteOf(PaletteAfter(xs, w, h, n), RowOf(xs, w, h, n))
    ensures PaletteOf(PaletteAfter(xs, w, h, n + 1), RowOf(xs, w, h, n)) == PaletteAfter(xs, w, h, n + 1)
  {
    TopRow(xs, w, h, n);
    PaletteAppend([], Top(xs, w, h, n), RowOf(xs, w, h, n));
    Grows(PaletteAfter(xs, w, h, n), RowOf(xs, w, h, n));
    NothingNew(PaletteAfter(xs, w, h, n + 1), RowOf(xs, w, h, n));
  }

  /** After row `y` of the enlargement the palette is the original's after the row
      it was sampled from. */
  lemma {:induction false} EnlargedPalette(xs: seq<int>, sw: nat, sh: nat, dw: nat, dh: nat, y: nat)
    requires Sizes(xs, sw, sh, dw, dh) && sw <= dw && sh <= dh && y < dh
    ensures PaletteAfter(Scaled(xs, sw, sh, dw, dh), dw, dh, y + 1) == PaletteAfter(xs, sw, sh, Src(y, sh, dh) + 1)
  {
    var g := Src(y, sh, dh);
    EnlargedRow(xs, sw, sh, dw, dh, y);
    AfterRow(xs, sw, sh, g);
    if y == 0 {
      SrcEnds(sh, dh);
      NoRows(xs, sw, sh);
      NoRows(Scaled(xs, sw, sh, dw, dh), dw, dh);
    } else {
      EnlargedPalette(xs, sw, sh, dw, dh, y - 1);
      SrcSteps(y - 1, sh, dh);
    }
  }

  lemma NoRows(xs: seq<int>, w: nat, h: nat)
    requires |xs| == w * h
    ensures PaletteAfter(xs, w, h, 0) == []
  {
  }

  ghost predicate SamePalette(xs: seq<int>, sw: nat, sh: nat, dw: nat, dh: nat)
    requires Sizes(xs, sw, sh, dw, dh)
  {
    PaletteOf([], Scaled(xs, sw, sh, dw, dh)) == PaletteOf([], xs)
  }

  /** Enlarging, by an integer factor or not, commutes with palette building: same
      palette, and the enlargement's index plane is the enlarged index plane. */
  lemma EnlargeCommutes(xs: seq<int>, sw: nat, sh: nat, dw: nat, dh: nat)
    requires Sizes(xs, sw, sh, dw, dh) && sw <= dw && sh <= dh
    ensures SamePalette(xs, sw, sh, dw, dh)
    ensures IndexPlane(Scaled(xs, sw, sh, dw, dh)) == Scaled(IndexPlane(xs), sw, sh, dw, dh)
  {
    EnlargedPalette(xs, sw, sh, dw, dh, dh - 1);
    SrcEnds(sh, dh);
    TopAll(Scaled(xs, sw, sh, dw, dh), dw, dh);
    TopAll(xs, sw, sh);
    ScaledPlane(xs, sw, sh, dw, dh);
  }

  lemma ScaledPlane(xs: seq<int>, sw: nat, sh: nat, dw: nat, dh: nat)
    requires Sizes(xs, sw, sh, dw, dh) && SamePalette(xs, sw, sh, dw, dh)
    ensures IndexPlane(Scaled(xs, sw, sh, dw, dh)) == Scaled(IndexPlane(xs), sw, sh, dw, dh)
  {
    forall k | 0 <= k < dw * dh
      ensures IndexPlane(Scaled(xs, sw, sh, dw, dh))[k] == Scaled(IndexPlane(xs), sw, sh, dw, dh)[k]
    {
      assert SamplePos(sw, sh, dw, dh, k) < |xs|;
    }
  }

  /** An image that is one colour except for its last pixel. */
  ghost function LastDiffers(n: nat): seq<int> {
    seq(n, k => if k + 1 == n then 1 else 0)
  }

  lemma LastNotSampled(sw: nat, sh: nat, dw: nat, dh: nat, k: nat)
    requires 1 <= sw && 1 <= sh && 1 <= dw && 1 <= dh && (dw < sw || dh < sh) && k < dw * dh
    ensures SampleAt(LastDiffers(sw * sh), sw, sh, dw, dh, k) == 0
  {
    OfIndex(k, dw, dh);
    var y, x := Src(k / dw, sh, dh), Src(k % dw, sw, dw);
    SrcEnds(sw, dw);
    SrcEnds(sh, dh);
    SrcMonotone(k / dw, dh - 1, sh, dh);
    SrcMonotone(k % dw, dw - 1, sw, dw);
    InRow(x, y, sw, sh);
    TimesMore(y + 1, sh, sw);
    TimesMore(y, y + 1, sw);
    if y == sh - 1 { assert sh * sw == (sh - 1) * sw + sw; }
  }

  lemma TwoDistinct(pal: seq<int>)
    ensures Distinct(pal) && |pal| > 1 ==> exists c :: c in pal && c != 0
  {
    if Distinct(pal) && |pal| > 1 { assert pal[0] in pal && pal[1] in pal; }
  }

  /** Shrinking either side loses the last pixel of that image, and its colour. */
  lemma ShrinkLoses(sw: nat, sh: nat, dw: nat, dh: nat)
    requires 1 <= sw && 1 <= sh && 1 <= dw && 1 <= dh && (dw < sw || dh < sh)
    ensures !SamePalette(LastDiffers(sw * sh), sw, sh, dw, dh)
  {
    var xs := LastDiffers(sw * sh);
    var out := Scaled(xs, sw, sh, dw, dh);
    forall k | 0 <= k < dw * dh ensures out[k] == 0 { LastNotSampled(sw, sh, dw, dh, k); }
    InRow(0, 0, sw, sh);
    Grows([], out);
    Grows([], xs);
    assert xs[sw * sh - 1] == 1;
    StaysDistinct([], out);
    var pal := PaletteOf([], out);
    assert forall c :: c in out ==> c == 0;
    TwoDistinct(pal);
    assert 1 in xs && 1 !in pal;
    assert Settled(PaletteOf([], xs), 1);
  }

  /** For the given sizes, palette building commutes with nearest-neighbour scaling
      on every image exactly when neither side shrinks. */
  lemma CommutesIffNotShrinking(sw: nat, sh: nat, dw: nat, dh: nat)
    requires 1 <= sw && 1 <= sh && 1 <= dw && 1 <= dh
    ensures (forall xs :: |xs| == sw * sh ==> SamePalette(xs, sw, sh, dw, dh)) <==> sw <= dw && sh <= dh
  {
    if sw <= dw && sh <= dh {
      forall xs: seq<int> | |xs| == sw * sh ensures SamePalette(xs, sw, sh, dw, dh) {
        EnlargeCommutes(xs, sw, sh, dw, dh);
      }
    } else {
      ShrinkLoses(sw, sh, dw, dh);
      assert |LastDiffers(sw * sh)| == sw * sh;
    }
  }
}
