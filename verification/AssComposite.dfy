/** Compositing the coverage tiles of one libass frame into an indexed bitmap
    (src/render_ass.c, render_ass_frame).  The two pixel planes are indexed by row
    and column. */
module AssComposite {
  import opened Common
  import opened PaletteCache

  const INT_MAX := 0x7FFF_FFFF
  const INT_MIN := -0x8000_0000
  const MAX_TILE_PIXELS := 10_000_000

  type coverage = c: int | 0 <= c < 256

  datatype Tile = Tile(w: int, h: int, stride: int, dstX: int, dstY: int, colour: int,
                       bitmap: Option<seq<coverage>>)

  /** render_ass_validate_image_tile. */
  predicate ValidTile(t: Tile) {
    && t.bitmap.Some? && t.w > 0 && t.h > 0 && t.stride > 0 && t.stride >= t.w
    && 0 < t.stride * t.h <= MAX_TILE_PIXELS
  }

  /** What libass guarantees of a tile: its coordinates are ints, and a bitmap
      covers its rows. */
  predicate FromLibass(t: Tile) {
    && INT_MIN <= t.dstX && INT_MIN <= t.dstY && t.dstX + t.w <= INT_MAX && t.dstY + t.h <= INT_MAX
    && (ValidTile(t) ==> |t.bitmap.value| >= t.stride * (t.h - 1) + t.w)
  }

  lemma RowFits(t: Tile, yy: int, xx: int)
    requires FromLibass(t) && ValidTile(t) && 0 <= yy < t.h && 0 <= xx < t.w
    ensures 0 <= yy * t.stride + xx < |t.bitmap.value|
  {
    var n := t.h - 1 - yy;
    assert t.stride * (t.h - 1) == yy * t.stride + n * t.stride;
    assert n * t.stride >= 0 && yy * t.stride >= 0;
  }

  function Sample(t: Tile, yy: int, xx: int): coverage
    requires FromLibass(t) && ValidTile(t) && 0 <= yy < t.h && 0 <= xx < t.w
  {
    RowFits(t, yy, xx);
    t.bitmap.value[yy * t.stride + xx]
  }

  ghost predicate Covers(t: Tile, x: int, y: int) {
    ValidTile(t) && t.dstX <= x < t.dstX + t.w && t.dstY <= y < t.dstY + t.h
  }

  /** The coverage a tile gives the surface pixel (x, y). */
  ghost function Cov(t: Tile, x: int, y: int): coverage
    requires FromLibass(t)
  {
    if Covers(t, x, y) then Sample(t, y - t.dstY, x - t.dstX) else 0
  }

  /** The byte of a tile's bitmap that row `yy`, column `xx` stands for. */
  ghost function CoverageByte(t: Tile, yy: int, xx: int): Option<int> {
    if t.bitmap.Some? && 0 <= yy * t.stride + xx < |t.bitmap.value| then Some(t.bitmap.value[yy * t.stride + xx])
    else None
  }

  /** A valid tile covers its own rectangle with its bytes, row `yy` from byte `yy * stride` on,
      however wide the tile is; outside, or from an invalid tile, there is no coverage. */
  lemma CovIs(t: Tile, x: int, y: int)
    requires FromLibass(t)
    ensures if ValidTile(t) && 0 <= x - t.dstX < t.w && 0 <= y - t.dstY < t.h
            then CoverageByte(t, y - t.dstY, x - t.dstX) == Some(Cov(t, x, y)) else Cov(t, x, y) == 0
  {
    if Covers(t, x, y) { RowFits(t, y - t.dstY, x - t.dstX); }
  }

  // ------------------------------------------------------------ the union box

  datatype Box = Box(minx: int, miny: int, maxx: int, maxy: int)

  ghost predicate Inside(t: Tile, b: Box) {
    b.minx <= t.dstX && b.miny <= t.dstY && t.dstX + t.w <= b.maxx && t.dstY + t.h <= b.maxy
  }

  ghost predicate Drawn(t: Tile) {
    t.w > 0 && t.h > 0
  }

  /** `b` is the least box that contains the non-degenerate ones of the first `n` tiles. */
  ghost predicate UnionBox(tiles: seq<Tile>, n: nat, b: Box)
    requires n <= |tiles|
  {
    && (forall i :: 0 <= i < n && Drawn(tiles[i]) ==> Inside(tiles[i], b))
    && (exists i :: 0 <= i < n && Drawn(tiles[i]) && tiles[i].dstX == b.minx)
    && (exists i :: 0 <= i < n && Drawn(tiles[i]) && tiles[i].dstY == b.miny)
    && (exists i :: 0 <= i < n && Drawn(tiles[i]) && tiles[i].dstX + tiles[i].w == b.maxx)
    && (exists i :: 0 <= i < n && Drawn(tiles[i]) && tiles[i].dstY + tiles[i].h == b.maxy)
  }

  ghost predicate AnyDrawn(tiles: seq<Tile>, n: nat)
    requires n <= |tiles|
  {
    exists i :: 0 <= i < n && Drawn(tiles[i])
  }

  method BoundingBox(tiles: seq<Tile>) returns (b: Box)
    requires forall i :: 0 <= i < |tiles| ==> FromLibass(tiles[i])
    ensures AnyDrawn(tiles, |tiles|) ==> UnionBox(tiles, |tiles|, b) && b.minx < b.maxx && b.miny < b.maxy
    ensures !AnyDrawn(tiles, |tiles|) ==> b.minx > b.maxx
  {
    b := Box(INT_MAX, INT_MAX, INT_MIN, INT_MIN);
    var n := 0;
    while n < |tiles|
      invariant 0 <= n <= |tiles|
      invariant !AnyDrawn(tiles, n) ==> b == Box(INT_MAX, INT_MAX, INT_MIN, INT_MIN)
      invariant AnyDrawn(tiles, n) ==> UnionBox(tiles, n, b)
    {
      var t := tiles[n];
      if t.w > 0 && t.h > 0 {
        assert Drawn(tiles[n]);
        if t.dstX < b.minx { b := b.(minx := t.dstX); }
        if t.dstY < b.miny { b := b.(miny := t.dstY); }
        if t.dstX + t.w > b.maxx { b := b.(maxx := t.dstX + t.w); }
        if t.dstY + t.h > b.maxy { b := b.(maxy := t.dstY + t.h); }
      }
      n := n + 1;
    }
    if AnyDrawn(tiles, n) { var i :| 0 <= i < n && Drawn(tiles[i]); assert Inside(tiles[i], b); }
  }

  // -------------------------------------------------------- the winning tile

  ghost function BestCov(tiles: seq<Tile>, n: nat, x: int, y: int): coverage
    requires n <= |tiles| && forall i :: 0 <= i < n ==> FromLibass(tiles[i])
  {
    if n == 0 then 0
    else
      var before, c := BestCov(tiles, n - 1, x, y), Cov(tiles[n - 1], x, y);
      if c > before then c else before
  }

  /** The palette slot of the tile that set the pixel last, 0 if none did. */
  ghost function BestSlot(tiles: seq<Tile>, n: nat, pal: seq<int>, x: int, y: int): int
    requires n <= |tiles| && pal != [] && forall i :: 0 <= i < n ==> FromLibass(tiles[i])
  {
    if n == 0 then 0
    else if Cov(tiles[n - 1], x, y) > BestCov(tiles, n - 1, x, y) then Nearest(pal, tiles[n - 1].colour)
    else BestSlot(tiles, n - 1, pal, x, y)
  }

  /** Tile `i` is the earliest of those with the greatest, non-zero coverage. */
  ghost predicate Wins(tiles: seq<Tile>, n: nat, x: int, y: int, i: nat)
    requires n <= |tiles| && forall i :: 0 <= i < n ==> FromLibass(tiles[i])
  {
    && i < n && Cov(tiles[i], x, y) > 0
    && (forall j :: 0 <= j < i ==> Cov(tiles[j], x, y) < Cov(tiles[i], x, y))
    && (forall j :: i < j < n ==> Cov(tiles[j], x, y) <= Cov(tiles[i], x, y))
  }

  lemma {:induction false} BestIs(tiles: seq<Tile>, n: nat, pal: seq<int>, x: int, y: int) returns (i: nat)
    requires n <= |tiles| && pal != [] && forall k :: 0 <= k < n ==> FromLibass(tiles[k])
    ensures if BestCov(tiles, n, x, y) == 0
            then BestSlot(tiles, n, pal, x, y) == 0 && forall j :: 0 <= j < n ==> Cov(tiles[j], x, y) == 0
            else && Wins(tiles, n, x, y, i) && BestCov(tiles, n, x, y) == Cov(tiles[i], x, y)
                 && BestSlot(tiles, n, pal, x, y) == Nearest(pal, tiles[i].colour)
  {
    i := 0;
    if n > 0 {
      i := BestIs(tiles, n - 1, pal, x, y);
      if Cov(tiles[n - 1], x, y) > BestCov(tiles, n - 1, x, y) { i := n - 1; }
    }
  }

  /** The pixel rule: the slot of the winning tile, or 0 where no tile covers. */
  lemma OneWinner(tiles: seq<Tile>, n: nat, x: int, y: int, i: nat, j: nat)
    requires n <= |tiles| && (forall k :: 0 <= k < |tiles| ==> FromLibass(tiles[k]))
    requires Wins(tiles, n, x, y, i) && Wins(tiles, n, x, y, j)
    ensures i == j
  {
    var ci, cj := Cov(tiles[i], x, y), Cov(tiles[j], x, y);
    assert !(i < j);
    assert !(j < i);
  }

  lemma PixelRule(tiles: seq<Tile>, pal: seq<int>, x: int, y: int)
    requires pal != [] && forall k :: 0 <= k < |tiles| ==> FromLibass(tiles[k])
    ensures forall i: nat :: Wins(tiles, |tiles|, x, y, i) ==>
              BestSlot(tiles, |tiles|, pal, x, y) == Nearest(pal, tiles[i].colour)
    ensures (forall i :: 0 <= i < |tiles| ==> Cov(tiles[i], x, y) == 0) ==>
              BestSlot(tiles, |tiles|, pal, x, y) == 0
    ensures || (exists i: nat :: Wins(tiles, |tiles|, x, y, i))
            || (forall i :: 0 <= i < |tiles| ==> Cov(tiles[i], x, y) == 0)
  {
    var w := BestIs(tiles, |tiles|, pal, x, y);
    forall i: nat | Wins(tiles, |tiles|, x, y, i)
      ensures BestSlot(tiles, |tiles|, pal, x, y) == Nearest(pal, tiles[i].colour)
    {
      OneWinner(tiles, |tiles|, x, y, i, w);
    }
  }

  // ------------------------------------------------------------ rasterising

  ghost predicate Planes(idx: array2<int>, cov: array2<coverage>, b: Box) {
    && b.minx <= b.maxx && b.miny <= b.maxy
    && idx.Length0 == cov.Length0 == b.maxy - b.miny && idx.Length1 == cov.Length1 == b.maxx - b.minx
  }

  /** One row of a tile, with the source's own bounds test on every pixel. */
  method BlendRow(t: Tile, slot: int, yy: int, idx: array2<int>, cov: array2<coverage>, b: Box)
    requires FromLibass(t) && ValidTile(t) && 0 <= yy < t.h && Inside(t, b) && Planes(idx, cov, b)
    modifies idx, cov
    ensures forall r, c :: 0 <= r < idx.Length0 && 0 <= c < idx.Length1 ==>
              if b.miny + r == t.dstY + yy
              then Merged(t, slot, b, r, c, old(idx[r, c]), old(cov[r, c]), idx[r, c], cov[r, c])
              else idx[r, c] == old(idx[r, c]) && cov[r, c] == old(cov[r, c])
  {
    var xx := 0;
    while xx < t.w
      invariant 0 <= xx <= t.w
      invariant forall r, c :: 0 <= r < idx.Length0 && 0 <= c < idx.Length1 ==>
                  if b.miny + r == t.dstY + yy && b.minx + c < t.dstX + xx
                  then Merged(t, slot, b, r, c, old(idx[r, c]), old(cov[r, c]), idx[r, c], cov[r, c])
                  else idx[r, c] == old(idx[r, c]) && cov[r, c] == old(cov[r, c])
    {
      var v := Sample(t, yy, xx);
      if v > 0 {
        var dx, dy := t.dstX + xx - b.minx, t.dstY + yy - b.miny;
        if 0 <= dx < b.maxx - b.minx && 0 <= dy < b.maxy - b.miny {
          if v > cov[dy, dx] { cov[dy, dx] := v; idx[dy, dx] := slot; }
        }
      }
      xx := xx + 1;
    }
  }

  /** The old and new contents of a pixel agree with one tile being drawn over it. */
  ghost predicate Merged(t: Tile, slot: int, b: Box, r: int, c: int, i0: int, c0: coverage, i1: int, c1: coverage)
    requires FromLibass(t)
  {
    var v := Cov(t, b.minx + c, b.miny + r);
    if v > c0 then i1 == slot && c1 == v else i1 == i0 && c1 == c0
  }

  method BlendTile(t: Tile, slot: int, idx: array2<int>, cov: array2<coverage>, b: Box)
    requires FromLibass(t) && ValidTile(t) && Inside(t, b) && Planes(idx, cov, b)
    modifies idx, cov
    ensures forall r, c :: 0 <= r < idx.Length0 && 0 <= c < idx.Length1 ==>
              Merged(t, slot, b, r, c, old(idx[r, c]), old(cov[r, c]), idx[r, c], cov[r, c])
  {
    var yy := 0;
    while yy < t.h
      invariant 0 <= yy <= t.h
      invariant forall r, c :: 0 <= r < idx.Length0 && 0 <= c < idx.Length1 ==>
                  if b.miny + r < t.dstY + yy
                  then Merged(t, slot, b, r, c, old(idx[r, c]), old(cov[r, c]), idx[r, c], cov[r, c])
                  else idx[r, c] == old(idx[r, c]) && cov[r, c] == old(cov[r, c])
    {
      BlendRow(t, slot, yy, idx, cov, b);
      yy := yy + 1;
    }
  }

  ghost predicate Composed(tiles: seq<Tile>, n: nat, pal: seq<int>, b: Box, idx: array2<int>, cov: array2<coverage>)
    requires n <= |tiles| && pal != [] && forall i :: 0 <= i < n ==> FromLibass(tiles[i])
    reads idx, cov
  {
    forall r, c :: 0 <= r < idx.Length0 && 0 <= c < idx.Length1 && r < cov.Length0 && c < cov.Length1 ==>
      && cov[r, c] == BestCov(tiles, n, b.minx + c, b.miny + r)
      && idx[r, c] == BestSlot(tiles, n, pal, b.minx + c, b.miny + r)
  }

  lemma OneMore(tiles: seq<Tile>, n: nat, pal: seq<int>, x: int, y: int)
    requires n < |tiles| && pal != [] && forall i :: 0 <= i <= n ==> FromLibass(tiles[i])
    ensures !ValidTile(tiles[n]) ==>
              && BestCov(tiles, n + 1, x, y) == BestCov(tiles, n, x, y)
              && BestSlot(tiles, n + 1, pal, x, y) == BestSlot(tiles, n, pal, x, y)
  {
  }

  /** Draw tile `n` with a slot the cache has answered. */
  method DrawTile(tiles: seq<Tile>, n: nat, slot: int, ghost pal: seq<int>, b: Box,
                  idx: array2<int>, cov: array2<coverage>)
    requires n < |tiles| && pal != [] && slot == Nearest(pal, tiles[n].colour)
    requires forall i :: 0 <= i < |tiles| ==> FromLibass(tiles[i])
    requires UnionBox(tiles, |tiles|, b) && Planes(idx, cov, b) && Composed(tiles, n, pal, b, idx, cov)
    modifies idx, cov
    ensures Composed(tiles, n + 1, pal, b, idx, cov)
  {
    if ValidTile(tiles[n]) {
      assert Drawn(tiles[n]);
      BlendTile(tiles[n], slot, idx, cov, b);
    } else {
      forall x, y { OneMore(tiles, n, pal, x, y); }
    }
  }

  /** One turn of the loop over the tiles: ask the cache for the slot, then draw. */
  method DrawNext(tiles: seq<Tile>, n: nat, b: Box, cache: ColourCache, idx: array2<int>, cov: array2<coverage>)
    requires n < |tiles| && (forall i :: 0 <= i < |tiles| ==> FromLibass(tiles[i])) && cache.Valid()
    requires UnionBox(tiles, |tiles|, b) && Planes(idx, cov, b) && Composed(tiles, n, cache.pal, b, idx, cov)
    modifies cache, cache.rgba, cache.palidx, idx, cov
    ensures cache.Valid() && cache.rgba == old(cache.rgba) && cache.palidx == old(cache.palidx)
    ensures Composed(tiles, n + 1, cache.pal, b, idx, cov)
  {
    var slot := cache.Slot(tiles[n].colour);
    DrawTile(tiles, n, slot, cache.pal, b, idx, cov);
  }

  method DrawTiles(tiles: seq<Tile>, b: Box, cache: ColourCache) returns (idx: array2<int>)
    requires forall i :: 0 <= i < |tiles| ==> FromLibass(tiles[i])
    requires UnionBox(tiles, |tiles|, b) && b.minx < b.maxx && b.miny < b.maxy && cache.Valid()
    modifies cache, cache.rgba, cache.palidx
    ensures fresh(idx) && idx.Length0 == b.maxy - b.miny && idx.Length1 == b.maxx - b.minx
    ensures forall r, c :: 0 <= r < idx.Length0 && 0 <= c < idx.Length1 ==>
              idx[r, c] == BestSlot(tiles, |tiles|, cache.pal, b.minx + c, b.miny + r)
  {
    idx := new int[b.maxy - b.miny, b.maxx - b.minx]((_, _) => 0);
    var cov := new coverage[b.maxy - b.miny, b.maxx - b.minx]((_, _) => 0);
    var n := 0;
    while n < |tiles|
      invariant 0 <= n <= |tiles| && cache.Valid() && fresh(idx) && fresh(cov)
      invariant cache.rgba == old(cache.rgba) && cache.palidx == old(cache.palidx)
      invariant Planes(idx, cov, b) && Composed(tiles, n, cache.pal, b, idx, cov)
    {
      DrawNext(tiles, n, b, cache, idx, cov);
      n := n + 1;
    }
  }

  /** A whole frame: nothing when no tile has an area, else the union box filled by
      the pixel rule, with the palette of the mode. */
  method RenderFrame(tiles: seq<Tile>, modes: ModeCache, mode: Option<string>, copied: bool)
      returns (drawn: bool, b: Box, idx: array2<int>, palette: seq<int>)
    requires forall i :: 0 <= i < |tiles| ==> FromLibass(tiles[i])
    requires modes.Valid() && forall m :: |modes.init(m)| == SLOTS
    modifies modes, modes.slots
    ensures modes.Valid() && (drawn <==> AnyDrawn(tiles, |tiles|))
    ensures drawn ==> palette == modes.init(mode) && UnionBox(tiles, |tiles|, b)
    ensures drawn ==> idx.Length0 == b.maxy - b.miny && idx.Length1 == b.maxx - b.minx
    ensures drawn ==> forall r, c :: 0 <= r < idx.Length0 && 0 <= c < idx.Length1 ==>
              idx[r, c] == BestSlot(tiles, |tiles|, modes.init(mode), b.minx + c, b.miny + r)
  {
    b := BoundingBox(tiles);
    if b.minx > b.maxx || b.miny > b.maxy {
      idx := new int[0, 0];
      return false, b, idx, [];
    }
    palette := modes.Get(mode, copied);
    var cache := new ColourCache(palette);
    idx := DrawTiles(tiles, b, cache);
    drawn := true;
  }

  /** A pixel of a frame with this tile alone, from the tile's bytes: its slot where the bitmap
      has coverage; nothing for a tile without bitmap, too large, or with rows that overlap. */
  ghost function Shown(t: Tile, slot: int, yy: int, xx: int): int {
    if t.bitmap.None? || t.stride < t.w || t.stride * t.h > 10_000_000 || CoverageByte(t, yy, xx) == Some(0) then 0
    else slot
  }

  lemma TileShown(t: Tile, pal: seq<int>, yy: int, xx: int)
    requires FromLibass(t) && pal != [] && 0 <= yy < t.h && 0 <= xx < t.w
    ensures BestSlot([t], 1, pal, t.dstX + xx, t.dstY + yy) == Shown(t, Nearest(pal, t.colour), yy, xx)
  {
    assert BestCov([t], 0, t.dstX + xx, t.dstY + yy) == 0;
    CovIs(t, t.dstX + xx, t.dstY + yy);
    if !ValidTile(t) { LargeOrBad(t); }
  }

  lemma LargeOrBad(t: Tile)
    requires t.w > 0 && t.h > 0 && !ValidTile(t)
    ensures t.bitmap.None? || t.stride < t.w || t.stride * t.h > 10_000_000
  {
    if t.stride >= t.w { assert 0 < t.stride * t.h; }
  }

  /** The frame of a single tile. */
  method RenderOneTile(t: Tile, modes: ModeCache, mode: Option<string>, copied: bool)
      returns (drawn: bool, b: Box, idx: array2<int>)
    requires FromLibass(t) && modes.Valid() && forall m :: |modes.init(m)| == SLOTS
    modifies modes, modes.slots
    ensures modes.Valid() && (drawn <==> t.w > 0 && t.h > 0)
    ensures drawn ==> b == Box(t.dstX, t.dstY, t.dstX + t.w, t.dstY + t.h)
    ensures drawn ==> idx.Length0 == t.h && idx.Length1 == t.w
    ensures drawn ==> forall yy, xx :: 0 <= yy < t.h && 0 <= xx < t.w ==>
              idx[yy, xx] == Shown(t, Nearest(modes.init(mode), t.colour), yy, xx)
  {
    var palette;
    drawn, b, idx, palette := RenderFrame([t], modes, mode, copied);
    if drawn { FrameShown(t, modes.init(mode), b, idx); } else { assert !Drawn([t][0]); }
  }

  lemma FrameShown(t: Tile, pal: seq<int>, b: Box, idx: array2<int>)
    requires FromLibass(t) && pal != [] && UnionBox([t], 1, b)
    requires idx.Length0 == b.maxy - b.miny && idx.Length1 == b.maxx - b.minx
    requires forall r, c :: 0 <= r < idx.Length0 && 0 <= c < idx.Length1 ==>
               idx[r, c] == BestSlot([t], 1, pal, b.minx + c, b.miny + r)
    ensures t.w > 0 && t.h > 0 && b == Box(t.dstX, t.dstY, t.dstX + t.w, t.dstY + t.h)
    ensures forall yy, xx :: 0 <= yy < t.h && 0 <= xx < t.w ==> idx[yy, xx] == Shown(t, Nearest(pal, t.colour), yy, xx)
  {
    forall yy, xx | 0 <= yy < t.h && 0 <= xx < t.w ensures idx[yy, xx] == Shown(t, Nearest(pal, t.colour), yy, xx) {
      TileShown(t, pal, yy, xx);
    }
  }

  /** Every pixel that a valid tile covers lies inside the box. */
  lemma TilesInsideBox(tiles: seq<Tile>, b: Box, i: nat, x: int, y: int)
    requires i < |tiles| && UnionBox(tiles, |tiles|, b) && Covers(tiles[i], x, y)
    ensures b.minx <= x < b.maxx && b.miny <= y < b.maxy
  {
    assert Drawn(tiles[i]);
  }
}
