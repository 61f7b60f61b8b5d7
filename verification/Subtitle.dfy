/** make_subtitle and its clean-up (src/dvb_sub.c:98-120, 150-316) over the buffer pool:
    every allocation may fail, and every failure path gives back what it took. */
module Subtitle {
  import opened Common
  import opened BufferPool

  const DEFAULT_COLOURS := 16
  const PALETTE_ENTRIES := 256
  const UINT_MAX := 0xFFFF_FFFF

  /** A rendered bitmap; the index buffer may be missing, the palette too. */
  datatype Bitmap =
    Bitmap(x: int, y: int, w: int, h: int, colours: int, idx: Option<seq<int>>, palette: Option<seq<int>>)

  datatype Rect = Rect(x: int, y: int, w: nat, h: nat, colours: nat, plane: Ptr, palette: Ptr)

  datatype Sub = Sub(rect: Option<Rect>, duration: nat)

  /** Which allocations succeed: the three structures, the two planes, and the buckets that
      giving the planes back might need. */
  datatype Luck = Luck(sub: bool, rects: bool, rect: bool, plane: bool, palette: bool, bucket0: bool, bucket1: bool)

  predicate Empty(bm: Bitmap) { bm.w <= 0 || bm.h <= 0 || bm.idx.None? }

  function Colours(bm: Bitmap): (n: nat)
    ensures 1 <= n <= PALETTE_ENTRIES
  {
    if bm.colours <= 0 then DEFAULT_COLOURS else if bm.colours > PALETTE_ENTRIES then PALETTE_ENTRIES else bm.colours
  }

  function Duration(start: int, end: int): (d: nat)
    ensures 0 <= end - start <= UINT_MAX ==> d == end - start
    ensures end <= start ==> d == 0
    ensures end - start >= UINT_MAX ==> d == UINT_MAX
  {
    if end - start < 0 then 0 else if end - start > UINT_MAX then UINT_MAX else end - start
  }

  function Pixels(bm: Bitmap): nat
    requires !Empty(bm)
  {
    bm.w * bm.h
  }

  /** Buffers at least as long as their planes. */
  predicate LongEnough(bm: Bitmap)
    requires !Empty(bm)
  {
    Pixels(bm) <= |bm.idx.value| && (bm.palette.Some? ==> Colours(bm) * 4 <= |bm.palette.value|)
  }

  /** The palette plane: the bitmap's entries, or zeros without any. */
  function PalettePlane(bm: Bitmap): seq<int> {
    if bm.palette.Some? && Colours(bm) * 4 <= |bm.palette.value| then bm.palette.value[..Colours(bm) * 4]
    else Zeros(Colours(bm) * 4)
  }

  /** What the palette plane holds: four bytes for each of the declared colours, 16 if none are
      declared and 256 at most, copied from the bitmap or zero. */
  lemma PalettePlaneIs(bm: Bitmap)
    requires !Empty(bm) && LongEnough(bm)
    ensures var n := if bm.colours <= 0 then 16 else Min(bm.colours, 256);
            && Colours(bm) == n && |PalettePlane(bm)| == 4 * n
            && forall i :: 0 <= i < 4 * n ==>
                 PalettePlane(bm)[i] == if bm.palette.Some? then bm.palette.value[i] else 0
  {
  }

  /** The planes can be had, from the cache or the heap; they may share a bucket. */
  predicate PlanesAvailable(pixels: nat, paletteBytes: nat, cachedPlanes: nat, cachedPalettes: nat, luck: Luck) {
    && (luck.plane || cachedPlanes > 0)
    && (luck.palette || cachedPalettes > (if pixels == paletteBytes && cachedPlanes > 0 then 1 else 0))
  }

  predicate PlanesMade(bm: Bitmap, luck: Luck, cachedPlanes: nat, cachedPalettes: nat)
    requires !Empty(bm)
  {
    LongEnough(bm) && PlanesAvailable(Pixels(bm), Colours(bm) * 4, cachedPlanes, cachedPalettes, luck)
  }

  /** Bitmaps that a failure can make the pool cache a block shorter than a pointer for: an
      index plane of fewer than 8 pixels, or a one-colour palette that comes too short. */
  predicate Narrow(bm: Bitmap)
    requires !Empty(bm)
  {
    Pixels(bm) < LINK_BYTES || (ShortPalette(bm) && Pixels(bm) <= |bm.idx.value|)
  }

  predicate ShortPalette(bm: Bitmap) {
    Colours(bm) * 4 < LINK_BYTES && bm.palette.Some? && |bm.palette.value| < Colours(bm) * 4
  }

  predicate ShortBlock(p: Ptr, size: nat) { p != NIL && 0 < size < LINK_BYTES }

  class Maker {
    const pool: Pool
    var structs: nat  // AVSubtitle, rect array and rect currently allocated

    constructor (p: Pool)
      ensures pool == p && structs == 0
    {
      pool, structs := p, 0;
    }

    /** Every free list has room for two more blocks. */
    ghost predicate Uncrowded()
      reads this, pool
      requires pool.Valid()
    {
      forall s: nat :: |pool.Stack(s)| < MAX_PER_BUCKET - 1
    }

    /** free_sub_and_rects: the palette, then the index plane, each under its own size, then
        the three structures. */
    method FreeSubAndRects(r: Rect, luck: Luck)
      requires pool.Valid() && structs >= 3
      requires r.plane != NIL && r.w * r.h > 0 ==> r.plane in pool.Live() && |pool.Live()[r.plane]| == r.w * r.h
      requires r.palette != NIL && r.colours > 0 ==>
                 r.palette in pool.Live() && |pool.Live()[r.palette]| == r.colours * 4 && r.palette != r.plane
      modifies pool, this
      ensures pool.Valid() && structs == old(structs) - 3
      ensures pool.Live() == old(pool.Live()) - (if r.palette != NIL && r.colours > 0 then {r.palette} else {})
                                              - (if r.plane != NIL && r.w * r.h > 0 then {r.plane} else {})
      ensures pool.overran ==>
                || old(pool.overran)
                || ShortBlock(r.palette, r.colours * 4) || ShortBlock(r.plane, r.w * r.h)
      ensures (luck.bucket0 && luck.bucket1 && old(Uncrowded())
               && (ShortBlock(r.palette, r.colours * 4) || ShortBlock(r.plane, r.w * r.h))) ==> pool.overran
    {
      if r.palette != NIL { pool.Free(r.palette, r.colours * 4, luck.bucket1); }
      if r.plane != NIL { pool.Free(r.plane, r.w * r.h, luck.bucket0); }
      structs := structs - 3;
    }

    /** The clean-up while there are no planes yet. */
    method DropStructs(bm: Bitmap, luck: Luck)
      requires pool.Valid() && !Empty(bm) && structs >= 3
      modifies pool, this
      ensures pool.Valid() && structs == old(structs) - 3 && pool.Live() == old(pool.Live())
      ensures pool.overran ==> old(pool.overran)
    {
      FreeSubAndRects(Rect(bm.x, bm.y, bm.w, bm.h, Colours(bm), NIL, NIL), luck);
    }

    /** The clean-up while there is no palette yet. */
    method DropPlane(bm: Bitmap, plane: Ptr, luck: Luck)
      requires pool.Valid() && !Empty(bm) && structs >= 3
      requires plane != NIL && plane in pool.Live() && |pool.Live()[plane]| == Pixels(bm)
      modifies pool, this
      ensures pool.Valid() && structs == old(structs) - 3 && pool.Live() == old(pool.Live()) - {plane}
      ensures pool.overran ==> old(pool.overran) || Pixels(bm) < LINK_BYTES
      ensures luck.bucket0 && luck.bucket1 && old(Uncrowded()) && Pixels(bm) < LINK_BYTES ==> pool.overran
    {
      FreeSubAndRects(Rect(bm.x, bm.y, bm.w, bm.h, Colours(bm), plane, NIL), luck);
    }

    /** The index plane: allocated under its pixel count and filled; given back when the
        bitmap's own buffer is too short. */
    method MakePlane(bm: Bitmap, luck: Luck) returns (plane: Ptr)
      requires pool.Valid() && !Empty(bm) && structs >= 3
      modifies pool, this
      ensures pool.Valid() && structs == old(structs) - (if plane == NIL then 3 else 0)
      ensures plane != NIL <==> (luck.plane || old(pool.Stack(Pixels(bm))) != []) && Pixels(bm) <= |bm.idx.value|
      ensures plane == NIL ==> pool.Live() == old(pool.Live())
      ensures plane != NIL ==>
                plane !in old(pool.Live()) && pool.Live() == old(pool.Live())[plane := bm.idx.value[..Pixels(bm)]]
      ensures plane != NIL ==>
                && pool.overran == old(pool.overran)
                && forall s: nat ::
                     pool.Stack(s) == if s == Pixels(bm) && old(pool.Stack(s)) != [] then old(pool.Stack(s))[1..]
                                      else old(pool.Stack(s))
      ensures pool.overran ==> old(pool.overran) || Pixels(bm) < LINK_BYTES
      ensures (luck.plane && luck.bucket0 && luck.bucket1 && old(NothingCached())
               && plane == NIL && Pixels(bm) < LINK_BYTES) ==> pool.overran
    {
      var pixels := Pixels(bm);
      plane := pool.Alloc(pixels, luck.plane);
      if plane == NIL {
        DropStructs(bm, luck);
        return;
      }
      plane := KeepPlane(bm, plane, luck);
    }

    /** The plane just allocated: filled, or given back when the bitmap's own buffer is too short. */
    method KeepPlane(bm: Bitmap, plane: Ptr, luck: Luck) returns (kept: Ptr)
      requires pool.Valid() && !Empty(bm) && structs >= 3
      requires plane != NIL && plane in pool.Live() && |pool.Live()[plane]| == Pixels(bm)
      modifies pool, this
      ensures pool.Valid() && structs == old(structs) - (if kept == NIL then 3 else 0)
      ensures kept == if Pixels(bm) <= |bm.idx.value| then plane else NIL
      ensures pool.Live() == if kept == NIL then old(pool.Live()) - {plane}
                             else old(pool.Live())[plane := bm.idx.value[..Pixels(bm)]]
      ensures kept != NIL ==> pool.overran == old(pool.overran) && forall s: nat :: pool.Stack(s) == old(pool.Stack(s))
      ensures pool.overran ==> old(pool.overran) || Pixels(bm) < LINK_BYTES
      ensures (kept == NIL && luck.bucket0 && luck.bucket1
               && old(Uncrowded()) && Pixels(bm) < LINK_BYTES) ==> pool.overran
    {
      if |bm.idx.value| < Pixels(bm) {
        DropPlane(bm, plane, luck);
        return NIL;
      }
      pool.Fill(plane, bm.idx.value[..Pixels(bm)]);
      kept := plane;
    }

    /** The palette plane beside an index plane `plane`, which a failure gives back too. */
    method MakePalette(bm: Bitmap, plane: Ptr, luck: Luck) returns (palette: Ptr)
      requires pool.Valid() && !Empty(bm) && plane != NIL && plane in pool.Live() && |pool.Live()[plane]| == Pixels(bm)
      requires structs >= 3
      modifies pool, this
      ensures pool.Valid() && structs == old(structs) - (if palette == NIL then 3 else 0)
      ensures palette != NIL <==> (luck.palette || old(pool.Stack(Colours(bm) * 4)) != [])
                                  && (bm.palette.Some? ==> Colours(bm) * 4 <= |bm.palette.value|)
      ensures palette == NIL ==> pool.Live() == old(pool.Live()) - {plane}
      ensures palette != NIL ==>
                palette !in old(pool.Live()) && pool.Live() == old(pool.Live())[palette := PalettePlane(bm)]
      ensures palette != NIL ==> pool.overran == old(pool.overran)
      ensures pool.overran ==> old(pool.overran) || Pixels(bm) < LINK_BYTES || ShortPalette(bm)
      ensures (luck.bucket0 && luck.bucket1 && old(Uncrowded()) && palette == NIL
               && (Pixels(bm) < LINK_BYTES || (luck.palette && ShortPalette(bm)))) ==> pool.overran
    {
      var n := Colours(bm);
      palette := pool.Alloc(n * 4, luck.palette);
      if palette == NIL {
        DropPlane(bm, plane, luck);
        return;
      }
      if bm.palette.None? { return; }
      if |bm.palette.value| < n * 4 {
        FreeSubAndRects(Rect(bm.x, bm.y, bm.w, bm.h, n, plane, palette), luck);
        assert pool.Live() == old(pool.Live()) - {plane};
        return NIL;
      }
      pool.Fill(palette, bm.palette.value[..n * 4]);
    }

    /** Both planes, or neither. */
    method MakePlanes(bm: Bitmap, luck: Luck) returns (plane: Ptr, palette: Ptr)
      requires pool.Valid() && !Empty(bm) && structs >= 3
      modifies pool, this
      ensures pool.Valid()
      ensures palette == NIL <==>
                !PlanesMade(bm, luck, |old(pool.Stack(Pixels(bm)))|, |old(pool.Stack(Colours(bm) * 4))|)
      ensures palette == NIL ==> pool.Live() == old(pool.Live()) && structs == old(structs) - 3
      ensures palette != NIL ==>
                && structs == old(structs) && plane != NIL && plane != palette
                && plane !in old(pool.Live()) && palette !in old(pool.Live())
                && pool.Live() == old(pool.Live())[plane := bm.idx.value[..Pixels(bm)]][palette := PalettePlane(bm)]
      ensures palette != NIL ==> pool.overran == old(pool.overran)
      ensures pool.overran ==> old(pool.overran) || Narrow(bm)
      ensures Narrow(bm) && luck == Unlucky(bm) && old(NothingCached()) ==> pool.overran
    {
      palette := NIL;
      plane := MakePlane(bm, luck);
      if plane == NIL { return; }
      ghost var mid := pool.Live();
      palette := MakePalette(bm, plane, luck);
      if palette == NIL { assert mid - {plane} == old(pool.Live()); }
    }

    ghost predicate NothingCached()
      reads this, pool
      requires pool.Valid()
    {
      forall s: nat :: pool.Stack(s) == []
    }

    /** make_subtitle: a failure leaves every block and structure as it was; success keeps one
        structure for an empty bitmap, and three structures and exactly the two planes, filled
        from the bitmap, for any other.  Only for a narrow bitmap can a link overrun a block. */
    method MakeSubtitle(bm: Bitmap, start: int, end: int, luck: Luck) returns (sub: Option<Sub>)
      requires pool.Valid()
      modifies pool, this
      ensures pool.Valid()
      ensures Empty(bm) ==> (sub.Some? <==> luck.sub)
      ensures !Empty(bm) ==>
                (sub.Some? <==> luck.sub && luck.rects && luck.rect
                                && PlanesMade(bm, luck, |old(pool.Stack(Pixels(bm)))|,
                                              |old(pool.Stack(Colours(bm) * 4))|))
      ensures sub.None? ==> pool.Live() == old(pool.Live()) && structs == old(structs)
      ensures sub.Some? ==> sub.value.duration == Duration(start, end)
      ensures sub.Some? ==> (sub.value.rect.None? <==> bm.w <= 0 || bm.h <= 0 || bm.idx.None?)
      ensures sub.Some? && Empty(bm) ==> pool.Live() == old(pool.Live()) && structs == old(structs) + 1
      ensures sub.Some? && !Empty(bm) ==>
                var r := sub.value.rect.value;
                && structs == old(structs) + 3 && r.plane != r.palette
                && r == Rect(bm.x, bm.y, bm.w, bm.h, Colours(bm), r.plane, r.palette)
                && r.plane !in old(pool.Live()) && r.palette !in old(pool.Live())
                && pool.Live() == old(pool.Live())[r.plane := bm.idx.value[..Pixels(bm)]][r.palette := PalettePlane(bm)]
      ensures pool.overran ==> old(pool.overran) || (!Empty(bm) && Narrow(bm))
      ensures !Empty(bm) && Narrow(bm) && luck == Unlucky(bm) && old(NothingCached()) ==> pool.overran
    {
      if !luck.sub { return None; }
      structs := structs + 1;
      if Empty(bm) { return Some(Sub(None, Duration(start, end))); }
      if !luck.rects {
        structs := structs - 1;
        return None;
      }
      structs := structs + 1;
      if !luck.rect {
        structs := structs - 2;
        return None;
      }
      structs := structs + 1;
      var plane, palette := MakePlanes(bm, luck);
      if palette == NIL { return None; }
      sub := Some(Sub(Some(Rect(bm.x, bm.y, bm.w, bm.h, Colours(bm), plane, palette)), Duration(start, end)));
    }
  }

  /** Only the palette allocation fails, and that only when the plane is the short block. */
  function Unlucky(bm: Bitmap): Luck
    requires !Empty(bm)
  {
    Luck(true, true, true, true, Pixels(bm) >= LINK_BYTES, true, true)
  }

  /** Every narrow bitmap has a failure, on a fresh pool, whose clean-up overruns a block. */
  method NarrowOverruns(bm: Bitmap, start: int, end: int) returns (sub: Option<Sub>, overran: bool)
    requires !Empty(bm)
    ensures Narrow(bm) <==> overran
  {
    var pool := new Pool();
    var maker := new Maker(pool);
    sub := maker.MakeSubtitle(bm, start, end, Unlucky(bm));
    overran := maker.pool.overran;
  }
}
