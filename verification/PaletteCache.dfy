/** Mapping tile colours to palette slots (src/render_ass.c), with the two caches
    in front of it: one of colours per frame, one of palettes across frames. */
module PaletteCache {
  import opened Common

  const SLOTS: nat := 16
  const MAX_COLOR_CACHE: nat := 128
  const PALETTE_CACHE_SIZE: nat := 4

  // -------------------------------------------------------- nearest colour

  function Channel(c: int, unit: int): int
    requires unit > 0
  {
    (c / unit) % 256
  }

  /** Squared distance in RGB; the alpha byte does not count. */
  function Distance(a: int, b: int): (d: int)
    ensures 0 <= d <= 3 * 255 * 255
  {
    var dr, dg, db := Channel(a, 0x1_0000) - Channel(b, 0x1_0000), Channel(a, 0x100) - Channel(b, 0x100),
                      Channel(a, 1) - Channel(b, 1);
    SquareBound(dr); SquareBound(dg); SquareBound(db);
    dr * dr + dg * dg + db * db
  }

  lemma SquareBound(x: int)
    requires -255 <= x <= 255
    ensures 0 <= x * x <= 255 * 255
  {
    var y := if x < 0 then -x else x;
    assert x * x == y * y;
    Times(0, y, y);
    Times(y, 255, y);
  }

  lemma Times(a: nat, b: nat, m: nat)
    requires a <= b
    ensures a * m <= b * m
  {
    assert b * m == a * m + (b - a) * m;
  }

  /** A packed colour, alpha first. */
  function Packed(a: nat, r: nat, g: nat, b: nat): nat { ((a * 256 + r) * 256 + g) * 256 + b }

  lemma Digit(q: nat, d: nat)
    requires d < 256
    ensures (q * 256 + d) / 256 == q && (q * 256 + d) % 256 == d
  {
  }

  lemma ChannelsOf(a: nat, r: nat, g: nat, b: nat)
    requires r < 256 && g < 256 && b < 256
    ensures var c := Packed(a, r, g, b); Channel(c, 0x1_0000) == r && Channel(c, 0x100) == g && Channel(c, 1) == b
  {
    var c := Packed(a, r, g, b);
    Digit(a, r);
    Digit(a * 256 + r, g);
    Digit((a * 256 + r) * 256 + g, b);
    assert c / 0x1_0000 == c / 256 / 256 && c / 1 == c;
  }

  /** The distance of two packed colours is Euclidean in red, green and blue, whatever their alpha. */
  lemma DistanceIs(a: nat, r: nat, g: nat, b: nat, a': nat, r': nat, g': nat, b': nat)
    requires r < 256 && g < 256 && b < 256 && r' < 256 && g' < 256 && b' < 256
    ensures Distance(Packed(a, r, g, b), Packed(a', r', g', b'))
            == (r - r') * (r - r') + (g - g') * (g - g') + (b - b') * (b - b')
  {
    ChannelsOf(a, r, g, b);
    ChannelsOf(a', r', g', b');
  }

  /** Slot `k` is the first of the slots at minimal distance from `c`. */
  ghost predicate IsNearest(pal: seq<int>, c: int, k: int) {
    && 0 <= k < |pal|
    && (forall i :: 0 <= i < |pal| ==> Distance(c, pal[k]) <= Distance(c, pal[i]))
    && (forall i :: 0 <= i < k ==> Distance(c, pal[k]) < Distance(c, pal[i]))
  }

  function Nearest(pal: seq<int>, c: int): (k: int)
    requires pal != []
    ensures IsNearest(pal, c, k)
  {
    if |pal| == 1 then 0
    else
      var rest := |pal| - 1;
      var k := Nearest(pal[..rest], c);
      if Distance(c, pal[rest]) < Distance(c, pal[k]) then rest else k
  }

  lemma NearestUnique(pal: seq<int>, c: int, j: int, k: int)
    requires IsNearest(pal, c, j) && IsNearest(pal, c, k)
    ensures j == k
  {
    var dj, dk := Distance(c, pal[j]), Distance(c, pal[k]);
    assert !(j < k);
    assert !(k < j);
  }

  /** The scan of nearest_palette_index, from best = 1 at the largest int. */
  method NearestPaletteIndex(pal: seq<int>, c: int) returns (best: int)
    requires |pal| == SLOTS
    ensures best == Nearest(pal, c)
  {
    best := 1;
    var bestdiff, i := 0x7FFF_FFFF, 0;
    while i < |pal|
      invariant 0 <= i <= |pal|
      invariant i == 0 ==> bestdiff == 0x7FFF_FFFF
      invariant i > 0 ==> IsNearest(pal[..i], c, best) && bestdiff == Distance(c, pal[best])
    {
      var diff := Distance(c, pal[i]);
      if diff < bestdiff { bestdiff := diff; best := i; }
      i := i + 1;
    }
    assert pal[..i] == pal;
    NearestUnique(pal, c, best, Nearest(pal, c));
  }

  // ------------------------------------------- colour cache of one frame

  class ColourCache {
    const pal: seq<int>
    var rgba: array<int>
    var palidx: array<int>
    var len: nat
    var evict: nat

    ghost predicate Valid() reads this, rgba, palidx {
      && |pal| == SLOTS && rgba != palidx && rgba.Length == palidx.Length == MAX_COLOR_CACHE
      && len <= MAX_COLOR_CACHE && evict < MAX_COLOR_CACHE
      && forall i :: 0 <= i < len ==> palidx[i] == Nearest(pal, rgba[i])
    }

    constructor (pal: seq<int>)
      requires |pal| == SLOTS
      ensures Valid() && fresh(rgba) && fresh(palidx) && this.pal == pal && len == 0
    {
      this.pal := pal;
      rgba, palidx := new int[MAX_COLOR_CACHE], new int[MAX_COLOR_CACHE];
      len, evict := 0, 0;
    }

    /** A cached answer is what the search would give, through every eviction. */
    method Slot(colour: int) returns (k: int)
      requires Valid()
      modifies this`len, this`evict, rgba, palidx
      ensures Valid() && k == Nearest(pal, colour)
      ensures len == old(len) || len == old(len) + 1
    {
      var ci := 0;
      while ci < len
        invariant 0 <= ci <= len
        invariant Valid() && len == old(len)
      {
        if rgba[ci] == colour { return palidx[ci]; }
        ci := ci + 1;
      }
      k := NearestPaletteIndex(pal, colour);
      if len < MAX_COLOR_CACHE {
        rgba[len], palidx[len] := colour, k;
        len := len + 1;
      } else {
        rgba[evict], palidx[evict] := colour, k;
        evict := (evict + 1) % MAX_COLOR_CACHE;
      }
    }
  }

  // --------------------------------------- palette cache across frames

  datatype Entry = Entry(used: bool, mode: Option<string>, palette: seq<int>)

  /** The entry at `i` moved to the front. */
  function ToFront<T>(xs: seq<T>, i: nat): seq<T>
    requires i < |xs|
  {
    [xs[i]] + xs[..i] + xs[i + 1..]
  }

  /** Nothing is lost or doubled, and the others keep their order. */
  lemma ToFrontIs<T>(xs: seq<T>, i: nat)
    requires i < |xs|
    ensures ToFront(xs, i)[0] == xs[i] && multiset(ToFront(xs, i)) == multiset(xs)
    ensures ToFront(xs, i)[1..] == xs[..i] + xs[i + 1..]
  {
    assert xs == xs[..i] + ([xs[i]] + xs[i + 1..]);
  }

  /** `e` in front, the oldest entry dropped from a full cache. */
  function Pushed(e: Entry, xs: seq<Entry>): seq<Entry> {
    if |xs| < PALETTE_CACHE_SIZE then [e] + xs else [e] + xs[..PALETTE_CACHE_SIZE - 1]
  }

  /** `init` fills in the palette of a mode; the used slots come first. */
  class ModeCache {
    const init: Option<string> -> seq<int>
    const slots: array<Entry>
    ghost var entries: seq<Entry>

    ghost predicate Valid() reads this, slots {
      && slots.Length == PALETTE_CACHE_SIZE && |entries| <= PALETTE_CACHE_SIZE
      && slots[..|entries|] == entries
      && (forall i :: |entries| <= i < PALETTE_CACHE_SIZE ==> !slots[i].used)
      && (forall i :: 0 <= i < |entries| ==> entries[i].used && entries[i].palette == init(entries[i].mode))
    }

    constructor (init: Option<string> -> seq<int>)
      ensures Valid() && fresh(slots) && this.init == init && entries == []
    {
      this.init := init;
      slots := new Entry[PALETTE_CACHE_SIZE](_ => Entry(false, None, []));
      entries := [];
    }

    /** First critical section: look the mode up and move a hit to the front. */
    method Lookup(mode: Option<string>) returns (hit: Option<seq<int>>)
      requires Valid()
      modifies this, slots
      ensures Valid()
      ensures hit.None? ==> entries == old(entries) && forall i :: 0 <= i < |entries| ==> entries[i].mode != mode
      ensures hit.Some? ==> hit.value == init(mode)
      ensures hit.Some? ==> exists i :: 0 <= i < |old(entries)| && old(entries)[i].mode == mode
                                        && entries == ToFront(old(entries), i)
      ensures hit.Some? ==> entries != [] && entries[0].mode == mode && multiset(entries) == multiset(old(entries))
    {
      var ci := 0;
      while ci < PALETTE_CACHE_SIZE
        invariant 0 <= ci <= PALETTE_CACHE_SIZE && Valid()
        invariant entries == old(entries) && slots[..] == old(slots[..])
        invariant forall i :: 0 <= i < ci && i < |entries| ==> entries[i].mode != mode
      {
        if slots[ci].used && slots[ci].mode == mode {
          ToFrontIs(entries, ci);
          MoveToFront(ci);
          return Some(slots[0].palette);
        }
        ci := ci + 1;
      }
      return None;
    }

    method MoveToFront(i: nat)
      requires Valid() && i < |entries|
      modifies this, slots
      ensures Valid() && entries == ToFront(old(entries), i) && slots[0] == old(entries)[i]
    {
      var found := slots[i];
      Shift(i);
      slots[0] := found;
      entries := ToFront(entries, i);
      assert slots[..|entries|] == entries;
    }

    /** slots[1..to] := slots[0..to-1], from the back. */
    method Shift(to: nat)
      requires to < slots.Length
      modifies slots
      ensures forall i :: 0 < i <= to ==> slots[i] == old(slots[i - 1])
      ensures forall i :: to < i < slots.Length ==> slots[i] == old(slots[i])
    {
      var j := to;
      while j > 0
        invariant 0 <= j <= to
        invariant forall i :: j < i <= to ==> slots[i] == old(slots[i - 1])
        invariant forall i :: 0 <= i <= j || to < i < slots.Length ==> slots[i] == old(slots[i])
      {
        slots[j] := slots[j - 1];
        j := j - 1;
      }
    }

    /** Second critical section: insert in front, dropping the oldest when full. */
    method Insert(mode: Option<string>, palette: seq<int>)
      requires Valid() && palette == init(mode)
      modifies this, slots
      ensures Valid()
      ensures entries == Pushed(Entry(true, mode, palette), old(entries))
      ensures |entries| == Min(|old(entries)| + 1, 4) && entries[0].mode == mode
      ensures forall i :: 0 < i < |entries| ==> entries[i] == old(entries)[i - 1]
    {
      Shift(PALETTE_CACHE_SIZE - 1);
      slots[0] := Entry(true, mode, palette);
      entries := Pushed(slots[0], entries);
    }

    /** What a frame gets is the palette of its mode, whatever was cached. */
    method Get(mode: Option<string>, copied: bool) returns (palette: seq<int>)
      requires Valid()
      modifies this, slots
      ensures Valid() && palette == init(mode)
      ensures copied || mode.None? ==> entries != [] && entries[0].mode == mode
    {
      var hit := Lookup(mode);
      if hit.Some? { return hit.value; }
      palette := init(mode);
      if copied || mode.None? { Insert(mode, palette); }
    }
  }
}
