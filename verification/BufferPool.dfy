/** The exact-size buffer pool of src/pool_alloc.c:95-215.  Blocks are pointers into a
    modelled heap; the free-list link the source keeps inside a cached block is a side map.
    Whether av_mallocz succeeds is a parameter. */
module BufferPool {
  import opened Common

  type Ptr = nat
  const NIL: Ptr := 0
  const MAX_PER_BUCKET := 32
  const LINK_BYTES := 8  // sizeof(void *), what the free-list link takes of a cached block

  datatype Bucket = Bucket(size: nat, head: Ptr, count: nat)

  function Zeros(n: nat): (r: seq<int>)
    ensures |r| == n
  {
    seq(n, _ => 0)
  }

  /** Following `link` from `head` visits exactly `list`. */
  ghost predicate Linked(link: map<Ptr, Ptr>, head: Ptr, list: seq<Ptr>)
    decreases |list|
  {
    if list == [] then head == NIL
    else head != NIL && head == list[0] && head in link && Linked(link, link[head], list[1..])
  }

  lemma {:induction false} LinkedKept(link: map<Ptr, Ptr>, more: map<Ptr, Ptr>, head: Ptr, list: seq<Ptr>)
    requires Linked(link, head, list) && forall p :: p in list ==> p in link && p in more && more[p] == link[p]
    ensures Linked(more, head, list)
    decreases |list|
  {
    if list != [] {
      forall p | p in list[1..] ensures p in link && p in more && more[p] == link[p] { assert p in list; }
      LinkedKept(link, more, link[head], list[1..]);
    }
  }

  ghost predicate Cached(lists: seq<seq<Ptr>>, p: Ptr) { exists b :: 0 <= b < |lists| && p in lists[b] }

  /** Bucket `b` and its free list: count is its length, at most 32, every block in it is
      allocated and of the bucket's size. */
  ghost predicate BucketOk(mem: map<Ptr, seq<int>>, link: map<Ptr, Ptr>, b: Bucket, list: seq<Ptr>) {
    && b.size > 0 && b.count == |list| <= MAX_PER_BUCKET && NoDup(list) && Linked(link, b.head, list)
    && forall p :: p in list ==> p != NIL && p in link && p in mem && |mem[p]| == b.size
  }

  ghost predicate PoolOk(mem: map<Ptr, seq<int>>, link: map<Ptr, Ptr>, buckets: seq<Bucket>, lists: seq<seq<Ptr>>) {
    && |buckets| == |lists| && NIL !in mem
    && (forall b :: 0 <= b < |buckets| ==> BucketOk(mem, link, buckets[b], lists[b]))
    && (forall a, b :: 0 <= a < b < |buckets| ==> buckets[a].size != buckets[b].size)
  }

  /** A cached block is in one list only: lists of different buckets hold different sizes. */
  lemma OneList(mem: map<Ptr, seq<int>>, link: map<Ptr, Ptr>, buckets: seq<Bucket>, lists: seq<seq<Ptr>>,
                a: nat, b: nat, p: Ptr)
    requires PoolOk(mem, link, buckets, lists) && a < |lists| && b < |lists|
    ensures p in lists[a] && p in lists[b] ==> a == b
  {
    assert BucketOk(mem, link, buckets[a], lists[a]) && BucketOk(mem, link, buckets[b], lists[b]);
  }

  /** Popping the head of bucket `b` and zeroing it. */
  lemma PopOk(mem: map<Ptr, seq<int>>, link: map<Ptr, Ptr>, buckets: seq<Bucket>, lists: seq<seq<Ptr>>, b: nat)
    requires PoolOk(mem, link, buckets, lists) && b < |buckets| && lists[b] != []
    ensures var p := lists[b][0];
            && !Cached(lists[b := lists[b][1..]], p)
            && p in link && p in mem
            && PoolOk(mem[p := Zeros(buckets[b].size)], link,
                      buckets[b := Bucket(buckets[b].size, link[p], buckets[b].count - 1)], lists[b := lists[b][1..]])
  {
    var p, size := lists[b][0], buckets[b].size;
    assert BucketOk(mem, link, buckets[b], lists[b]);
    var mem2, lists2 := mem[p := Zeros(size)], lists[b := lists[b][1..]];
    var buckets2 := buckets[b := Bucket(size, link[p], buckets[b].count - 1)];
    forall a | 0 <= a < |lists2| ensures p !in lists2[a] && BucketOk(mem2, link, buckets2[a], lists2[a]) {
      assert BucketOk(mem, link, buckets[a], lists[a]);
      OneList(mem, link, buckets, lists, a, b, p);
    }
  }

  /** Pushing a block nobody caches onto bucket `b`. */
  lemma PushOk(mem: map<Ptr, seq<int>>, link: map<Ptr, Ptr>, buckets: seq<Bucket>, lists: seq<seq<Ptr>>, b: nat, p: Ptr)
    requires PoolOk(mem, link, buckets, lists) && b < |buckets| && buckets[b].count < MAX_PER_BUCKET
    requires p != NIL && p in mem && !Cached(lists, p) && |mem[p]| == buckets[b].size
    ensures PoolOk(mem, link[p := buckets[b].head],
                   buckets[b := Bucket(buckets[b].size, p, buckets[b].count + 1)], lists[b := [p] + lists[b]])
  {
    var link2 := link[p := buckets[b].head];
    var buckets2, lists2 := buckets[b := Bucket(buckets[b].size, p, buckets[b].count + 1)], lists[b := [p] + lists[b]];
    forall a | 0 <= a < |lists2| ensures BucketOk(mem, link2, buckets2[a], lists2[a]) {
      assert BucketOk(mem, link, buckets[a], lists[a]);
      LinkedKept(link, link2, buckets[a].head, lists[a]);
      if a == b { assert lists2[b][1..] == lists[b]; }
    }
  }

  lemma NewBucketOk(mem: map<Ptr, seq<int>>, link: map<Ptr, Ptr>, buckets: seq<Bucket>, lists: seq<seq<Ptr>>, size: nat)
    requires PoolOk(mem, link, buckets, lists) && size > 0 && forall b :: 0 <= b < |buckets| ==> buckets[b].size != size
    ensures PoolOk(mem, link, [Bucket(size, NIL, 0)] + buckets, [[]] + lists)
    ensures forall p :: Cached([[]] + lists, p) ==> Cached(lists, p)
  {
    var buckets2, lists2 := [Bucket(size, NIL, 0)] + buckets, [[]] + lists;
    forall a | 0 <= a < |lists2| ensures BucketOk(mem, link, buckets2[a], lists2[a]) {
      if a > 0 { assert BucketOk(mem, link, buckets[a - 1], lists[a - 1]); }
    }
    forall p | Cached(lists2, p) ensures Cached(lists, p) {
      var a :| 0 <= a < |lists2| && p in lists2[a];
      assert a > 0 && p in lists[a - 1];
    }
  }

  /** Giving up a block nobody caches, or gaining a new one, leaves the pool alone. */
  lemma HeapChangeOk(mem: map<Ptr, seq<int>>, mem2: map<Ptr, seq<int>>, link: map<Ptr, Ptr>,
                     buckets: seq<Bucket>, lists: seq<seq<Ptr>>)
    requires PoolOk(mem, link, buckets, lists) && NIL !in mem2
    requires forall p :: Cached(lists, p) && p in mem ==> p in mem2 && mem2[p] == mem[p]
    ensures PoolOk(mem2, link, buckets, lists)
  {
    forall a | 0 <= a < |lists| ensures BucketOk(mem2, link, buckets[a], lists[a]) {
      assert BucketOk(mem, link, buckets[a], lists[a]);
      forall p | p in lists[a] ensures p in mem2 && |mem2[p]| == buckets[a].size { assert Cached(lists, p); }
    }
  }

  ghost function LiveOf(mem: map<Ptr, seq<int>>, lists: seq<seq<Ptr>>): map<Ptr, seq<int>> {
    map p | p in mem && !Cached(lists, p) :: mem[p]
  }

  /** A popped block is the one block that joins those in use; a pushed one leaves them. */
  lemma PopLive(mem: map<Ptr, seq<int>>, lists: seq<seq<Ptr>>, b: nat, bytes: seq<int>)
    requires b < |lists| && lists[b] != [] && !Cached(lists[b := lists[b][1..]], lists[b][0])
    ensures LiveOf(mem[lists[b][0] := bytes], lists[b := lists[b][1..]]) == LiveOf(mem, lists)[lists[b][0] := bytes]
    ensures LiveOf(mem - {lists[b][0]}, lists[b := lists[b][1..]]) == LiveOf(mem, lists)
    ensures lists[b][0] !in LiveOf(mem, lists)
  {
    PopCached(lists, b);
    assert lists[b][0] in lists[b];
    assert Cached(lists, lists[b][0]);
  }

  lemma PushLive(mem: map<Ptr, seq<int>>, lists: seq<seq<Ptr>>, b: nat, p: Ptr)
    requires b < |lists|
    ensures LiveOf(mem, lists[b := [p] + lists[b]]) == LiveOf(mem, lists) - {p}
  {
    PushCached(lists, b, p);
  }

  predicate HasSize(buckets: seq<Bucket>, b: int, size: nat) { 0 <= b < |buckets| && buckets[b].size == size }

  /** The free list of a size, last returned first. */
  ghost function StackOf(buckets: seq<Bucket>, lists: seq<seq<Ptr>>, size: nat): seq<Ptr>
    requires |buckets| == |lists|
  {
    if exists b :: HasSize(buckets, b, size) then var b :| HasSize(buckets, b, size); lists[b] else []
  }

  predicate SizesApart(buckets: seq<Bucket>) {
    forall a, b :: 0 <= a < b < |buckets| ==> buckets[a].size != buckets[b].size
  }

  lemma StackAt(buckets: seq<Bucket>, lists: seq<seq<Ptr>>, b: nat)
    requires |buckets| == |lists| && SizesApart(buckets) && b < |buckets|
    ensures StackOf(buckets, lists, buckets[b].size) == lists[b]
  {
    assert HasSize(buckets, b, buckets[b].size);
  }

  lemma StackUpdates(buckets: seq<Bucket>, lists: seq<seq<Ptr>>, b: nat, bk: Bucket, list: seq<Ptr>)
    requires |buckets| == |lists| && SizesApart(buckets) && b < |buckets| && bk.size == buckets[b].size
    ensures forall s: nat ::
              StackOf(buckets[b := bk], lists[b := list], s)
              == if s == bk.size then list else StackOf(buckets, lists, s)
  {
    var now, ls := buckets[b := bk], lists[b := list];
    StackAt(now, ls, b);
    forall s: nat | s != bk.size ensures StackOf(now, ls, s) == StackOf(buckets, lists, s) {
      if a :| HasSize(buckets, a, s) {
        assert HasSize(now, a, s);
        StackAt(buckets, lists, a);
        StackAt(now, ls, a);
      } else {
        forall a ensures !HasSize(now, a, s) { assert !HasSize(buckets, a, s); }
      }
    }
  }

  lemma StackPushed(buckets: seq<Bucket>, lists: seq<seq<Ptr>>, bk: Bucket)
    requires |buckets| == |lists| && SizesApart(buckets) && SizesApart([bk] + buckets)
    ensures forall s: nat ::
              StackOf([bk] + buckets, [[]] + lists, s)
              == if s == bk.size then [] else StackOf(buckets, lists, s)
    ensures StackOf(buckets, lists, bk.size) == []
  {
    var now, ls := [bk] + buckets, [[]] + lists;
    StackAt(now, ls, 0);
    forall a ensures !HasSize(buckets, a, bk.size) {
      assert HasSize(buckets, a, bk.size) ==> HasSize(now, a + 1, bk.size);
    }
    forall s: nat | s != bk.size ensures StackOf(now, ls, s) == StackOf(buckets, lists, s) {
      if a :| HasSize(buckets, a, s) {
        assert HasSize(now, a + 1, s);
        StackAt(now, ls, a + 1);
        StackAt(buckets, lists, a);
      } else {
        forall a ensures !HasSize(now, a, s) { assert !HasSize(buckets, a - 1, s); }
      }
    }
  }

  lemma NoStack(buckets: seq<Bucket>, lists: seq<seq<Ptr>>, size: nat)
    requires |buckets| == |lists| && forall b :: 0 <= b < |buckets| ==> buckets[b].size != size
    ensures StackOf(buckets, lists, size) == []
  {
    forall b ensures !HasSize(buckets, b, size) { }
  }

  class Pool {
    var mem: map<Ptr, seq<int>>
    var link: map<Ptr, Ptr>
    var buckets: seq<Bucket>
    var next: Ptr
    var overran: bool  // a link has been written past the end of a block
    ghost var lists: seq<seq<Ptr>>

    ghost predicate Valid()
      reads this
    {
      PoolOk(mem, link, buckets, lists) && NIL < next && forall p :: p in mem ==> p < next
    }

    /** The blocks in somebody's hands, with their contents. */
    ghost function Live(): map<Ptr, seq<int>>
      reads this
    {
      LiveOf(mem, lists)
    }

    ghost function Stack(size: nat): seq<Ptr>
      reads this
      requires Valid()
    {
      StackOf(buckets, lists, size)
    }

    constructor ()
      ensures Valid() && Live() == map[] && !overran && forall size: nat :: Stack(size) == []
    {
      mem, link, buckets, next, overran, lists := map[], map[], [], 1, false, [];
    }

    /** find_bucket_unlocked */
    method FindBucket(size: nat) returns (found: Option<nat>)
      requires Valid()
      ensures found.Some? ==>
                && found.value < |buckets| && buckets[found.value].size == size
                && lists[found.value] == Stack(size)
      ensures found.None? ==> Stack(size) == [] && forall b :: 0 <= b < |buckets| ==> buckets[b].size != size
    {
      var i := 0;
      while i < |buckets|
        invariant 0 <= i <= |buckets| && forall b :: 0 <= b < i ==> buckets[b].size != size
      {
        if buckets[i].size == size { StackAt(buckets, lists, i); return Some(i); }
        i := i + 1;
      }
      NoStack(buckets, lists, size);
      found := None;
    }

    /** pool_alloc: the block last returned under this size, or a new one; zeroed, and in
        nobody's hands before. */
    method Alloc(size: nat, ok: bool) returns (p: Ptr)
      requires Valid()
      modifies this
      ensures Valid()
      ensures overran == old(overran)
      ensures p == NIL <==> size == 0 || (old(Stack(size)) == [] && !ok)
      ensures p == NIL ==> unchanged(this)
      ensures p != NIL ==> p !in old(Live()) && Live() == old(Live())[p := Zeros(size)]
      ensures forall s: nat ::
                Stack(s) == if s == size && old(Stack(s)) != [] then old(Stack(s))[1..] else old(Stack(s))
      ensures old(Stack(size)) != [] && size > 0 ==> p == old(Stack(size))[0]
    {
      if size == 0 { NoZero(); return NIL; }
      var found := FindBucket(size);
      if found.Some? && buckets[found.value].head != NIL {
        p := Pop(found.value);
        StackUpdates(old(buckets), old(lists), found.value, buckets[found.value], lists[found.value]);
      } else {
        if found.Some? { HeadNil(found.value); }
        if !ok { return NIL; }
        p := Mallocz(size);
      }
    }

    lemma NoZero()
      requires Valid()
      ensures Stack(0) == []
    {
      forall b | 0 <= b < |buckets| ensures buckets[b].size != 0 { assert BucketOk(mem, link, buckets[b], lists[b]); }
      NoStack(buckets, lists, 0);
    }

    lemma HeadNil(b: nat)
      requires Valid() && b < |buckets|
      ensures buckets[b].head == NIL <==> lists[b] == []
    {
      assert BucketOk(mem, link, buckets[b], lists[b]);
    }

    method Mallocz(size: nat) returns (p: Ptr)
      requires Valid() && size > 0
      modifies this
      ensures Valid() && p !in old(mem) && p != NIL && Live() == old(Live())[p := Zeros(size)]
      ensures buckets == old(buckets) && lists == old(lists) && overran == old(overran)
    {
      p := next;
      NotCached(p);
      HeapChangeOk(mem, mem[p := Zeros(size)], link, buckets, lists);
      mem, next := mem[p := Zeros(size)], next + 1;
    }

    lemma NotCached(p: Ptr)
      requires Valid() && p !in mem
      ensures !Cached(lists, p)
    {
      forall b | 0 <= b < |lists| ensures p !in lists[b] { assert BucketOk(mem, link, buckets[b], lists[b]); }
    }

    method Pop(b: nat) returns (p: Ptr)
      requires Valid() && b < |buckets| && buckets[b].head != NIL
      modifies this
      ensures Valid() && |buckets| == |old(buckets)|
      ensures old(lists)[b] != [] && p == old(lists)[b][0] && p != NIL && p !in old(Live())
      ensures Live() == old(Live())[p := Zeros(old(buckets)[b].size)]
      ensures buckets == old(buckets)[b := Bucket(old(buckets)[b].size, buckets[b].head, buckets[b].count)]
      ensures lists == old(lists)[b := old(lists)[b][1..]] && overran == old(overran)
    {
      assert BucketOk(mem, link, buckets[b], lists[b]);
      PopOk(mem, link, buckets, lists, b);
      p := buckets[b].head;
      var bk := Bucket(buckets[b].size, link[p], buckets[b].count - 1);
      PopLive(mem, lists, b, Zeros(buckets[b].size));
      mem := mem[p := Zeros(buckets[b].size)];
      buckets, lists := buckets[b := bk], lists[b := lists[b][1..]];
    }

    ghost predicate HasBucket(size: nat)
      reads this
    {
      exists b :: 0 <= b < |buckets| && buckets[b].size == size
    }

    /** pool_free: the block goes on top of the list of its size while that list is short and
        has, or can be given, a bucket; otherwise back to the heap.  Either way it leaves its
        owner's hands, and no other block changes.  The link overruns the block exactly when a
        block shorter than a pointer is kept. */
    method Free(p: Ptr, size: nat, ok: bool)
      requires Valid() && (p != NIL && size > 0 ==> p in Live() && |mem[p]| == size)
      modifies this
      ensures Valid()
      ensures p == NIL || size == 0 ==> unchanged(this)
      ensures p != NIL && size > 0 ==> Live() == old(Live()) - {p}
      ensures p != NIL && size > 0 ==>
                var kept := (ok || old(HasBucket(size))) && |old(Stack(size))| < 32;
                && (p in mem <==> kept) && (overran <==> old(overran) || (kept && size < 8))
                && forall s: nat :: Stack(s) == (if s == size && kept then [p] else []) + old(Stack(s))
    {
      if p == NIL || size == 0 { return; }
      var found := FindBucket(size);
      if found.None? {
        if !ok { Release(p); return; }
        NewBucket(size);
        found := Some(0);
      }
      FullStack(found.value);
      StackAt(buckets, lists, found.value);
      if buckets[found.value].count < MAX_PER_BUCKET { Push(found.value, p); } else { Release(p); }
    }

    lemma FullStack(b: nat)
      requires Valid() && b < |buckets|
      ensures buckets[b].count == |lists[b]|
    {
      assert BucketOk(mem, link, buckets[b], lists[b]);
    }

    /** memcpy over a whole block in use. */
    method Fill(p: Ptr, bytes: seq<int>)
      requires Valid() && p in Live() && |bytes| == |mem[p]|
      modifies this`mem
      ensures Valid() && Live() == old(Live())[p := bytes]
    {
      HeapChangeOk(mem, mem[p := bytes], link, buckets, lists);
      mem := mem[p := bytes];
    }

    /** av_free */
    method Release(p: Ptr)
      requires Valid() && p in Live()
      modifies this`mem
      ensures Valid() && Live() == old(Live()) - {p}
    {
      HeapChangeOk(mem, mem - {p}, link, buckets, lists);
      mem := mem - {p};
    }

    method NewBucket(size: nat)
      requires Valid() && size > 0 && forall b :: 0 <= b < |buckets| ==> buckets[b].size != size
      modifies this`buckets, this`lists
      ensures Valid() && Live() == old(Live()) && buckets != [] && buckets[0] == Bucket(size, NIL, 0) && lists[0] == []
      ensures forall s: nat :: Stack(s) == old(Stack(s))
    {
      NewBucketOk(mem, link, buckets, lists, size);
      forall q | Cached(lists, q) ensures Cached([[]] + lists, q) {
        var b :| 0 <= b < |lists| && q in lists[b];
        assert ([[]] + lists)[b + 1] == lists[b];
      }
      StackPushed(buckets, lists, Bucket(size, NIL, 0));
      buckets, lists := [Bucket(size, NIL, 0)] + buckets, [[]] + lists;
    }

    method Push(b: nat, p: Ptr)
      requires Valid() && b < |buckets| && buckets[b].count < MAX_PER_BUCKET
      requires p in Live() && |mem[p]| == buckets[b].size
      modifies this
      ensures Valid() && Live() == old(Live()) - {p} && p in mem
      ensures overran <==> old(overran) || old(buckets)[b].size < LINK_BYTES
      ensures forall s: nat :: Stack(s) == if s == old(buckets)[b].size then [p] + old(Stack(s)) else old(Stack(s))
    {
      PushOk(mem, link, buckets, lists, b, p);
      StackAt(buckets, lists, b);
      var bk := Bucket(buckets[b].size, p, buckets[b].count + 1);
      StackUpdates(buckets, lists, b, bk, [p] + lists[b]);
      PushLive(mem, lists, b, p);
      overran := overran || |mem[p]| < LINK_BYTES;
      link := link[p := buckets[b].head];
      buckets, lists := buckets[b := bk], lists[b := [p] + lists[b]];
    }

    /** One turn of the inner loop: free the first cached block of the first bucket. */
    method FreeHead()
      requires Valid() && buckets != [] && buckets[0].head != NIL
      modifies this
      ensures Valid() && Live() == old(Live())
      ensures |buckets| == |old(buckets)| && buckets[0].count < old(buckets)[0].count
    {
      assert BucketOk(mem, link, buckets[0], lists[0]);
      PopOk(mem, link, buckets, lists, 0);
      PopLive(mem, lists, 0, []);
      var p := buckets[0].head;
      var bk := Bucket(buckets[0].size, link[p], buckets[0].count - 1);
      HeapChangeOk(mem[p := Zeros(buckets[0].size)], mem - {p}, link, buckets[0 := bk], lists[0 := lists[0][1..]]);
      mem, buckets, lists := mem - {p}, buckets[0 := bk], lists[0 := lists[0][1..]];
    }

    method DropBucket()
      requires Valid() && buckets != [] && buckets[0].head == NIL
      modifies this
      ensures Valid() && Live() == old(Live()) && buckets == old(buckets)[1..]
    {
      HeadNil(0);
      TailOk(mem, link, buckets, lists);
      buckets, lists := buckets[1..], lists[1..];
    }

    /** pool_destroy: every cached block and every bucket is freed; blocks in use are kept. */
    method Destroy()
      requires Valid()
      modifies this
      ensures Valid() && buckets == [] && Live() == old(Live()) && mem == old(Live())
    {
      while buckets != []
        invariant Valid() && Live() == old(Live())
        decreases |buckets|
      {
        var n := |buckets|;
        while buckets[0].head != NIL
          invariant Valid() && Live() == old(Live()) && |buckets| == n > 0
          decreases buckets[0].count
        {
          FreeHead();
        }
        DropBucket();
      }
    }
  }

  lemma TailOk(mem: map<Ptr, seq<int>>, link: map<Ptr, Ptr>, buckets: seq<Bucket>, lists: seq<seq<Ptr>>)
    requires PoolOk(mem, link, buckets, lists) && buckets != [] && lists[0] == []
    ensures PoolOk(mem, link, buckets[1..], lists[1..])
    ensures forall q :: Cached(lists[1..], q) <==> Cached(lists, q)
  {
    forall a | 0 <= a < |lists[1..]| ensures BucketOk(mem, link, buckets[1..][a], lists[1..][a]) {
      assert BucketOk(mem, link, buckets[a + 1], lists[a + 1]);
    }
    forall q ensures Cached(lists[1..], q) <==> Cached(lists, q) {
      if Cached(lists, q) { var a :| 0 <= a < |lists| && q in lists[a]; assert q in lists[1..][a - 1]; }
      if Cached(lists[1..], q) { var a :| 0 <= a < |lists[1..]| && q in lists[1..][a]; assert q in lists[a + 1]; }
    }
  }

  lemma PushCached(lists: seq<seq<Ptr>>, b: nat, p: Ptr)
    requires b < |lists|
    ensures forall q :: Cached(lists[b := [p] + lists[b]], q) <==> Cached(lists, q) || q == p
  {
    var now := lists[b := [p] + lists[b]];
    forall q ensures Cached(now, q) <==> Cached(lists, q) || q == p {
      if Cached(now, q) { var a :| 0 <= a < |now| && q in now[a]; assert q in lists[a] || q == p; }
      if Cached(lists, q) { var a :| 0 <= a < |lists| && q in lists[a]; assert q in now[a]; }
      if q == p { assert p in now[b]; }
    }
  }

  lemma PopCached(lists: seq<seq<Ptr>>, b: nat)
    requires b < |lists| && lists[b] != []
    ensures forall q :: q != lists[b][0] ==> (Cached(lists[b := lists[b][1..]], q) <==> Cached(lists, q))
  {
    var now := lists[b := lists[b][1..]];
    assert lists[b] == [lists[b][0]] + lists[b][1..];
    forall q | q != lists[b][0] ensures Cached(now, q) <==> Cached(lists, q) {
      if Cached(now, q) { var a :| 0 <= a < |now| && q in now[a]; assert q in lists[a]; }
      if Cached(lists, q) { var a :| 0 <= a < |lists| && q in lists[a]; assert q in now[a]; }
    }
  }
}
