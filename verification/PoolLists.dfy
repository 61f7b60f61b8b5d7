/** The pool's two intrusive linked lists and the critical sections that walk
    them.  Each method is proved to do to the lists' contents what its
    counterpart in PoolJobs does to two sequences. */
module PoolLists {
  import opened Common
  import opened PoolJobs

  datatype Ptr = Null | To(job: JobId)

  function PtrAt(xs: seq<JobId>, i: nat): Ptr {
    if i < |xs| then To(xs[i]) else Null
  }

  /** From `p`, the links `next` spell out the cells of `xs` from `k` on. */
  ghost predicate Chain(next: map<JobId, Ptr>, p: Ptr, xs: seq<JobId>, k: nat) {
    && p == PtrAt(xs, k)
    && forall i :: k <= i < |xs| ==> xs[i] in next && next[xs[i]] == PtrAt(xs, i + 1)
  }

  /** Unlinking the cell at `i` from a duplicate-free chain. */
  lemma ChainWithout(next: map<JobId, Ptr>, p: Ptr, xs: seq<JobId>, i: nat)
    requires Chain(next, p, xs, 0) && NoDup(xs) && i < |xs|
    ensures Without(xs, {xs[i]}) == xs[..i] + xs[i + 1..]
    ensures i == 0 ==> Chain(next, next[xs[0]], Without(xs, {xs[0]}), 0)
    ensures i > 0 ==> Chain(next[xs[i - 1] := next[xs[i]]], p, Without(xs, {xs[i]}), 0)
  {
    WithoutOne(xs, i);
    ChainBypass(next, p, xs, xs[..i] + xs[i + 1..], i);
  }

  lemma ChainBypass(next: map<JobId, Ptr>, p: Ptr, xs: seq<JobId>, ys: seq<JobId>, i: nat)
    requires Chain(next, p, xs, 0) && NoDup(xs) && i < |xs| && ys == xs[..i] + xs[i + 1..]
    ensures i == 0 ==> Chain(next, next[xs[0]], ys, 0)
    ensures i > 0 ==> Chain(next[xs[i - 1] := next[xs[i]]], p, ys, 0)
  {
    var now := if i == 0 then next else next[xs[i - 1] := next[xs[i]]];
    forall k | 0 <= k < |ys| ensures ys[k] in now && now[ys[k]] == PtrAt(ys, k + 1) {
      assert ys[k] == if k < i then xs[k] else xs[k + 1];
    }
  }

  lemma {:induction false} WithoutNone(xs: seq<JobId>, dead: set<JobId>)
    requires forall x :: x in xs ==> x !in dead
    ensures Without(xs, dead) == xs
  {
    if xs != [] { WithoutNone(xs[1..], dead); }
  }

  lemma {:induction false} WithoutSubset(xs: seq<JobId>, dead: set<JobId>)
    ensures forall x :: x in Without(xs, dead) ==> x in xs
  {
    if xs != [] { WithoutSubset(xs[1..], dead); }
  }

  lemma {:induction false} WithoutOne(xs: seq<JobId>, i: nat)
    requires NoDup(xs) && i < |xs|
    ensures Without(xs, {xs[i]}) == xs[..i] + xs[i + 1..]
  {
    if i == 0 { WithoutNone(xs[1..], {xs[0]}); } else {
      WithoutOne(xs[1..], i - 1);
      assert xs[1..][i - 1] == xs[i] && xs[1..][..i - 1] == xs[1..i] && xs[1..][i..] == xs[i + 1..];
    }
  }

  lemma {:induction false} WithoutTwice(xs: seq<JobId>, a: set<JobId>, b: set<JobId>)
    ensures Without(Without(xs, a), b) == Without(xs, a + b)
  {
    if xs != [] {
      WithoutTwice(xs[1..], a, b);
      var rest := Without(xs[1..], a);
      if xs[0] !in a { assert ([xs[0]] + rest)[1..] == rest; }
    }
  }

  lemma {:induction false} FindAt(jobs: map<JobId, Job>, all: seq<JobId>, key: Key, k: nat)
    requires forall j :: j in all ==> j in jobs
    requires k < |all| && jobs[all[k]].key == Some(key)
    requires forall i :: 0 <= i < k ==> jobs[all[i]].key != Some(key)
    ensures FindKey(jobs, all, key) == Some(all[k])
  {
    if k > 0 { FindAt(jobs, all[1..], key, k - 1); }
  }

  lemma {:induction false} FindNone(jobs: map<JobId, Job>, all: seq<JobId>, key: Key)
    requires forall j :: j in all ==> j in jobs
    requires forall i :: 0 <= i < |all| ==> jobs[all[i]].key != Some(key)
    ensures FindKey(jobs, all, key).None?
  {
    if all != [] { FindNone(jobs, all[1..], key); }
  }

  /** Shutdown's queue pass after its first `k` jobs. */
  ghost function PassUpTo(sh: Shared, k: nat): Shared
    requires k <= |sh.queue|
  {
    sh.(jobs := map j | j in sh.jobs && !(j in sh.queue[..k] && sh.jobs[j].waiters == 0) ::
                  if j in sh.queue[..k] then sh.jobs[j].(freed := true) else sh.jobs[j],
        all := Without(sh.all, Elems(sh.queue[..k])))
  }

  lemma PassStarts(sh: Shared)
    ensures PassUpTo(sh, 0) == sh
  {
    assert sh.queue[..0] == [];
    WithoutNone(sh.all, Elems([]));
    assert PassUpTo(sh, 0).jobs == sh.jobs;
  }

  lemma PassEnds(sh: Shared)
    requires forall j :: j in sh.all ==> j in sh.jobs
    ensures PassUpTo(sh, |sh.queue|).(queue := []) == QueuePass(sh)
    ensures forall j :: j in QueuePass(sh).all ==> j in QueuePass(sh).jobs
  {
    assert sh.queue[..|sh.queue|] == sh.queue;
    WithoutSubset(sh.all, Elems(sh.queue));
  }

  /** The walk over the keyed list, one entry further. */
  lemma FreeNext(sh: Shared, k: nat)
    requires k < |sh.all| && NoDup(sh.all) && sh.all[k] in sh.jobs
    ensures var a := AllDoomed(sh.(all := sh.all[..k]));
            && sh.all[k] !in a
            && AllDoomed(sh.(all := sh.all[..k + 1])) == (if sh.jobs[sh.all[k]].freed then a else a + {sh.all[k]})
  {
    assert sh.all[..k + 1] == sh.all[..k] + [sh.all[k]];
  }

  lemma PassNext(sh: Shared, k: nat, q: JobId)
    requires k < |sh.queue| && NoDup(sh.queue) && q == sh.queue[k] && q in sh.jobs
    ensures var mid := PassUpTo(sh, k);
            var t := PassUpTo(sh, k + 1);
            && q in mid.jobs && mid.jobs[q] == sh.jobs[q]
            && t.all == Without(mid.all, {q})
            && t.jobs == (if sh.jobs[q].waiters == 0 then mid.jobs - {q}
                          else mid.jobs[q := mid.jobs[q].(freed := true)])
  {
    assert sh.queue[..k + 1] == sh.queue[..k] + [q];
    PassNextAll(sh, k, q);
  }

  lemma PassNextAll(sh: Shared, k: nat, q: JobId)
    requires k < |sh.queue| && sh.queue[..k + 1] == sh.queue[..k] + [q]
    ensures PassUpTo(sh, k + 1).all == Without(PassUpTo(sh, k).all, {q})
  {
    assert Elems(sh.queue[..k + 1]) == Elems(sh.queue[..k]) + {q};
    WithoutTwice(sh.all, Elems(sh.queue[..k]), {q});
  }

  class RenderPool {
    var jobs: map<JobId, Job>
    var queueNext: map<JobId, Ptr>
    var allNext: map<JobId, Ptr>
    var jobHead: Ptr
    var jobTail: Ptr
    var allJobs: Ptr
    var running: bool
    var active: bool
    ghost var queue: seq<JobId>
    ghost var all: seq<JobId>

    ghost predicate QueueOk() reads this {
      && Chain(queueNext, jobHead, queue, 0) && NoDup(queue)
      && jobTail == (if queue == [] then Null else To(queue[|queue| - 1]))
    }

    ghost predicate KeyedOk() reads this {
      Chain(allNext, allJobs, all, 0) && NoDup(all)
    }

    ghost predicate Valid() reads this {
      && QueueOk() && KeyedOk()
      && (forall j :: j in queue ==> j in jobs) && (forall j :: j in all ==> j in jobs)
    }

    ghost function Contents(): Shared reads this {
      Shared(jobs, queue, all, running, active)
    }

    /** The queue half of both enqueues. */
    method Append(j: JobId)
      requires Valid() && j in jobs && j !in queue
      modifies this`queueNext, this`jobHead, this`jobTail, this`queue
      ensures Valid() && queue == old(queue) + [j]
    {
      queueNext := queueNext[j := Null];
      if jobTail != Null { queueNext := queueNext[jobTail.job := To(j)]; } else { jobHead := To(j); }
      jobTail := To(j);
      queue := queue + [j];
    }

    method EnqueueWaiter(j: JobId)
      requires Valid() && j in jobs && j !in queue
      modifies this
      ensures Valid() && Contents() == EnqueueSync(old(Contents()), j)
    {
      Append(j);
      jobs := jobs[j := jobs[j].(waiters := jobs[j].waiters + 1)];
    }

    method EnqueueKeyed(j: JobId, key: Key)
      requires Valid() && j in jobs && j !in queue && j !in all
      modifies this
      ensures Valid() && Contents() == EnqueueAsync(old(Contents()), j, key)
    {
      Append(j);
      allNext := allNext[j := allJobs];
      allJobs := To(j);
      all := [j] + all;
      jobs := jobs[j := jobs[j].(key := Some(key))];
    }

    /** The walk that refuses a submission once 1024 jobs have been counted. */
    method DepthBelowLimit() returns (ok: bool)
      requires Valid()
      ensures ok <==> |queue| < 1024
    {
      var depth, j := 0, jobHead;
      while j != Null
        invariant 0 <= depth <= |queue| && depth < MAX_QUEUE_DEPTH && j == PtrAt(queue, depth)
        decreases |queue| - depth
      {
        depth := depth + 1;
        if depth >= MAX_QUEUE_DEPTH { return false; }
        j := queueNext[j.job];
      }
      ok := true;
    }

    method PopHead() returns (j: Ptr)
      requires Valid()
      modifies this`jobHead, this`jobTail, this`queue
      ensures Valid()
      ensures old(queue) == [] ==> j == Null && queue == []
      ensures old(queue) != [] ==> j == To(old(queue)[0]) && queue == old(queue)[1..]
    {
      j := jobHead;
      if j != Null {
        jobHead := queueNext[j.job];
        if jobHead == Null { jobTail := Null; }
        queue := queue[1..];
      }
    }

    /** Take the cell at `k` out of the keyed list, given its predecessor. */
    method Bypass(prev: Ptr, cur: JobId, ghost k: nat)
      requires KeyedOk() && k < |all| && cur == all[k]
      requires prev == if k == 0 then Null else To(all[k - 1])
      modifies this`allNext, this`allJobs, this`all
      ensures KeyedOk() && all == Without(old(all), {cur})
    {
      ChainWithout(allNext, allJobs, all, k);
      if prev != Null { allNext := allNext[prev.job := allNext[cur]]; } else { allJobs := allNext[cur]; }
      all := Without(all, {cur});
    }

    method RemoveFromAll(target: JobId)
      requires KeyedOk()
      modifies this`allNext, this`allJobs, this`all
      ensures KeyedOk() && Contents() == Unlink(old(Contents()), target)
    {
      var prev, cur := Null, allJobs;
      ghost var k := 0;
      while cur != Null
        invariant 0 <= k <= |all| && cur == PtrAt(all, k)
        invariant prev == if k == 0 then Null else To(all[k - 1])
        invariant forall i :: 0 <= i < k ==> all[i] != target
        decreases |all| - k
      {
        if cur.job == target { Bypass(prev, target, k); return; }
        prev := cur; cur := allNext[cur.job]; k := k + 1;
      }
      WithoutNone(all, {target});
    }

    /** The first cell of the keyed list with this key, and the one before it. */
    method FindCell(key: Key) returns (prev: Ptr, j: Ptr, ghost k: nat)
      requires Valid()
      ensures j == Null ==> FindKey(jobs, all, key).None?
      ensures j != Null ==> k < |all| && j == To(all[k]) && FindKey(jobs, all, key) == Some(all[k])
      ensures j != Null ==> prev == if k == 0 then Null else To(all[k - 1])
    {
      prev, j, k := Null, allJobs, 0;
      while j != Null
        invariant 0 <= k <= |all| && j == PtrAt(all, k)
        invariant prev == if k == 0 then Null else To(all[k - 1])
        invariant forall i :: 0 <= i < k ==> jobs[all[i]].key != Some(key)
        decreases |all| - k
      {
        if jobs[j.job].key == Some(key) {
          FindAt(jobs, all, key, k);
          return;
        }
        prev := j; j := allNext[j.job]; k := k + 1;
      }
      FindNone(jobs, all, key);
    }

    /** The locked part of retrieval: 1 with the unlinked job, 0, or -1. */
    method TryGet(key: Key) returns (code: int, found: Ptr)
      requires Valid()
      modifies this`allNext, this`allJobs, this`all
      ensures Valid()
      ensures var r := FindKey(old(jobs), old(all), key);
              if r.None? then code == -1 && found == Null && all == old(all)
              else if !jobs[r.value].done then code == 0 && found == Null && all == old(all)
              else code == 1 && found == To(r.value) && Contents() == Unlink(old(Contents()), r.value)
    {
      var prev, j;
      ghost var k;
      prev, j, k := FindCell(key);
      if j == Null { return -1, Null; }
      if !jobs[j.job].done { return 0, Null; }
      Detach(prev, j.job, k);
      return 1, j;
    }

    method Detach(prev: Ptr, cur: JobId, ghost k: nat)
      requires Valid() && k < |all| && cur == all[k] && prev == if k == 0 then Null else To(all[k - 1])
      modifies this`allNext, this`allJobs, this`all
      ensures Valid() && Contents() == Unlink(old(Contents()), cur)
    {
      WithoutSubset(all, {cur});
      Bypass(prev, cur, k);
    }

    /** cleanup_job_container: the record and both of its links are gone. */
    method Release(j: JobId)
      requires j in jobs
      modifies this`jobs, this`queueNext, this`allNext
      ensures jobs == old(jobs) - {j} && queueNext == old(queueNext) - {j} && allNext == old(allNext) - {j}
    {
      jobs, queueNext, allNext := jobs - {j}, queueNext - {j}, allNext - {j};
    }

    /** Where the queue pass over the contents `sh` stands before its `k`-th job. */
    ghost predicate Draining(sh: Shared, k: nat, j: Ptr) reads this {
      && k <= |sh.queue| && Chain(queueNext, j, sh.queue, k) && KeyedOk()
      && jobs == PassUpTo(sh, k).jobs && all == PassUpTo(sh, k).all
      && running == sh.running && active == sh.active
    }

    method DrainOne(j: JobId, ghost sh: Shared, ghost k: nat) returns (next: Ptr)
      requires NoDup(sh.queue) && k < |sh.queue| && Draining(sh, k, To(j)) && j in sh.jobs
      modifies this
      ensures Draining(sh, k + 1, next)
    {
      next := queueNext[j];
      PassNext(sh, k, j);
      jobs := jobs[j := jobs[j].(freed := true)];
      RemoveFromAll(j);
      if jobs[j].waiters == 0 { Release(j); }
    }

    method DrainQueue()
      requires Valid()
      modifies this
      ensures Valid() && Contents() == QueuePass(old(Contents()))
    {
      ghost var sh, k := Contents(), 0;
      var j := jobHead;
      PassStarts(sh);
      while j != Null
        invariant Draining(sh, k, j)
        decreases |sh.queue| - k
      {
        j := DrainOne(j.job, sh, k);
        k := k + 1;
      }
      assert k == |sh.queue|;
      ClearQueue(sh);
    }

    method ClearQueue(ghost sh: Shared)
      requires Draining(sh, |sh.queue|, Null) && forall j :: j in sh.all ==> j in sh.jobs
      modifies this`jobHead, this`jobTail, this`queue
      ensures Valid() && Contents() == QueuePass(sh)
    {
      PassEnds(sh);
      jobHead, jobTail, queue := Null, Null, [];
    }

    /** Where the walk over the keyed list of `sh` stands before its `k`-th entry. */
    ghost predicate Freeing(sh: Shared, k: nat, j: Ptr) reads this {
      k <= |sh.all| && Chain(allNext, j, sh.all, k) && jobs == sh.jobs - AllDoomed(sh.(all := sh.all[..k]))
    }

    method FreeOne(j: JobId, ghost sh: Shared, ghost k: nat) returns (next: Ptr)
      requires NoDup(sh.all) && k < |sh.all| && Freeing(sh, k, To(j)) && j in sh.jobs
      modifies this`jobs, this`queueNext, this`allNext
      ensures Freeing(sh, k + 1, next)
    {
      next := allNext[j];
      FreeNext(sh, k);
      if !jobs[j].freed { Release(j); }
    }

    method FreeKeyed()
      requires Valid()
      modifies this`jobs, this`queueNext, this`allNext, this`allJobs, this`all
      ensures Contents() == AllPass(old(Contents())) && allJobs == Null
    {
      ghost var sh, k := Contents(), 0;
      var j := allJobs;
      assert sh.all[..0] == [] && sh.all[..|sh.all|] == sh.all;
      while j != Null
        invariant Freeing(sh, k, j)
        decreases |sh.all| - k
      {
        j := FreeOne(j.job, sh, k);
        k := k + 1;
      }
      allJobs, all := Null, [];
    }

    /** The locked end of shutdown, both passes. */
    method FreeEverything()
      requires Valid()
      modifies this
      ensures Valid() && Contents() == AllPass(QueuePass(old(Contents())))
    {
      DrainQueue();
      FreeKeyed();
    }
  }
}
