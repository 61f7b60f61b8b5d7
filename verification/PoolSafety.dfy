/** What the invariant gives for whole runs of the pool. */
module PoolSafety {
  import opened Common
  import opened PoolJobs
  import opened PoolMachine
  import opened PoolFrames
  import opened PoolInvariant

  lemma {:induction false} RunInv(r: RenderArgs -> Image, tr: seq<State>, es: seq<Event>, n: nat)
    requires Run(r, tr, es) && n <= |es|
    ensures Inv(r, tr[n])
  {
    if n == 0 { InitInv(r, tr[0]); } else {
      RunInv(r, tr, es, n - 1);
      StepInv(r, tr[n - 1], es[n - 1]);
    }
  }

  /** In every state of every run no container and no bitmap has been freed twice, and
      nothing freed is still listed, queued or held. */
  lemma FreedOnce(r: RenderArgs -> Image, tr: seq<State>, es: seq<Event>, n: nat)
    requires Run(r, tr, es) && n <= |es|
    ensures forall j :: tr[n].freed[j] <= 1 && tr[n].freedBms[j] <= 1
    ensures forall j :: j in tr[n].freed ==>
              j !in tr[n].sh.jobs && j !in tr[n].sh.queue && j !in tr[n].sh.all
    ensures forall b :: b in tr[n].freedBms ==> b !in tr[n].pixels
  {
    var s := tr[n];
    RunInv(r, tr, es, n);
    forall j ensures s.freed[j] <= 1 && (j in s.freed ==> j !in s.sh.jobs) { assert FreedJobOk(s, j); }
    forall b ensures s.freedBms[b] <= 1 && (b in s.freedBms ==> b !in s.pixels) { assert FreedBmOk(s, b); }
  }

  /** Every container ever built is live or has been freed. */
  ghost predicate Accounted(s: State, j: JobId) { j < s.nextJob <==> j in s.sh.jobs || j in s.freed }

  lemma AccountedBySync(r: RenderArgs -> Image, s: State, e: Event, j: JobId)
    requires CanDo(s, e) && BySyncCaller(e) && Accounted(s, j)
    ensures Accounted(Do(r, s, e), j)
  {
  }

  lemma AccountedByAsync(r: RenderArgs -> Image, s: State, e: Event, j: JobId)
    requires CanDo(s, e) && ByAsyncClient(e) && Accounted(s, j)
    ensures Accounted(Do(r, s, e), j)
  {
  }

  lemma AccountedByWorker(r: RenderArgs -> Image, s: State, e: Event, j: JobId)
    requires CanDo(s, e) && ByWorker(e) && Accounted(s, j)
    ensures Accounted(Do(r, s, e), j)
  {
  }

  lemma AccountedByShutdown(r: RenderArgs -> Image, s: State, e: Event, j: JobId)
    requires CanDo(s, e) && ByShutdown(e) && Accounted(s, j)
    ensures Accounted(Do(r, s, e), j)
  {
    if e.FreeAll? { assert j in Do(r, s, e).freed <==> j in s.freed || j in Doomed(s); }
  }

  lemma AccountedStep(r: RenderArgs -> Image, s: State, e: Event, j: JobId)
    requires CanDo(s, e) && Accounted(s, j)
    ensures Accounted(Do(r, s, e), j)
  {
    if BySyncCaller(e) { AccountedBySync(r, s, e, j); }
    else if ByAsyncClient(e) { AccountedByAsync(r, s, e, j); }
    else if ByWorker(e) { AccountedByWorker(r, s, e, j); }
    else { AccountedByShutdown(r, s, e, j); }
  }

  lemma {:induction false} RunAccounted(r: RenderArgs -> Image, tr: seq<State>, es: seq<Event>, n: nat, j: JobId)
    requires Run(r, tr, es) && n <= |es|
    ensures Accounted(tr[n], j)
  {
    if n > 0 {
      RunAccounted(r, tr, es, n - 1, j);
      AccountedStep(r, tr[n - 1], es[n - 1], j);
    }
  }

  /** Nothing is lost: in every state of every run each container ever built is either live or
      was freed once, and a live one is in the keyed list or held by one client, never both. */
  lemma NothingLost(r: RenderArgs -> Image, tr: seq<State>, es: seq<Event>, n: nat, j: JobId)
    requires Run(r, tr, es) && n <= |es| && j < tr[n].nextJob
    ensures var s := tr[n];
            && s.freed[j] == (if j in s.sh.jobs then 0 else 1)
            && (j in s.sh.jobs ==>
                  (j in s.sh.all <==> forall c :: 0 <= c < |s.clients| ==> HeldBy(s.clients[c]) != Some(j)))
  {
    var s := tr[n];
    RunAccounted(r, tr, es, n, j);
    RunInv(r, tr, es, n);
    assert FreedJobOk(s, j) && JobOk(s, j);
    forall c | 0 <= c < |s.clients| && HeldBy(s.clients[c]) == Some(j)
      ensures j in s.owner && s.owner[j] == OfClient(c)
    {
      assert ClientOk(s, c);
    }
  }

  lemma ActiveStep(r: RenderArgs -> Image, s: State, e: Event)
    requires CanDo(s, e) && !s.sh.active
    ensures !Do(r, s, e).sh.active && !e.SyncBuild? && !e.AsyncAdmit?
  {
  }

  /** Once shutdown has begun no call enters the pool any more; synchronous ones render directly. */
  lemma {:induction false} ClosedForGood(r: RenderArgs -> Image, tr: seq<State>, es: seq<Event>, m: nat, n: nat)
    requires Run(r, tr, es) && m <= n < |es| && tr[m].shutdown != NotStarted
    ensures !tr[n].sh.active && !es[n].SyncBuild? && !es[n].AsyncAdmit?
  {
    if m == n { RunInv(r, tr, es, m); } else {
      ClosedForGood(r, tr, es, m, n - 1);
      ActiveStep(r, tr[n - 1], es[n - 1]);
    }
    ActiveStep(r, tr[n], es[n]);
  }

  /** Who can reach bitmap `b`: the container, the worker or the caller that holds it. */
  ghost predicate Holds(s: State, h: Home, b: BitmapId) {
    match h
    case InJob(j) => j in s.sh.jobs && s.sh.jobs[j].result == Some(b)
    case InWorker(w) => w < |s.workers| && s.workers[w].Rendered? && s.workers[w].bm == b
    case WithCaller(n) => n < |s.delivered| && s.delivered[n].bm == b
  }

  /** Every live bitmap has exactly one holder, and nobody holds a dead one. */
  lemma OneOwner(r: RenderArgs -> Image, tr: seq<State>, es: seq<Event>, n: nat, b: BitmapId)
    requires Run(r, tr, es) && n <= |es|
    ensures b in tr[n].pixels <==> exists h :: Holds(tr[n], h, b)
    ensures forall h, h' :: Holds(tr[n], h, b) && Holds(tr[n], h', b) ==> h == h'
  {
    var s := tr[n];
    RunInv(r, tr, es, n);
    if b in s.pixels { assert HomeOk(r, s, b); assert Holds(s, s.home[b], b); }
    forall h | Holds(s, h, b) ensures b in s.pixels && s.home[b] == h {
      match h
      case InJob(j) => assert ResultOk(s, j);
      case InWorker(w) => assert RenderedOk(s, w);
      case WithCaller(m) => assert DeliveredOk(s, m);
    }
  }

  /** Between shutdown's two passes no entry of the keyed list is marked freed. */
  lemma NoMarkedEntryLeft(r: RenderArgs -> Image, tr: seq<State>, es: seq<Event>, n: nat)
    requires Run(r, tr, es) && n <= |es| && tr[n].shutdown == Joined
    ensures var mid := QueuePass(tr[n].sh);
            forall j :: j in mid.all ==> j in mid.jobs && !mid.jobs[j].freed
  {
    RunInv(r, tr, es, n);
    forall j | j in QueuePass(tr[n].sh).all
      ensures j in QueuePass(tr[n].sh).jobs && !QueuePass(tr[n].sh).jobs[j].freed
    {
      assert JobOk(tr[n], j);
    }
  }

  /** Jobs leave the queue in the order they entered it. */
  lemma FirstInFirstOut(r: RenderArgs -> Image, tr: seq<State>, es: seq<Event>, n: nat)
    requires Run(r, tr, es) && n <= |es|
    ensures tr[n].enqueued == tr[n].dequeued + tr[n].sh.queue
  {
    RunInv(r, tr, es, n);
  }

  /** If nothing was enqueued after `running` was cleared, then once every worker
      has exited the queue is empty and every job ever enqueued has had its result published. */
  lemma DrainedAtExit(r: RenderArgs -> Image, tr: seq<State>, es: seq<Event>, n: nat)
    requires Run(r, tr, es) && n <= |es| && AllExited(tr[n]) && !tr[n].late
    ensures tr[n].sh.queue == []
    ensures forall j :: j in tr[n].enqueued ==> j in tr[n].published
  {
    var s := tr[n];
    RunInv(r, tr, es, n);
    assert WorkerOk(s, 0);
    forall j | j in s.enqueued ensures j in s.published { assert ServedOk(s, j) && JobOk(s, j); }
  }

  // ------------------------------------------------------------- queue depth

  ghost function Pending(cs: seq<ClientPc>): nat {
    if cs == [] then 0 else (if cs[0].AsyncBuilt? then 1 else 0) + Pending(cs[1..])
  }

  ghost function KeyedIn(jobs: map<JobId, Job>, q: seq<JobId>): nat {
    if q == [] then 0
    else (if q[0] in jobs && jobs[q[0]].key.Some? then 1 else 0) + KeyedIn(jobs, q[1..])
  }

  lemma {:induction false} PendingSet(cs: seq<ClientPc>, c: nat, pc: ClientPc)
    requires c < |cs|
    ensures Pending(cs[c := pc])
            == Pending(cs) - (if cs[c].AsyncBuilt? then 1 else 0) + (if pc.AsyncBuilt? then 1 else 0)
    ensures Pending(cs) <= |cs|
  {
    if c > 0 {
      PendingSet(cs[1..], c - 1, pc);
      assert cs[c := pc][1..] == cs[1..][c - 1 := pc];
    } else {
      assert cs[c := pc][1..] == cs[1..];
      if |cs| > 1 { PendingSet(cs[1..], 0, pc); }
    }
  }

  lemma {:induction false} KeyedSame(a: map<JobId, Job>, b: map<JobId, Job>, q: seq<JobId>)
    requires forall j :: j in q ==> (j in a && a[j].key.Some? <==> j in b && b[j].key.Some?)
    ensures KeyedIn(a, q) == KeyedIn(b, q) <= |q|
  {
    if q != [] { KeyedSame(a, b, q[1..]); }
  }

  lemma {:induction false} KeyedAppend(jobs: map<JobId, Job>, q: seq<JobId>, j: JobId)
    ensures KeyedIn(jobs, q + [j]) == KeyedIn(jobs, q) + (if j in jobs && jobs[j].key.Some? then 1 else 0)
  {
    if q != [] { assert (q + [j])[1..] == q[1..] + [j]; KeyedAppend(jobs, q[1..], j); }
  }

  ghost function Load(s: State): nat {
    KeyedIn(s.sh.jobs, s.sh.queue) + Pending(s.clients)
  }

  lemma LoadUnchanged(s: State, t: State, c: nat)
    requires c < |s.clients| == |t.clients| && t.clients == s.clients[c := t.clients[c]]
    requires t.sh.queue == s.sh.queue && !t.clients[c].AsyncBuilt? && !s.clients[c].AsyncBuilt?
    requires forall j :: j in s.sh.queue ==>
               (j in s.sh.jobs && s.sh.jobs[j].key.Some? <==> j in t.sh.jobs && t.sh.jobs[j].key.Some?)
    ensures Load(t) == Load(s)
  {
    KeyedSame(s.sh.jobs, t.sh.jobs, s.sh.queue);
    PendingSet(s.clients, c, t.clients[c]);
  }

  lemma LoadOfSync(r: RenderArgs -> Image, s: State, e: Event)
    requires Inv(r, s) && Enabled(s, e) && Safe(s, e)
    requires e.SyncDirect? || e.SyncBuild? || e.SyncWake? || e.SyncTake?
    ensures Load(Do(r, s, e)) == Load(s)
  {
    assert JobOk(s, s.nextJob) && ClientOk(s, e.c);
    if HeldBy(s.clients[e.c]).Some? { assert JobOk(s, HeldBy(s.clients[e.c]).value); }
    LoadUnchanged(s, Do(r, s, e), e.c);
  }

  lemma LoadOfRetrieval(r: RenderArgs -> Image, s: State, e: Event)
    requires Enabled(s, e) && Safe(s, e) && e.TryGet?
    ensures Load(Do(r, s, e)) == Load(s)
  {
    LoadUnchanged(s, Do(r, s, e), e.c);
  }

  lemma LoadOfAsync(r: RenderArgs -> Image, s: State, e: Event)
    requires Inv(r, s) && Enabled(s, e) && Safe(s, e)
    requires e.AsyncAdmit? || e.TakeResult?
    ensures Load(Do(r, s, e)) == Load(s)
  {
    assert ClientOk(s, e.c);
    if HeldBy(s.clients[e.c]).Some? { assert JobOk(s, HeldBy(s.clients[e.c]).value); }
    LoadUnchanged(s, Do(r, s, e), e.c);
  }

  lemma LoadOfDepth(r: RenderArgs -> Image, s: State, c: nat)
    requires Inv(r, s) && Enabled(s, AsyncDepth(c)) && Safe(s, AsyncDepth(c)) && Load(s) <= 1023 + |s.clients|
    ensures Load(Do(r, s, AsyncDepth(c))) <= 1023 + |s.clients|
  {
    if |s.sh.queue| >= MAX_QUEUE_DEPTH {
      PendingSet(s.clients, c, Ready);
    } else {
      assert JobOk(s, s.nextJob);
      LoadOfBuild(s, c, NewJob(s.clients[c].args, s.clients[c].align), AsyncBuilt(s.nextJob, s.clients[c].key));
    }
  }

  /** A job admitted past the depth check: at most 1023 queued, and one per client. */
  lemma LoadOfBuild(s: State, c: nat, job: Job, pc: ClientPc)
    requires c < |s.clients| && |s.sh.queue| < MAX_QUEUE_DEPTH && s.nextJob !in s.sh.jobs && job.key.None?
    ensures Load(Build(s, c, job, pc)) <= 1023 + |s.clients|
  {
    var t := Build(s, c, job, pc);
    PendingSet(t.clients, c, pc);
    KeyedSame(s.sh.jobs, t.sh.jobs, s.sh.queue);
  }

  lemma LoadOfEnqueue(r: RenderArgs -> Image, s: State, e: Event)
    requires Inv(r, s) && Enabled(s, e) && Safe(s, e) && (e.AsyncEnqueue? || e.SyncEnqueue?)
    ensures Load(Do(r, s, e)) == Load(s)
  {
    var j := s.clients[e.c].job;
    assert ClientOk(s, e.c) && JobOk(s, j);
    if e.AsyncEnqueue? {
      LoadOfQueued(s, StepAsyncEnqueue(s, e.c), e.c, j);
    } else {
      LoadOfQueued(s, StepSyncEnqueue(s, e.c), e.c, j);
    }
  }

  lemma LoadOfQueued(s: State, t: State, c: nat, j: JobId)
    requires c < |s.clients| && t.clients == s.clients[c := if |t.clients| > c then t.clients[c] else Ready]
    requires t.sh.queue == s.sh.queue + [j] && j !in s.sh.queue && j in t.sh.jobs && !t.clients[c].AsyncBuilt?
    requires s.clients[c].AsyncBuilt? <==> t.sh.jobs[j].key.Some?
    requires forall k :: k in s.sh.queue ==>
               (k in s.sh.jobs && s.sh.jobs[k].key.Some? <==> k in t.sh.jobs && t.sh.jobs[k].key.Some?)
    ensures Load(t) == Load(s)
  {
    PendingSet(s.clients, c, t.clients[c]);
    KeyedAppend(t.sh.jobs, s.sh.queue, j);
    KeyedSame(s.sh.jobs, t.sh.jobs, s.sh.queue);
  }

  lemma LoadOfWorker(r: RenderArgs -> Image, s: State, e: Event)
    requires Inv(r, s) && Enabled(s, e) && Safe(s, e) && Load(s) <= 1023 + |s.clients| && ByWorker(e)
    ensures Load(Do(r, s, e)) <= 1023 + |s.clients|
  {
    var t := Do(r, s, e);
    KeyedSame(s.sh.jobs, t.sh.jobs, t.sh.queue);
  }

  lemma LoadOfShutdown(r: RenderArgs -> Image, s: State, e: Event)
    requires Enabled(s, e) && Safe(s, e) && Load(s) <= 1023 + |s.clients| && ByShutdown(e)
    ensures Load(Do(r, s, e)) <= 1023 + |s.clients|
  {
  }

  lemma LoadStep(r: RenderArgs -> Image, s: State, e: Event)
    requires Inv(r, s) && Enabled(s, e) && Safe(s, e) && Load(s) <= 1023 + |s.clients|
    ensures Load(Do(r, s, e)) <= 1023 + |s.clients| == 1023 + |Do(r, s, e).clients|
  {
    if e.AsyncDepth? { LoadOfDepth(r, s, e.c); }
    else if e.AsyncEnqueue? || e.SyncEnqueue? { LoadOfEnqueue(r, s, e); }
    else if ByWorker(e) { LoadOfWorker(r, s, e); }
    else if ByShutdown(e) { LoadOfShutdown(r, s, e); }
    else if e.TryGet? { LoadOfRetrieval(r, s, e); }
    else if e.AsyncAdmit? || e.TakeResult? { LoadOfAsync(r, s, e); }
    else { LoadOfSync(r, s, e); }
  }

  /** A submission that meets fewer than 1024 queued jobs goes on with a job of its own; one
      that meets more is turned away and changes nothing shared. */
  lemma Admission(r: RenderArgs -> Image, s: State, c: nat)
    requires Enabled(s, AsyncDepth(c)) && Safe(s, AsyncDepth(c))
    ensures var t := Do(r, s, AsyncDepth(c));
            if |s.sh.queue| <= 1023
            then && t.clients[c] == AsyncBuilt(s.nextJob, s.clients[c].key) && s.nextJob in t.sh.jobs
                 && t.sh.jobs[s.nextJob].args == s.clients[c].args && !t.sh.jobs[s.nextJob].done
            else t.clients[c] == Ready && t.sh == s.sh
  {
  }

  /** A key that was submitted again stands for the job submitted last. */
  lemma NewestFirst(sh: Shared, j: JobId, key: Key)
    requires j in sh.jobs && forall i :: i in sh.all ==> i in sh.jobs
    ensures var t := EnqueueAsync(sh, j, key);
            (forall i :: i in t.all ==> i in t.jobs) && FindKey(t.jobs, t.all, key) == Some(j)
  {
  }

  /** Admission control: however submitters race between the depth check and the
      enqueue, with N client threads at most 1023 + N asynchronous jobs are queued
      or about to be. */
  lemma {:induction false} QueueBound(r: RenderArgs -> Image, tr: seq<State>, es: seq<Event>, n: nat)
    requires Run(r, tr, es) && n <= |es|
    ensures Load(tr[n]) <= 1023 + |tr[n].clients| && |tr[n].clients| == |tr[0].clients|
  {
    if n == 0 {
      NonePending(tr[0].clients);
    } else {
      QueueBound(r, tr, es, n - 1);
      RunInv(r, tr, es, n - 1);
      LoadStep(r, tr[n - 1], es[n - 1]);
    }
  }

  lemma {:induction false} NonePending(cs: seq<ClientPc>)
    requires forall c :: 0 <= c < |cs| ==> cs[c] == Ready
    ensures Pending(cs) == 0
  {
    if cs != [] { NonePending(cs[1..]); }
  }
}
