/** The invariant of the render pool and its preservation, one event at a time.
    Each conjunct is a predicate about one job, client, worker or bitmap. */
module PoolInvariant {
  import opened Common
  import opened PoolJobs
  import opened PoolMachine

  ghost function HeldBy(pc: ClientPc): Option<JobId> {
    match pc
    case SyncBuilt(j) => Some(j)
    case SyncWaiting(j) => Some(j)
    case SyncDone(j) => Some(j)
    case AsyncBuilt(j, _) => Some(j)
    case Taking(j, _) => Some(j)
    case _ => None
  }

  ghost function JobOf(pc: WorkerPc): Option<JobId> {
    match pc
    case Rendering(j) => Some(j)
    case Rendered(j, _) => Some(j)
    case _ => None
  }

  /** What a client that holds a job knows about it. */
  ghost predicate Fits(pc: ClientPc, job: Job, st: Stage) {
    match pc
    case SyncBuilt(_) => st == Private && job.waiters == 0 && job.key.None?
    case AsyncBuilt(_, _) => st == Private && job.waiters == 0
    case SyncWaiting(_) => st != Private && job.waiters == 1
    case SyncDone(_) => st == Complete && job.waiters == 1
    case Taking(_, key) => st == Complete && job.waiters == 0 && job.key == Some(key)
    case _ => false
  }

  /** A live job: its flags agree with its stage, and its owner agrees with it. */
  ghost predicate JobOk(s: State, j: JobId) {
    j in s.sh.jobs ==>
      && j in s.stage && j in s.owner && j < s.nextJob
      && (j in s.sh.queue <==> s.stage[j] == Queued)
      && (s.sh.jobs[j].done <==> s.stage[j] == Complete)
      && (s.sh.jobs[j].freed <==> s.stage[j] == Abandoned) && (s.sh.jobs[j].freed ==> s.late)
      && (s.stage[j].AtWorker? ==> s.stage[j].w < |s.workers| && JobOf(s.workers[s.stage[j].w]) == Some(j))
      && (j in s.sh.all <==> s.owner[j] == Keyed)
      && match s.owner[j]
         case Keyed => s.sh.jobs[j].key.Some? && s.sh.jobs[j].waiters == 0
                       && s.stage[j] != Private && s.stage[j] != Abandoned
         case OfClient(c) => c < |s.clients| && HeldBy(s.clients[c]) == Some(j)
                             && Fits(s.clients[c], s.sh.jobs[j], s.stage[j])
  }

  ghost predicate ClientOk(s: State, c: nat) {
    c < |s.clients| && HeldBy(s.clients[c]).Some? ==>
      var j := HeldBy(s.clients[c]).value;
      j in s.sh.jobs && j in s.owner && s.owner[j] == OfClient(c)
  }

  ghost predicate WorkerOk(s: State, w: nat) {
    w < |s.workers| ==>
      && (s.workers[w] == Exited ==> !s.sh.running && (!s.late ==> s.sh.queue == []))
      && (JobOf(s.workers[w]).Some? ==>
            var j := JobOf(s.workers[w]).value;
            j in s.sh.jobs && j in s.stage && s.stage[j] == AtWorker(w))
  }

  /** Both lists are duplicate-free and hold live jobs only. */
  ghost predicate ListsOk(s: State) {
    && NoDup(s.sh.queue) && NoDup(s.sh.all)
    && (forall j :: j in s.sh.queue ==> j in s.sh.jobs)
    && (forall j :: j in s.sh.all ==> j in s.sh.jobs)
  }

  /** A live bitmap is where `home` says, and it is the rendering of its job. */
  ghost predicate HomeOk(r: RenderArgs -> Image, s: State, b: BitmapId) {
    b in s.pixels ==>
      && b in s.home && b < s.nextBm
      && match s.home[b]
         case InJob(j) => j in s.sh.jobs && s.sh.jobs[j].result == Some(b) && s.pixels[b] == r(s.sh.jobs[j].args)
         case InWorker(w) => w < |s.workers| && s.workers[w].Rendered? && s.workers[w].bm == b
                             && s.workers[w].job in s.sh.jobs && s.pixels[b] == r(s.sh.jobs[s.workers[w].job].args)
         case WithCaller(n) => n < |s.delivered| && s.delivered[n].bm == b && s.pixels[b] == r(s.delivered[n].args)
  }

  ghost predicate At(s: State, b: BitmapId, h: Home) {
    b in s.pixels && b in s.home && s.home[b] == h
  }

  /** Conversely, whatever a job, a worker or a caller holds is live and homed there. */
  ghost predicate ResultOk(s: State, j: JobId) {
    j in s.sh.jobs ==>
      && (s.sh.jobs[j].result.Some? <==> s.sh.jobs[j].done)
      && (s.sh.jobs[j].result.Some? ==> At(s, s.sh.jobs[j].result.value, InJob(j)))
  }

  ghost predicate RenderedOk(s: State, w: nat) {
    w < |s.workers| && s.workers[w].Rendered? ==> At(s, s.workers[w].bm, InWorker(w))
  }

  ghost predicate DeliveredOk(s: State, n: nat) {
    n < |s.delivered| ==> At(s, s.delivered[n].bm, WithCaller(n))
  }

  ghost predicate FreedJobOk(s: State, j: JobId) {
    j in s.freed ==> s.freed[j] == 1 && j !in s.sh.jobs && j < s.nextJob
  }

  /** A queued job is rendered before it can disappear, unless it came too late. */
  ghost predicate ServedOk(s: State, j: JobId) {
    j in s.enqueued && !s.late && j !in s.published ==>
      j in s.sh.jobs && j in s.stage && (s.stage[j] == Queued || s.stage[j].AtWorker?)
  }

  ghost predicate FreedBmOk(s: State, b: BitmapId) {
    b in s.freedBms ==> s.freedBms[b] == 1 && b !in s.pixels && b < s.nextBm
  }

  ghost predicate PhaseOk(s: State) {
    && |s.workers| >= 1
    && s.enqueued == s.dequeued + s.sh.queue
    && (s.sh.active <==> s.shutdown == NotStarted)
    && (s.sh.running <==> s.shutdown == NotStarted || s.shutdown == Inactive)
    && (s.shutdown == Joined || s.shutdown == Finished ==> AllExited(s))
  }

  ghost predicate AllExited(s: State) {
    forall w :: 0 <= w < |s.workers| ==> s.workers[w] == Exited
  }

  ghost predicate JobsInv(s: State) {
    && ListsOk(s) && PhaseOk(s)
    && (forall j {:trigger JobOk(s, j)} :: JobOk(s, j))
    && (forall c {:trigger ClientOk(s, c)} :: ClientOk(s, c))
    && (forall w {:trigger WorkerOk(s, w)} :: WorkerOk(s, w))
    && (forall j {:trigger FreedJobOk(s, j)} :: FreedJobOk(s, j))
    && (forall j {:trigger ServedOk(s, j)} :: ServedOk(s, j))
  }

  ghost predicate BitmapsInv(r: RenderArgs -> Image, s: State) {
    && (forall b {:trigger HomeOk(r, s, b)} :: HomeOk(r, s, b))
    && (forall j {:trigger ResultOk(s, j)} :: ResultOk(s, j))
    && (forall w {:trigger RenderedOk(s, w)} :: RenderedOk(s, w))
    && (forall n {:trigger DeliveredOk(s, n)} :: DeliveredOk(s, n))
    && (forall b {:trigger FreedBmOk(s, b)} :: FreedBmOk(s, b))
  }

  ghost predicate Inv(r: RenderArgs -> Image, s: State) {
    JobsInv(s) && BitmapsInv(r, s)
  }

  lemma InitInv(r: RenderArgs -> Image, s: State)
    requires Init(s)
    ensures Inv(r, s)
  {
  }

  /** Every enabled event is safe, except a worker's signal to a job freed meanwhile. */
  lemma NeverUnsafe(r: RenderArgs -> Image, s: State, e: Event)
    requires Inv(r, s) && Enabled(s, e)
    ensures Safe(s, e) <==> (e.Signal? ==> s.workers[e.w].job in s.sh.jobs)
  {
    match e
    case SyncEnqueue(c) => assert ClientOk(s, c);
    case SyncWake(c) => assert ClientOk(s, c);
    case SyncTake(c) => assert ClientOk(s, c) && JobOk(s, s.clients[c].job) && ResultOk(s, s.clients[c].job);
    case AsyncEnqueue(c) => assert ClientOk(s, c);
    case TakeResult(c) => assert ClientOk(s, c) && JobOk(s, s.clients[c].job) && ResultOk(s, s.clients[c].job);
    case Render(w) => assert WorkerOk(s, w);
    case PublishResult(w) => assert WorkerOk(s, w);
    case _ =>
  }

  // ------------------------------------------------ each step keeps the jobs

  lemma RepcJobs(s: State, c: nat, pc: ClientPc)
    requires JobsInv(s) && c < |s.clients| && HeldBy(pc) == HeldBy(s.clients[c])
    requires HeldBy(pc).Some? && HeldBy(pc).value in s.sh.jobs && HeldBy(pc).value in s.stage ==>
               Fits(pc, s.sh.jobs[HeldBy(pc).value], s.stage[HeldBy(pc).value])
    ensures JobsInv(SetClient(s, c, pc))
  {
    var s' := SetClient(s, c, pc);
    forall k ensures JobOk(s', k) { assert JobOk(s, k); }
    forall d ensures ClientOk(s', d) { assert ClientOk(s, d); }
    forall v ensures WorkerOk(s', v) { assert WorkerOk(s, v); }
    forall k ensures FreedJobOk(s', k) && ServedOk(s', k) { assert FreedJobOk(s, k) && ServedOk(s, k); }
  }

  lemma BuildJobs(s: State, c: nat, job: Job, pc: ClientPc)
    requires JobsInv(s) && c < |s.clients| && HeldBy(s.clients[c]).None?
    requires pc == SyncBuilt(s.nextJob) || (pc.AsyncBuilt? && pc.job == s.nextJob)
    requires !job.done && job.waiters == 0 && !job.freed && job.key.None?
    ensures JobsInv(Build(s, c, job, pc))
  {
    var s' := Build(s, c, job, pc);
    assert JobOk(s, s.nextJob);
    forall k ensures JobOk(s', k) { assert JobOk(s, k); }
    forall d ensures ClientOk(s', d) { assert ClientOk(s, d); }
    forall v ensures WorkerOk(s', v) { assert WorkerOk(s, v); }
    forall k ensures FreedJobOk(s', k) && ServedOk(s', k) { assert FreedJobOk(s, k) && ServedOk(s, k); }
  }

  lemma TakeJobs(s: State, c: nat, j: JobId, key: Option<Key>)
    requires JobsInv(s) && c < |s.clients| && HeldBy(s.clients[c]) == Some(j)
    requires j in s.sh.jobs && s.sh.jobs[j].done && s.sh.jobs[j].result.Some?
    ensures JobsInv(Take(s, c, j, key))
  {
    var s' := Take(s, c, j, key);
    assert JobOk(s, j) && ClientOk(s, c) && FreedJobOk(s, j);
    forall k ensures JobOk(s', k) { assert JobOk(s, k); }
    forall d ensures ClientOk(s', d) { assert ClientOk(s, d); }
    forall v ensures WorkerOk(s', v) { assert WorkerOk(s, v); }
    forall k ensures FreedJobOk(s', k) && ServedOk(s', k) { assert FreedJobOk(s, k) && ServedOk(s, k); }
  }

  lemma SyncEnqueueJobs(s: State, c: nat)
    requires JobsInv(s) && c < |s.clients| && s.clients[c].SyncBuilt? && s.clients[c].job in s.sh.jobs
    ensures JobsInv(StepSyncEnqueue(s, c))
  {
    var s' := StepSyncEnqueue(s, c);
    assert ClientOk(s, c) && JobOk(s, s.clients[c].job);
    forall k ensures JobOk(s', k) { assert JobOk(s, k); }
    forall d ensures ClientOk(s', d) { assert ClientOk(s, d); }
    forall v ensures WorkerOk(s', v) { assert WorkerOk(s, v); }
    forall k ensures FreedJobOk(s', k) && ServedOk(s', k) { assert FreedJobOk(s, k) && ServedOk(s, k); }
  }

  lemma AsyncEnqueueJobs(s: State, c: nat)
    requires JobsInv(s) && c < |s.clients| && s.clients[c].AsyncBuilt? && s.clients[c].job in s.sh.jobs
    ensures JobsInv(StepAsyncEnqueue(s, c))
  {
    var s' := StepAsyncEnqueue(s, c);
    assert ClientOk(s, c) && JobOk(s, s.clients[c].job);
    forall k ensures JobOk(s', k) { assert JobOk(s, k); }
    forall d ensures ClientOk(s', d) { assert ClientOk(s, d); }
    forall v ensures WorkerOk(s', v) { assert WorkerOk(s, v); }
    forall k ensures FreedJobOk(s', k) && ServedOk(s', k) { assert FreedJobOk(s, k) && ServedOk(s, k); }
  }

  lemma UnlinkJobs(s: State, c: nat, j: JobId, key: Key)
    requires JobsInv(s) && c < |s.clients| && s.clients[c] == Ready
    requires j in s.sh.all && j in s.sh.jobs && s.sh.jobs[j].done && s.sh.jobs[j].key == Some(key)
    ensures JobsInv(StepUnlink(s, c, j, key))
  {
    var s' := StepUnlink(s, c, j, key);
    assert JobOk(s, j);
    forall k ensures JobOk(s', k) { assert JobOk(s, k); }
    forall d ensures ClientOk(s', d) { assert ClientOk(s, d); }
    forall v ensures WorkerOk(s', v) { assert WorkerOk(s, v); }
    forall k ensures FreedJobOk(s', k) && ServedOk(s', k) { assert FreedJobOk(s, k) && ServedOk(s, k); }
  }

  lemma DequeueJobs(s: State, w: nat)
    requires JobsInv(s) && w < |s.workers| && s.workers[w] == Idle && s.sh.queue != []
    ensures JobsInv(StepDequeue(s, w))
  {
    var s' := StepDequeue(s, w);
    assert JobOk(s, s.sh.queue[0]);
    forall k ensures JobOk(s', k) { assert JobOk(s, k); }
    forall c ensures ClientOk(s', c) { assert ClientOk(s, c); }
    forall v ensures WorkerOk(s', v) { assert WorkerOk(s, v); }
    forall k ensures FreedJobOk(s', k) && ServedOk(s', k) { assert FreedJobOk(s, k) && ServedOk(s, k); }
  }

  lemma RenderJobs(r: RenderArgs -> Image, s: State, w: nat)
    requires JobsInv(s) && w < |s.workers| && s.workers[w].Rendering? && s.workers[w].job in s.sh.jobs
    ensures JobsInv(StepRender(r, s, w))
  {
    var s' := StepRender(r, s, w);
    assert WorkerOk(s, w);
    forall k ensures JobOk(s', k) { assert JobOk(s, k); }
    forall c ensures ClientOk(s', c) { assert ClientOk(s, c); }
    forall v ensures WorkerOk(s', v) { assert WorkerOk(s, v); }
    forall k ensures FreedJobOk(s', k) && ServedOk(s', k) { assert FreedJobOk(s, k) && ServedOk(s, k); }
  }

  lemma PublishJobs(s: State, w: nat)
    requires JobsInv(s) && w < |s.workers| && s.workers[w].Rendered? && s.workers[w].job in s.sh.jobs
    ensures JobsInv(StepPublish(s, w))
  {
    var s' := StepPublish(s, w);
    assert WorkerOk(s, w) && JobOk(s, s.workers[w].job);
    forall k ensures JobOk(s', k) { assert JobOk(s, k); }
    forall c ensures ClientOk(s', c) { assert ClientOk(s, c); }
    forall v ensures WorkerOk(s', v) { assert WorkerOk(s, v); }
    forall k ensures FreedJobOk(s', k) && ServedOk(s', k) { assert FreedJobOk(s, k) && ServedOk(s, k); }
  }

  lemma FreeAllJobs(s: State)
    requires JobsInv(s) && s.shutdown == Joined
    ensures JobsInv(FreeEverything(s))
  {
    assert WorkerOk(s, 0);
    forall k ensures JobOk(FreeEverything(s), k) { FreeAllJob(s, k); }
    forall c: nat ensures ClientOk(FreeEverything(s), c) { FreeAllClient(s, c); }
    forall v ensures WorkerOk(FreeEverything(s), v) { assert WorkerOk(s, v); }
    forall k ensures FreedJobOk(FreeEverything(s), k) && ServedOk(FreeEverything(s), k) { FreeAllHistory(s, k); }
  }

  lemma FreeAllJob(s: State, k: JobId)
    requires JobsInv(s) && s.shutdown == Joined
    ensures JobOk(FreeEverything(s), k)
  {
    assert JobOk(s, k) && WorkerOk(s, 0);
  }

  lemma FreeAllClient(s: State, c: nat)
    requires JobsInv(s) && s.shutdown == Joined
    ensures ClientOk(FreeEverything(s), c)
  {
    assert ClientOk(s, c);
    if c < |s.clients| && HeldBy(s.clients[c]).Some? { assert JobOk(s, HeldBy(s.clients[c]).value); }
  }

  lemma FreeAllHistory(s: State, k: JobId)
    requires JobsInv(s) && s.shutdown == Joined
    ensures FreedJobOk(FreeEverything(s), k) && ServedOk(FreeEverything(s), k)
  {
    assert FreedJobOk(s, k) && JobOk(s, k) && ServedOk(s, k) && WorkerOk(s, 0);
  }

  // --------------------------------------------- each step keeps the bitmaps

  /** Steps that leave bitmaps, results and renderer outputs alone. */
  lemma FrameBitmaps(r: RenderArgs -> Image, s: State, t: State)
    requires BitmapsInv(r, s)
    requires t.pixels == s.pixels && t.home == s.home && t.delivered == s.delivered
    requires t.freedBms == s.freedBms && t.nextBm == s.nextBm && |t.workers| == |s.workers|
    requires forall w :: 0 <= w < |s.workers| ==>
               t.workers[w] == s.workers[w] || (!s.workers[w].Rendered? && !t.workers[w].Rendered?)
    requires forall j :: j in s.sh.jobs ==>
               && j in t.sh.jobs && t.sh.jobs[j].args == s.sh.jobs[j].args
               && t.sh.jobs[j].result == s.sh.jobs[j].result && t.sh.jobs[j].done == s.sh.jobs[j].done
    requires forall j :: j in t.sh.jobs && j !in s.sh.jobs ==>
               t.sh.jobs[j].result.None? && !t.sh.jobs[j].done
    ensures BitmapsInv(r, t)
  {
    forall b ensures HomeOk(r, t, b) { assert HomeOk(r, s, b); }
    forall j ensures ResultOk(t, j) { assert ResultOk(s, j); }
    forall w ensures RenderedOk(t, w) { assert RenderedOk(s, w); }
    forall n ensures DeliveredOk(t, n) { assert DeliveredOk(s, n); }
    forall b ensures FreedBmOk(t, b) { assert FreedBmOk(s, b); }
  }

  lemma TakeBitmaps(r: RenderArgs -> Image, s: State, c: nat, j: JobId, key: Option<Key>)
    requires Inv(r, s) && c < |s.clients| && j in s.sh.jobs && s.sh.jobs[j].result.Some?
    ensures BitmapsInv(r, Take(s, c, j, key))
  {
    var t := Take(s, c, j, key);
    assert ResultOk(s, j) && HomeOk(r, s, s.sh.jobs[j].result.value) && JobOk(s, j);
    forall b ensures HomeOk(r, t, b) {
      assert HomeOk(r, s, b);
      if b in s.pixels && s.home[b].InWorker? { assert WorkerOk(s, s.home[b].w); }
    }
    forall k ensures ResultOk(t, k) { assert ResultOk(s, k); }
    forall w ensures RenderedOk(t, w) { assert RenderedOk(s, w); }
    forall n ensures DeliveredOk(t, n) { assert DeliveredOk(s, n); }
    forall b ensures FreedBmOk(t, b) { assert FreedBmOk(s, b); }
  }

  lemma DirectBitmaps(r: RenderArgs -> Image, s: State, c: nat, args: RenderArgs)
    requires BitmapsInv(r, s)
    ensures BitmapsInv(r, StepDirect(r, s, c, args))
  {
    var t := StepDirect(r, s, c, args);
    assert HomeOk(r, s, s.nextBm);
    forall b ensures HomeOk(r, t, b) { assert HomeOk(r, s, b); }
    forall k ensures ResultOk(t, k) { assert ResultOk(s, k); }
    forall w ensures RenderedOk(t, w) { assert RenderedOk(s, w); }
    forall n ensures DeliveredOk(t, n) { assert DeliveredOk(s, n); }
    forall b ensures FreedBmOk(t, b) { assert FreedBmOk(s, b); }
  }

  lemma RenderBitmaps(r: RenderArgs -> Image, s: State, w: nat)
    requires BitmapsInv(r, s) && w < |s.workers| && s.workers[w].Rendering? && s.workers[w].job in s.sh.jobs
    ensures BitmapsInv(r, StepRender(r, s, w))
  {
    var t := StepRender(r, s, w);
    assert HomeOk(r, s, s.nextBm);
    forall b ensures HomeOk(r, t, b) { assert HomeOk(r, s, b); }
    forall k ensures ResultOk(t, k) { assert ResultOk(s, k); }
    forall v ensures RenderedOk(t, v) { assert RenderedOk(s, v); }
    forall n ensures DeliveredOk(t, n) { assert DeliveredOk(s, n); }
    forall b ensures FreedBmOk(t, b) { assert FreedBmOk(s, b); }
  }

  lemma PublishBitmaps(r: RenderArgs -> Image, s: State, w: nat)
    requires Inv(r, s) && w < |s.workers| && s.workers[w].Rendered? && s.workers[w].job in s.sh.jobs
    ensures BitmapsInv(r, StepPublish(s, w))
  {
    var t := StepPublish(s, w);
    var j, b0 := s.workers[w].job, s.workers[w].bm;
    assert RenderedOk(s, w) && HomeOk(r, s, b0) && WorkerOk(s, w) && JobOk(s, j) && ResultOk(s, j);
    forall b ensures HomeOk(r, t, b) {
      assert HomeOk(r, s, b);
      if b in s.pixels && s.home[b].InWorker? { assert WorkerOk(s, s.home[b].w); }
    }
    forall k ensures ResultOk(t, k) { assert ResultOk(s, k); }
    forall v ensures RenderedOk(t, v) { assert RenderedOk(s, v); }
    forall n ensures DeliveredOk(t, n) { assert DeliveredOk(s, n); }
    forall b ensures FreedBmOk(t, b) { assert FreedBmOk(s, b); }
  }

  /** A bitmap dies with its container only if the container is its home. */
  lemma DoomedHome(r: RenderArgs -> Image, s: State, js: set<JobId>, b: BitmapId)
    requires BitmapsInv(r, s)
    ensures b in ResultsOf(s, js) <==>
              b in s.pixels && b in s.home && s.home[b].InJob? && s.home[b].job in js && s.home[b].job in s.sh.jobs
  {
    assert HomeOk(r, s, b);
    if b in ResultsOf(s, js) {
      var j :| j in js && j in s.sh.jobs && s.sh.jobs[j].result == Some(b);
      assert ResultOk(s, j);
    }
    if b in s.pixels && b in s.home && s.home[b].InJob? && s.home[b].job in js && s.home[b].job in s.sh.jobs {
      assert s.sh.jobs[s.home[b].job].result == Some(b);
    }
  }

  lemma FreeAllBitmaps(r: RenderArgs -> Image, s: State)
    requires Inv(r, s) && s.shutdown == Joined
    ensures BitmapsInv(r, FreeEverything(s))
  {
    var t := FreeEverything(s);
    var dead := Doomed(s);
    forall b ensures HomeOk(r, t, b) { assert HomeOk(r, s, b); DoomedHome(r, s, dead, b); }
    forall k: JobId ensures ResultOk(t, k) {
      assert ResultOk(s, k);
      if k in s.sh.jobs && s.sh.jobs[k].result.Some? { DoomedHome(r, s, dead, s.sh.jobs[k].result.value); }
    }
    forall v: nat ensures RenderedOk(t, v) { }
    forall n: nat ensures DeliveredOk(t, n) {
      assert DeliveredOk(s, n);
      if n < |s.delivered| { DoomedHome(r, s, dead, s.delivered[n].bm); }
    }
    forall b ensures FreedBmOk(t, b) { assert FreedBmOk(s, b) && HomeOk(r, s, b); DoomedHome(r, s, dead, b); }
  }

  // ------------------------------------------------------------- whole steps

  lemma FlagsInv(r: RenderArgs -> Image, s: State, t: State)
    requires Inv(r, s)
    requires t == s.(sh := s.sh.(running := t.sh.running, active := t.sh.active), shutdown := t.shutdown)
    requires t.sh.running ==> s.sh.running
    requires PhaseOk(t)
    ensures Inv(r, t)
  {
    forall k ensures JobOk(t, k) { assert JobOk(s, k); }
    forall c ensures ClientOk(t, c) { assert ClientOk(s, c); }
    forall v ensures WorkerOk(t, v) { assert WorkerOk(s, v); }
    forall k ensures FreedJobOk(t, k) && ServedOk(t, k) { assert FreedJobOk(s, k) && ServedOk(s, k); }
    FrameBitmaps(r, s, t);
  }

  /** A worker that leaves, or that goes back to waiting for work. */
  lemma RestInv(r: RenderArgs -> Image, s: State, w: nat, pc: WorkerPc)
    requires Inv(r, s) && ((Enabled(s, Exit(w)) && pc == Exited) || (Enabled(s, Signal(w)) && pc == Idle))
    ensures Inv(r, s.(workers := s.workers[w := pc]))
  {
    var t := s.(workers := s.workers[w := pc]);
    forall k ensures JobOk(t, k) { assert JobOk(s, k); }
    forall c ensures ClientOk(t, c) { assert ClientOk(s, c); }
    forall v ensures WorkerOk(t, v) { assert WorkerOk(s, v); }
    forall k ensures FreedJobOk(t, k) && ServedOk(t, k) { assert FreedJobOk(s, k) && ServedOk(s, k); }
    FrameBitmaps(r, s, t);
  }

  lemma DirectInv(r: RenderArgs -> Image, s: State, c: nat, args: RenderArgs)
    requires Inv(r, s)
    ensures Inv(r, StepDirect(r, s, c, args))
  {
    var t := StepDirect(r, s, c, args);
    forall k ensures JobOk(t, k) { assert JobOk(s, k); }
    forall c ensures ClientOk(t, c) { assert ClientOk(s, c); }
    forall v ensures WorkerOk(t, v) { assert WorkerOk(s, v); }
    forall k ensures FreedJobOk(t, k) && ServedOk(t, k) { assert FreedJobOk(s, k) && ServedOk(s, k); }
    DirectBitmaps(r, s, c, args);
  }

  lemma SyncBuildInv(r: RenderArgs -> Image, s: State, c: nat, args: RenderArgs)
    requires Inv(r, s) && c < |s.clients| && s.clients[c] == Ready
    ensures Inv(r, Build(s, c, NewJob(args, 0), SyncBuilt(s.nextJob)))
  {
    BuildJobs(s, c, NewJob(args, 0), SyncBuilt(s.nextJob));
    assert JobOk(s, s.nextJob);
    FrameBitmaps(r, s, Build(s, c, NewJob(args, 0), SyncBuilt(s.nextJob)));
  }

  lemma SyncEnqueueInv(r: RenderArgs -> Image, s: State, c: nat)
    requires Inv(r, s) && c < |s.clients| && s.clients[c].SyncBuilt? && s.clients[c].job in s.sh.jobs
    ensures Inv(r, StepSyncEnqueue(s, c))
  {
    SyncEnqueueJobs(s, c);
    FrameBitmaps(r, s, StepSyncEnqueue(s, c));
  }

  lemma SyncWakeInv(r: RenderArgs -> Image, s: State, c: nat)
    requires Inv(r, s) && Enabled(s, SyncWake(c))
    ensures Inv(r, SetClient(s, c, SyncDone(s.clients[c].job)))
  {
    assert ClientOk(s, c) && JobOk(s, s.clients[c].job);
    RepcJobs(s, c, SyncDone(s.clients[c].job));
    FrameBitmaps(r, s, SetClient(s, c, SyncDone(s.clients[c].job)));
  }

  lemma TakeInv(r: RenderArgs -> Image, s: State, c: nat, j: JobId, key: Option<Key>)
    requires Inv(r, s) && c < |s.clients| && HeldBy(s.clients[c]) == Some(j)
    requires j in s.sh.jobs && s.sh.jobs[j].result.Some?
    ensures Inv(r, Take(s, c, j, key))
  {
    assert ResultOk(s, j);
    TakeJobs(s, c, j, key);
    TakeBitmaps(r, s, c, j, key);
  }

  lemma DepthStepInv(r: RenderArgs -> Image, s: State, c: nat)
    requires Inv(r, s) && Enabled(s, AsyncDepth(c)) && Safe(s, AsyncDepth(c))
    ensures Inv(r, Do(r, s, AsyncDepth(c)))
  {
    var t := Do(r, s, AsyncDepth(c));
    assert JobOk(s, s.nextJob);
    if |s.sh.queue| >= MAX_QUEUE_DEPTH { RepcJobs(s, c, Ready); } else {
      BuildJobs(s, c, NewJob(s.clients[c].args, s.clients[c].align), t.clients[c]);
    }
    FrameBitmaps(r, s, t);
  }

  lemma SubmitStepInv(r: RenderArgs -> Image, s: State, e: Event)
    requires Inv(r, s) && Enabled(s, e) && Safe(s, e)
    requires e.AsyncAdmit? || e.AsyncEnqueue?
    ensures Inv(r, Do(r, s, e))
  {
    var t := Do(r, s, e);
    assert ClientOk(s, e.c);
    if e.AsyncAdmit? { RepcJobs(s, e.c, t.clients[e.c]); } else { AsyncEnqueueJobs(s, e.c); }
    FrameBitmaps(r, s, t);
  }

  lemma RetrieveStepInv(r: RenderArgs -> Image, s: State, e: Event)
    requires Inv(r, s) && Enabled(s, e) && Safe(s, e)
    requires e.TryGet? || e.TakeResult?
    ensures Inv(r, Do(r, s, e))
  {
    match e
    case TryGet(c, key) =>
      var found := FindKey(s.sh.jobs, s.sh.all, key);
      if found.Some? && s.sh.jobs[found.value].done {
        UnlinkJobs(s, c, found.value, key); FrameBitmaps(r, s, Do(r, s, e));
      }
    case TakeResult(c) => TakeInv(r, s, c, s.clients[c].job, Some(s.clients[c].key));
  }

  /** Every safe event of every thread keeps the invariant. */
  lemma StepInv(r: RenderArgs -> Image, s: State, e: Event)
    requires Inv(r, s) && Enabled(s, e) && Safe(s, e)
    ensures Inv(r, Do(r, s, e))
  {
    match e
    case SyncDirect(c, args) => DirectInv(r, s, c, args);
    case Dequeue(w) => DequeueJobs(s, w); FrameBitmaps(r, s, StepDequeue(s, w));
    case Render(w) => RenderJobs(r, s, w); RenderBitmaps(r, s, w);
    case PublishResult(w) => PublishJobs(s, w); PublishBitmaps(r, s, w);
    case Signal(w) => RestInv(r, s, w, Idle);
    case Exit(w) => RestInv(r, s, w, Exited);
    case Deactivate => FlagsInv(r, s, Do(r, s, e));
    case Stop => FlagsInv(r, s, Do(r, s, e));
    case Join => FlagsInv(r, s, Do(r, s, e));
    case FreeAll => FreeAllJobs(s); FreeAllBitmaps(r, s);
    case SyncBuild(c, args) => SyncBuildInv(r, s, c, args);
    case SyncEnqueue(c) => SyncEnqueueInv(r, s, c);
    case SyncWake(c) => SyncWakeInv(r, s, c);
    case SyncTake(c) => TakeInv(r, s, c, s.clients[c].job, None);
    case TryGet(_, _) => RetrieveStepInv(r, s, e);
    case TakeResult(_) => RetrieveStepInv(r, s, e);
    case AsyncDepth(c) => DepthStepInv(r, s, c);
    case _ => SubmitStepInv(r, s, e);
  }
}
