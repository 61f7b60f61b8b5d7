/** The render pool as a step machine: one event per critical section of a
    worker, a synchronous caller, an asynchronous submitter, a retriever or the
    one thread that shuts the pool down.  Publication is two events, because
    retrieval reads `done` without the job's own mutex: the worker stores the result
    and sets `done`, and later signals and unlocks, touching the job once more.  A run
    is any interleaving of these events up to the first that is unsafe. */
module PoolMachine {
  import opened Common
  import opened PoolJobs

  /** A `Signalling` worker has set `done` and still holds the job's own mutex. */
  datatype WorkerPc =
    | Idle | Rendering(job: JobId) | Rendered(job: JobId, bm: BitmapId) | Signalling(job: JobId) | Exited

  datatype ClientPc =
    | Ready
    | SyncBuilt(job: JobId) | SyncWaiting(job: JobId) | SyncDone(job: JobId)
    | AsyncAdmitted(key: Key, args: RenderArgs, align: int) | AsyncBuilt(job: JobId, key: Key)
    | Taking(job: JobId, key: Key)

  datatype ShutdownPc = NotStarted | Inactive | Stopping | Joined | Finished

  /** A bitmap handed to a caller, with the arguments of the job it came from. */
  datatype Delivery = Delivery(client: nat, key: Option<Key>, args: RenderArgs, bm: BitmapId)

  /** Bookkeeping that no guard reads: how far a job has come, who will free it,
      and who holds a bitmap. */
  datatype Stage = Private | Queued | AtWorker(w: nat) | Complete | Abandoned
  datatype Owner = Keyed | OfClient(c: nat)
  datatype Home = InJob(job: JobId) | InWorker(w: nat) | WithCaller(n: nat)

  datatype State = State(
    sh: Shared, workers: seq<WorkerPc>, clients: seq<ClientPc>, shutdown: ShutdownPc,
    pixels: map<BitmapId, Image>, nextJob: JobId, nextBm: BitmapId,
    delivered: seq<Delivery>, freed: multiset<JobId>, freedBms: multiset<BitmapId>,
    enqueued: seq<JobId>, dequeued: seq<JobId>, published: set<JobId>, late: bool,
    stage: map<JobId, Stage>, owner: map<JobId, Owner>, home: map<BitmapId, Home>)

  datatype Event =
    | SyncDirect(c: nat, args: RenderArgs)
    | SyncBuild(c: nat, args: RenderArgs) | SyncEnqueue(c: nat) | SyncWake(c: nat) | SyncTake(c: nat)
    | AsyncAdmit(c: nat, key: Key, args: RenderArgs, align: int) | AsyncDepth(c: nat) | AsyncEnqueue(c: nat)
    | TryGet(c: nat, key: Key) | TakeResult(c: nat)
    | Dequeue(w: nat) | Render(w: nat) | PublishResult(w: nat) | Signal(w: nat) | Exit(w: nat)
    | Deactivate | Stop | Join | FreeAll

  ghost predicate Init(s: State) {
    && s.sh == Shared(map[], [], [], true, true)
    && |s.workers| >= 1
    && (forall w :: 0 <= w < |s.workers| ==> s.workers[w] == Idle)
    && (forall c :: 0 <= c < |s.clients| ==> s.clients[c] == Ready)
    && s.shutdown == NotStarted && s.pixels == map[] && s.nextJob == 0 && s.nextBm == 0
    && s.delivered == [] && s.freed == multiset{} && s.freedBms == multiset{}
    && s.enqueued == [] && s.dequeued == [] && s.published == {} && !s.late
    && s.stage == map[] && s.owner == map[] && s.home == map[]
  }

  /** Some worker is between setting `done` on this job and unlocking the job's mutex,
      which keeps a waiting caller, but no retriever, from going on. */
  ghost predicate Signalled(s: State, j: JobId) {
    exists w :: 0 <= w < |s.workers| && s.workers[w] == Signalling(j)
  }

  /** The guards.  Where a guard reads a job that has been freed, the event counts
      as enabled, so that `Safe` has to rule it out. */
  ghost predicate Enabled(s: State, e: Event) {
    match e
    case SyncDirect(c, _) => c < |s.clients| && s.clients[c] == Ready && !s.sh.active
    case SyncBuild(c, _) => c < |s.clients| && s.clients[c] == Ready && s.sh.active
    case SyncEnqueue(c) => c < |s.clients| && s.clients[c].SyncBuilt?
    case SyncWake(c) => c < |s.clients| && s.clients[c].SyncWaiting? && !Signalled(s, s.clients[c].job)
                        && (s.clients[c].job in s.sh.jobs ==> s.sh.jobs[s.clients[c].job].done)
    case SyncTake(c) => c < |s.clients| && s.clients[c].SyncDone?
    case AsyncAdmit(c, _, _, _) => c < |s.clients| && s.clients[c] == Ready && s.sh.active
    case AsyncDepth(c) => c < |s.clients| && s.clients[c].AsyncAdmitted?
    case AsyncEnqueue(c) => c < |s.clients| && s.clients[c].AsyncBuilt?
    case TryGet(c, _) => c < |s.clients| && s.clients[c] == Ready
    case TakeResult(c) => c < |s.clients| && s.clients[c].Taking?
    case Dequeue(w) => w < |s.workers| && s.workers[w] == Idle && s.sh.queue != []
    case Render(w) => w < |s.workers| && s.workers[w].Rendering?
    case PublishResult(w) => w < |s.workers| && s.workers[w].Rendered?
    case Signal(w) => w < |s.workers| && s.workers[w].Signalling?
    case Exit(w) => w < |s.workers| && s.workers[w] == Idle && !s.sh.running && s.sh.queue == []
    case Deactivate => s.shutdown == NotStarted && s.sh.active
    case Stop => s.shutdown == Inactive
    case Join => s.shutdown == Stopping && forall w :: 0 <= w < |s.workers| ==> s.workers[w] == Exited
    case FreeAll => s.shutdown == Joined
  }

  /** The job containers an event reads or writes. */
  ghost function Touched(s: State, e: Event): set<JobId>
    requires Enabled(s, e)
  {
    match e
    case SyncDirect(_, _) => {}
    case SyncBuild(_, _) => {}
    case SyncEnqueue(c) => {s.clients[c].job} + Last(s.sh.queue)
    case SyncWake(c) => {s.clients[c].job}
    case SyncTake(c) => {s.clients[c].job}
    case AsyncAdmit(_, _, _, _) => {}
    case AsyncDepth(c) => set j | j in s.sh.queue
    case AsyncEnqueue(c) => {s.clients[c].job} + Last(s.sh.queue)
    case TryGet(_, _) => set j | j in s.sh.all
    case TakeResult(c) => {s.clients[c].job}
    case Dequeue(_) => {s.sh.queue[0]}
    case Render(w) => {s.workers[w].job}
    case PublishResult(w) => {s.workers[w].job}
    case Signal(w) => {s.workers[w].job}
    case Exit(_) => {}
    case Deactivate => {}
    case Stop => {}
    case Join => {}
    case FreeAll => (set j | j in s.sh.queue) + (set j | j in s.sh.all)
  }

  ghost function Last(q: seq<JobId>): set<JobId> {
    if q == [] then {} else {q[|q| - 1]}
  }

  /** The event touches live containers only, and a result it takes is there. */
  ghost predicate Safe(s: State, e: Event)
    requires Enabled(s, e)
  {
    && Touched(s, e) <= s.sh.jobs.Keys
    && (e.SyncTake? || e.TakeResult? ==> s.sh.jobs[s.clients[e.c].job].result.Some?)
    && (e.SyncTake? ==> s.sh.jobs[s.clients[e.c].job].waiters > 0)
  }

  ghost function SetClient(s: State, c: nat, pc: ClientPc): State
    requires c < |s.clients|
  {
    s.(clients := s.clients[c := pc])
  }

  ghost function Build(s: State, c: nat, job: Job, pc: ClientPc): State
    requires c < |s.clients|
  {
    SetClient(s, c, pc).(
      sh := s.sh.(jobs := s.sh.jobs[s.nextJob := job]), nextJob := s.nextJob + 1,
      stage := s.stage[s.nextJob := Private], owner := s.owner[s.nextJob := OfClient(c)])
  }

  /** Steal the result, then free the container. */
  ghost function Take(s: State, c: nat, j: JobId, key: Option<Key>): State
    requires c < |s.clients| && j in s.sh.jobs && s.sh.jobs[j].result.Some?
  {
    var b := s.sh.jobs[j].result.value;
    SetClient(s, c, Ready).(
      sh := Free(s.sh, j), freed := s.freed + multiset{j},
      delivered := s.delivered + [Delivery(c, key, s.sh.jobs[j].args, b)],
      home := s.home[b := WithCaller(|s.delivered|)],
      stage := s.stage - {j}, owner := s.owner - {j})
  }

  ghost function LogEnqueue(s: State, j: JobId): State {
    s.(enqueued := s.enqueued + [j], late := s.late || !s.sh.running, stage := s.stage[j := Queued])
  }

  ghost function Doomed(s: State): set<JobId> {
    QueueDoomed(s.sh) + AllDoomed(QueuePass(s.sh))
  }

  ghost function ResultsOf(s: State, js: set<JobId>): set<BitmapId> {
    set j | j in js && j in s.sh.jobs && s.sh.jobs[j].result.Some? :: s.sh.jobs[j].result.value
  }

  /** Both passes of shutdown, in the one critical section that holds them. */
  ghost function FreeEverything(s: State): State {
    var dead := Doomed(s);
    var bms := ResultsOf(s, dead);
    s.(sh := AllPass(QueuePass(s.sh)), shutdown := Finished, dequeued := s.dequeued + s.sh.queue,
       freed := s.freed + multiset(dead), freedBms := s.freedBms + multiset(bms),
       pixels := s.pixels - bms, home := s.home - bms,
       stage := (map j | j in s.stage && j !in dead :: if j in s.sh.queue then Abandoned else s.stage[j]),
       owner := s.owner - dead)
  }

  ghost function StepSyncEnqueue(s: State, c: nat): State
    requires c < |s.clients| && s.clients[c].SyncBuilt? && s.clients[c].job in s.sh.jobs
  {
    var j := s.clients[c].job;
    LogEnqueue(SetClient(s, c, SyncWaiting(j)), j).(sh := EnqueueSync(s.sh, j))
  }

  ghost function StepAsyncEnqueue(s: State, c: nat): State
    requires c < |s.clients| && s.clients[c].AsyncBuilt? && s.clients[c].job in s.sh.jobs
  {
    var j := s.clients[c].job;
    LogEnqueue(SetClient(s, c, Ready), j).(
      sh := EnqueueAsync(s.sh, j, s.clients[c].key), owner := s.owner[j := Keyed])
  }

  ghost function StepUnlink(s: State, c: nat, j: JobId, key: Key): State
    requires c < |s.clients|
  {
    SetClient(s, c, Taking(j, key)).(sh := Unlink(s.sh, j), owner := s.owner[j := OfClient(c)])
  }

  ghost function StepDequeue(s: State, w: nat): State
    requires w < |s.workers| && s.sh.queue != []
  {
    var j := s.sh.queue[0];
    s.(sh := s.sh.(queue := s.sh.queue[1..]), workers := s.workers[w := Rendering(j)],
       dequeued := s.dequeued + [j], stage := s.stage[j := AtWorker(w)])
  }

  ghost function StepRender(r: RenderArgs -> Image, s: State, w: nat): State
    requires w < |s.workers| && s.workers[w].Rendering? && s.workers[w].job in s.sh.jobs
  {
    var j := s.workers[w].job;
    s.(pixels := s.pixels[s.nextBm := r(s.sh.jobs[j].args)], nextBm := s.nextBm + 1,
       workers := s.workers[w := Rendered(j, s.nextBm)], home := s.home[s.nextBm := InWorker(w)])
  }

  ghost function StepPublish(s: State, w: nat): State
    requires w < |s.workers| && s.workers[w].Rendered? && s.workers[w].job in s.sh.jobs
  {
    var j, b := s.workers[w].job, s.workers[w].bm;
    s.(sh := Publish(s.sh, j, b), workers := s.workers[w := Signalling(j)], published := s.published + {j},
       home := s.home[b := InJob(j)], stage := s.stage[j := Complete])
  }

  ghost function StepDirect(r: RenderArgs -> Image, s: State, c: nat, args: RenderArgs): State {
    s.(pixels := s.pixels[s.nextBm := r(args)], nextBm := s.nextBm + 1,
       delivered := s.delivered + [Delivery(c, None, args, s.nextBm)],
       home := s.home[s.nextBm := WithCaller(|s.delivered|)])
  }

  ghost function Do(r: RenderArgs -> Image, s: State, e: Event): (t: State)
    requires Enabled(s, e) && Safe(s, e)
    ensures |t.clients| == |s.clients|
  {
    match e
    case SyncDirect(c, args) => StepDirect(r, s, c, args)
    case SyncBuild(c, args) => Build(s, c, NewJob(args, 0), SyncBuilt(s.nextJob))
    case SyncEnqueue(c) => StepSyncEnqueue(s, c)
    case SyncWake(c) => SetClient(s, c, SyncDone(s.clients[c].job))
    case SyncTake(c) => Take(s, c, s.clients[c].job, None)
    case AsyncAdmit(c, key, args, align) => SetClient(s, c, AsyncAdmitted(key, args, align))
    case AsyncDepth(c) =>
      if |s.sh.queue| >= MAX_QUEUE_DEPTH then SetClient(s, c, Ready)
      else Build(s, c, NewJob(s.clients[c].args, s.clients[c].align), AsyncBuilt(s.nextJob, s.clients[c].key))
    case AsyncEnqueue(c) => StepAsyncEnqueue(s, c)
    case TryGet(c, key) =>
      var found := FindKey(s.sh.jobs, s.sh.all, key);
      if found.None? || !s.sh.jobs[found.value].done then s else StepUnlink(s, c, found.value, key)
    case TakeResult(c) => Take(s, c, s.clients[c].job, Some(s.clients[c].key))
    case Dequeue(w) => StepDequeue(s, w)
    case Render(w) => StepRender(r, s, w)
    case PublishResult(w) => StepPublish(s, w)
    case Signal(w) => s.(workers := s.workers[w := Idle])
    case Exit(w) => s.(workers := s.workers[w := Exited])
    case Deactivate => s.(sh := s.sh.(active := false), shutdown := Inactive)
    case Stop => s.(sh := s.sh.(running := false), shutdown := Stopping)
    case Join => s.(shutdown := Joined)
    case FreeAll => FreeEverything(s)
  }

  /** `tr` is a run: it starts in a fresh pool and every step is an enabled event that
      touches live containers only. */
  ghost predicate Run(r: RenderArgs -> Image, tr: seq<State>, es: seq<Event>) {
    && |tr| == |es| + 1 && Init(tr[0])
    && forall i :: 0 <= i < |es| ==>
         Enabled(tr[i], es[i]) && Safe(tr[i], es[i]) && tr[i + 1] == Do(r, tr[i], es[i])
  }
}
