/** What one event of the render pool leaves alone, by the kind of thread that moves. */
module PoolFrames {
  import opened Common
  import opened PoolJobs
  import opened PoolMachine

  ghost predicate BySyncCaller(e: Event) {
    e.SyncDirect? || e.SyncBuild? || e.SyncEnqueue? || e.SyncWake? || e.SyncTake?
  }

  ghost predicate ByAsyncClient(e: Event) {
    e.AsyncAdmit? || e.AsyncDepth? || e.AsyncEnqueue? || e.TryGet? || e.TakeResult?
  }

  ghost predicate ByWorker(e: Event) {
    e.Dequeue? || e.Render? || e.PublishResult? || e.Signal? || e.Exit?
  }

  ghost predicate ByShutdown(e: Event) { e.Deactivate? || e.Stop? || e.Join? || e.FreeAll? }

  /** The client an event belongs to. */
  ghost function ClientOf(e: Event): Option<nat> {
    if BySyncCaller(e) || ByAsyncClient(e) then Some(e.c) else None
  }

  ghost predicate CanDo(s: State, e: Event) { Enabled(s, e) && Safe(s, e) }

  // ------------------------------------------------------------ clients

  lemma SyncClients(r: RenderArgs -> Image, s: State, e: Event)
    requires CanDo(s, e) && BySyncCaller(e)
    ensures e.c < |s.clients| && Do(r, s, e).clients == s.clients[e.c := Do(r, s, e).clients[e.c]]
    ensures Do(r, s, e).workers == s.workers
  {
  }

  lemma AsyncClients(r: RenderArgs -> Image, s: State, e: Event)
    requires CanDo(s, e) && ByAsyncClient(e) && !e.TryGet?
    ensures e.c < |s.clients| && Do(r, s, e).clients == s.clients[e.c := Do(r, s, e).clients[e.c]]
    ensures Do(r, s, e).workers == s.workers
  {
  }

  lemma TryGetClients(r: RenderArgs -> Image, s: State, e: Event)
    requires CanDo(s, e) && e.TryGet?
    ensures e.c < |s.clients| && Do(r, s, e).clients == s.clients[e.c := Do(r, s, e).clients[e.c]]
    ensures Do(r, s, e).workers == s.workers
  {
  }

  lemma WorkerClients(r: RenderArgs -> Image, s: State, e: Event)
    requires CanDo(s, e) && ByWorker(e)
    ensures e.w < |s.workers| && Do(r, s, e).workers == s.workers[e.w := Do(r, s, e).workers[e.w]]
    ensures Do(r, s, e).clients == s.clients
  {
  }

  lemma ShutdownClients(r: RenderArgs -> Image, s: State, e: Event)
    requires CanDo(s, e) && ByShutdown(e)
    ensures Do(r, s, e).clients == s.clients && Do(r, s, e).workers == s.workers
  {
  }

  /** An event moves one client or one worker at most. */
  lemma ThreadsKept(r: RenderArgs -> Image, s: State, e: Event)
    requires CanDo(s, e)
    ensures |Do(r, s, e).clients| == |s.clients| && |Do(r, s, e).workers| == |s.workers|
    ensures forall c :: 0 <= c < |s.clients| && ClientOf(e) != Some(c) ==> Do(r, s, e).clients[c] == s.clients[c]
    ensures forall w :: 0 <= w < |s.workers| && !(ByWorker(e) && e.w == w) ==> Do(r, s, e).workers[w] == s.workers[w]
  {
    if BySyncCaller(e) { SyncClients(r, s, e); }
    else if e.TryGet? { TryGetClients(r, s, e); }
    else if ByAsyncClient(e) { AsyncClients(r, s, e); }
    else if ByWorker(e) { WorkerClients(r, s, e); }
    else { ShutdownClients(r, s, e); }
  }

  // ------------------------------------------------------------ jobs

  /** What may happen to a job that stays: its arguments never change, its key only when a
      submission enqueues it. */
  ghost predicate JobKept(s: State, t: State, j: JobId, keyed: bool) {
    j in s.sh.jobs && j in t.sh.jobs ==>
      t.sh.jobs[j].args == s.sh.jobs[j].args && (t.sh.jobs[j].key == s.sh.jobs[j].key || keyed)
  }

  lemma SyncJobs(r: RenderArgs -> Image, s: State, e: Event, j: JobId)
    requires CanDo(s, e) && BySyncCaller(e) && s.nextJob !in s.sh.jobs
    ensures JobKept(s, Do(r, s, e), j, false)
    ensures j in Do(r, s, e).sh.jobs && j !in s.sh.jobs ==>
              e.SyncBuild? && j == s.nextJob && Do(r, s, e).sh.jobs[j].key.None?
    ensures j in s.sh.jobs && j !in Do(r, s, e).sh.jobs ==> e.SyncTake? && s.clients[e.c].job == j
  {
  }

  lemma AsyncJobs(r: RenderArgs -> Image, s: State, e: Event, j: JobId)
    requires CanDo(s, e) && ByAsyncClient(e) && s.nextJob !in s.sh.jobs
    ensures JobKept(s, Do(r, s, e), j, e.AsyncEnqueue? && s.clients[e.c].job == j)
    ensures j in Do(r, s, e).sh.jobs && j !in s.sh.jobs ==>
              && e.AsyncDepth? && j == s.nextJob && Do(r, s, e).sh.jobs[j].key.None?
              && Do(r, s, e).clients[e.c] == AsyncBuilt(j, s.clients[e.c].key)
              && Do(r, s, e).sh.jobs[j].args == s.clients[e.c].args
    ensures j in s.sh.jobs && j !in Do(r, s, e).sh.jobs ==> e.TakeResult? && s.clients[e.c].job == j
  {
  }

  lemma WorkerJobs(r: RenderArgs -> Image, s: State, e: Event, j: JobId)
    requires CanDo(s, e) && ByWorker(e)
    ensures JobKept(s, Do(r, s, e), j, false)
    ensures j in Do(r, s, e).sh.jobs <==> j in s.sh.jobs
  {
  }

  lemma ShutdownJobs(r: RenderArgs -> Image, s: State, e: Event, j: JobId)
    requires CanDo(s, e) && ByShutdown(e)
    ensures JobKept(s, Do(r, s, e), j, false)
    ensures j in Do(r, s, e).sh.jobs ==> j in s.sh.jobs
    ensures j in s.sh.jobs && j !in Do(r, s, e).sh.jobs ==> e.FreeAll?
  {
  }

  /** Jobs come from building, keep their arguments, get their key when they are enqueued
      under it, and go with the caller that waited, the retriever, or shutdown. */
  lemma JobsKept(r: RenderArgs -> Image, s: State, e: Event, j: JobId)
    requires CanDo(s, e) && s.nextJob !in s.sh.jobs
    ensures JobKept(s, Do(r, s, e), j, e.AsyncEnqueue? && s.clients[e.c].job == j)
    ensures j in s.sh.jobs && j !in Do(r, s, e).sh.jobs ==>
              e.FreeAll? || ((e.SyncTake? || e.TakeResult?) && s.clients[e.c].job == j)
    ensures j in Do(r, s, e).sh.jobs && j !in s.sh.jobs ==>
              j == s.nextJob && Do(r, s, e).sh.jobs[j].key.None? && (e.SyncBuild? || e.AsyncDepth?)
    ensures j in Do(r, s, e).sh.jobs && j !in s.sh.jobs && e.AsyncDepth? ==>
              && Do(r, s, e).clients[e.c] == AsyncBuilt(j, s.clients[e.c].key)
              && Do(r, s, e).sh.jobs[j].args == s.clients[e.c].args
  {
    if BySyncCaller(e) { SyncJobs(r, s, e, j); }
    else if ByAsyncClient(e) { AsyncJobs(r, s, e, j); }
    else if ByWorker(e) { WorkerJobs(r, s, e, j); }
    else { ShutdownJobs(r, s, e, j); }
  }
}
