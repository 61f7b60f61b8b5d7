/** The data the render pool's threads share, and what each critical section
    does to it.  A freed container is a job id that has left `jobs`, so reading
    a freed job is reading a map outside its domain. */
module PoolJobs {
  import opened Common

  type JobId = nat
  type BitmapId = nat

  /** What the renderer returns; nothing is known about it. */
  type Image(==, !new)

  datatype Key = Key(track: int, cue: int)

  datatype Style = Style(size: int, family: Option<string>, face: Option<string>,
                         fg: Option<string>, outline: Option<string>,
                         shadow: Option<string>, bg: Option<string>)

  datatype Position = Position(anchor: int, top: real, left: real, bottom: real, right: real)

  /** Exactly the arguments a worker hands to the renderer. */
  datatype RenderArgs = RenderArgs(markup: string, width: int, height: int, style: Style,
                                   position: Position, palette: Option<string>)

  /** `align` is stored by asynchronous submission and never read again. */
  datatype Job = Job(args: RenderArgs, align: int, key: Option<Key>, done: bool,
                     result: Option<BitmapId>, waiters: nat, freed: bool)

  /** `queue` is the worker FIFO, `all` the keyed list with its head first. */
  datatype Shared = Shared(jobs: map<JobId, Job>, queue: seq<JobId>, all: seq<JobId>,
                           running: bool, active: bool)

  const MAX_QUEUE_DEPTH: nat := 1024

  function NewJob(args: RenderArgs, align: int): Job {
    Job(args, align, None, false, None, 0, false)
  }

  function EnqueueSync(sh: Shared, j: JobId): Shared
    requires j in sh.jobs
  {
    sh.(queue := sh.queue + [j],
        jobs := sh.jobs[j := sh.jobs[j].(waiters := sh.jobs[j].waiters + 1)])
  }

  function EnqueueAsync(sh: Shared, j: JobId, key: Key): Shared
    requires j in sh.jobs
  {
    sh.(queue := sh.queue + [j], all := [j] + sh.all,
        jobs := sh.jobs[j := sh.jobs[j].(key := Some(key))])
  }

  /** The first job of the keyed list that carries `key`. */
  function FindKey(jobs: map<JobId, Job>, all: seq<JobId>, key: Key): (r: Option<JobId>)
    requires forall j :: j in all ==> j in jobs
    ensures r.Some? ==> r.value in all && jobs[r.value].key == Some(key)
    ensures r.None? <==> forall j :: j in all ==> jobs[j].key != Some(key)
  {
    if all == [] then None
    else if jobs[all[0]].key == Some(key) then Some(all[0])
    else FindKey(jobs, all[1..], key)
  }

  /** `xs` with the members of `dead` taken out, order kept. */
  function Without(xs: seq<JobId>, dead: set<JobId>): (r: seq<JobId>)
    ensures forall x :: x in r <==> x in xs && x !in dead
    ensures NoDup(xs) ==> NoDup(r)
    ensures |r| <= |xs|
  {
    if xs == [] then []
    else if xs[0] in dead then Without(xs[1..], dead)
    else [xs[0]] + Without(xs[1..], dead)
  }

  function Unlink(sh: Shared, j: JobId): Shared {
    sh.(all := Without(sh.all, {j}))
  }

  function Free(sh: Shared, j: JobId): Shared
    requires j in sh.jobs
  {
    sh.(jobs := sh.jobs - {j})
  }

  function Publish(sh: Shared, j: JobId, b: BitmapId): Shared
    requires j in sh.jobs
  {
    sh.(jobs := sh.jobs[j := sh.jobs[j].(result := Some(b), done := true)])
  }

  /** The containers shutdown frees while it drains the queue. */
  ghost function QueueDoomed(sh: Shared): set<JobId> {
    set j | j in sh.queue && j in sh.jobs && sh.jobs[j].waiters == 0
  }

  ghost function Elems(xs: seq<JobId>): set<JobId> {
    set j | j in xs
  }

  /** Draining the queue: a job somebody waits on is only marked; the others are
      freed.  All of them leave the keyed list. */
  ghost function QueuePass(sh: Shared): Shared {
    sh.(jobs := map j | j in sh.jobs && j !in QueueDoomed(sh) ::
                  if j in sh.queue then sh.jobs[j].(freed := true) else sh.jobs[j],
        all := Without(sh.all, Elems(sh.queue)),
        queue := [])
  }

  /** The containers freed while shutdown walks the keyed list. */
  ghost function AllDoomed(sh: Shared): set<JobId> {
    set j | j in sh.all && j in sh.jobs && !sh.jobs[j].freed
  }

  ghost function AllPass(sh: Shared): Shared {
    sh.(jobs := sh.jobs - AllDoomed(sh), all := [])
  }
}
