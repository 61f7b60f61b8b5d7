/** The demux thread as a client of the render pool: for each released cue it
    tries the pool, prefetches a window of cues, tries again, and falls back to a
    blocking render.  Whatever the other threads do meanwhile, the bitmap it ends
    up using is the direct rendering of that cue. */
module Prefetch {
  import opened Common
  import opened PoolJobs
  import opened PoolMachine
  import opened PoolFrames
  import opened PoolInvariant

  const PREFETCH_WINDOW: nat := 8

  datatype FetchPc = First | Window(i: nat) | Second | TakeAsync | Blocking | Used

  /** `key` is the cue being served, `count` the number of cues of its track. */
  datatype Demux = Demux(s: State, key: Key, count: int, pc: FetchPc, used: seq<(Key, Image)>)

  datatype Move =
    | Own(e: Event)            // a pool event of the demux thread
    | Refused                  // a submission turned away because the pool is inactive
    | WindowDone               // the prefetch loop ends
    | NextCue(key: Key, count: int)
    | Other(e: Event)          // an event of any other thread

  /** Submissions under a key always carry the arguments of that key's cue. */
  ghost predicate Lawful(a: Key -> RenderArgs, e: Event) {
    e.AsyncAdmit? ==> e.args == a(e.key)
  }

  ghost function AfterTry(s: State, key: Key, none: FetchPc): FetchPc
    requires forall j :: j in s.sh.all ==> j in s.sh.jobs
  {
    var found := FindKey(s.sh.jobs, s.sh.all, key);
    if found.None? then none else if s.sh.jobs[found.value].done then TakeAsync else Blocking
  }

  /** The demux thread's next pool event and where it goes afterwards. */
  ghost predicate Allowed(a: Key -> RenderArgs, c: nat, d: Demux, e: Event, pc: FetchPc)
    requires CanDo(d.s, e)
  {
    match d.pc
    case First => e == TryGet(c, d.key) && pc == AfterTry(d.s, d.key, Window(0))
    case Second => e == TryGet(c, d.key) && pc == AfterTry(d.s, d.key, Blocking)
    case TakeAsync => e == TakeResult(c) && pc == Used
    case Window(i) =>
      var k := Key(d.key.track, d.key.cue + i);
      || (e.AsyncAdmit? && e.c == c && e.key == k && e.args == a(k) && pc == d.pc
          && i < PREFETCH_WINDOW && k.cue < d.count)
      || (e == AsyncDepth(c) && pc == (if |d.s.sh.queue| >= MAX_QUEUE_DEPTH then Window(i + 1) else d.pc))
      || (e == AsyncEnqueue(c) && pc == Window(i + 1))
    case Blocking =>
      || (e == SyncDirect(c, a(d.key)) && pc == Used)
      || (e == SyncTake(c) && pc == Used)
      || ((e == SyncBuild(c, a(d.key)) || e == SyncEnqueue(c) || e == SyncWake(c)) && pc == Blocking)
    case Used => false
  }

  ghost predicate Next(r: RenderArgs -> Image, a: Key -> RenderArgs, c: nat, d: Demux, m: Move, t: Demux) {
    match m
    case Other(e) => ClientOf(e) != Some(c) && Lawful(a, e) && CanDo(d.s, e) && t == d.(s := Do(r, d.s, e))
    case Own(e) =>
      && ClientOf(e) == Some(c) && CanDo(d.s, e) && Allowed(a, c, d, e, t.pc)
      && t.s == Do(r, d.s, e) && t.key == d.key && t.count == d.count
      && (if t.pc == Used
          then |t.s.delivered| > 0 && var b := t.s.delivered[|t.s.delivered| - 1].bm;
               b in t.s.pixels && t.used == d.used + [(d.key, t.s.pixels[b])]
          else t.used == d.used)
    case Refused => d.pc.Window? && c < |d.s.clients| && d.s.clients[c] == Ready && !d.s.sh.active
                    && t == d.(pc := Window(d.pc.i + 1))
    case WindowDone => d.pc.Window? && c < |d.s.clients| && d.s.clients[c] == Ready
                       && (d.pc.i >= PREFETCH_WINDOW || d.key.cue + d.pc.i >= d.count) && t == d.(pc := Second)
    case NextCue(key, count) => d.pc == Used && t == d.(key := key, count := count, pc := First)
  }

  // ---------------------------------------------------------------- invariant

  ghost predicate KeyedJob(a: Key -> RenderArgs, s: State, j: JobId) {
    j in s.sh.jobs && s.sh.jobs[j].key.Some? ==> s.sh.jobs[j].args == a(s.sh.jobs[j].key.value)
  }

  ghost predicate KeyedClient(a: Key -> RenderArgs, s: State, c: nat) {
    c < |s.clients| ==>
      && (s.clients[c].AsyncAdmitted? ==> s.clients[c].args == a(s.clients[c].key))
      && (s.clients[c].AsyncBuilt? && s.clients[c].job in s.sh.jobs ==>
            s.sh.jobs[s.clients[c].job].args == a(s.clients[c].key))
  }

  ghost predicate Keys(a: Key -> RenderArgs, s: State) {
    && (forall j {:trigger KeyedJob(a, s, j)} :: KeyedJob(a, s, j))
    && (forall c {:trigger KeyedClient(a, s, c)} :: KeyedClient(a, s, c))
  }

  /** What the demux thread is in the middle of. */
  ghost predicate Posture(a: Key -> RenderArgs, c: nat, d: Demux) {
    && c < |d.s.clients|
    && var p := d.s.clients[c];
       match d.pc
       case TakeAsync => p.Taking? && p.key == d.key
       case Window(_) => p == Ready || p.AsyncAdmitted? || p.AsyncBuilt?
       case Blocking => p == Ready || ((p.SyncBuilt? || p.SyncWaiting? || p.SyncDone?)
                                       && (p.job in d.s.sh.jobs ==> d.s.sh.jobs[p.job].args == a(d.key)))
       case _ => p == Ready
  }

  ghost predicate Served(r: RenderArgs -> Image, a: Key -> RenderArgs, used: seq<(Key, Image)>) {
    forall i :: 0 <= i < |used| ==> used[i].1 == r(a(used[i].0))
  }

  ghost predicate Good(r: RenderArgs -> Image, a: Key -> RenderArgs, c: nat, d: Demux) {
    Inv(r, d.s) && Keys(a, d.s) && Posture(a, c, d) && Served(r, a, d.used)
  }

  lemma FreshId(r: RenderArgs -> Image, s: State)
    requires Inv(r, s)
    ensures s.nextJob !in s.sh.jobs
  {
    assert JobOk(s, s.nextJob);
  }

  lemma JobLaw(r: RenderArgs -> Image, a: Key -> RenderArgs, s: State, e: Event, j: JobId)
    requires Inv(r, s) && Keys(a, s) && CanDo(s, e)
    ensures KeyedJob(a, Do(r, s, e), j)
  {
    FreshId(r, s);
    assert KeyedJob(a, s, j);
    JobsKept(r, s, e, j);
    if e.AsyncEnqueue? && s.clients[e.c].job == j { EnqueuedLaw(r, a, s, e.c); }
  }

  lemma EnqueuedLaw(r: RenderArgs -> Image, a: Key -> RenderArgs, s: State, c: nat)
    requires Keys(a, s) && CanDo(s, AsyncEnqueue(c))
    ensures KeyedJob(a, Do(r, s, AsyncEnqueue(c)), s.clients[c].job)
  {
    assert KeyedClient(a, s, c);
  }

  /** Only admission and the depth check leave a client in the middle of a submission. */
  lemma OwnQuiet(r: RenderArgs -> Image, s: State, e: Event, c: nat)
    requires CanDo(s, e) && ClientOf(e) == Some(c) && !e.AsyncAdmit? && !e.AsyncDepth?
    ensures var p := Do(r, s, e).clients[c]; !p.AsyncAdmitted? && !p.AsyncBuilt?
  {
  }

  lemma OwnDepth(r: RenderArgs -> Image, a: Key -> RenderArgs, s: State, c: nat)
    requires Keys(a, s) && CanDo(s, AsyncDepth(c))
    ensures KeyedClient(a, Do(r, s, AsyncDepth(c)), c)
  {
    assert KeyedClient(a, s, c);
  }

  lemma OwnLaw(r: RenderArgs -> Image, a: Key -> RenderArgs, s: State, e: Event, c: nat)
    requires Keys(a, s) && CanDo(s, e) && Lawful(a, e) && ClientOf(e) == Some(c)
    ensures KeyedClient(a, Do(r, s, e), c)
  {
    if e.AsyncDepth? { OwnDepth(r, a, s, c); } else if !e.AsyncAdmit? { OwnQuiet(r, s, e, c); }
  }

  lemma ClientLaw(r: RenderArgs -> Image, a: Key -> RenderArgs, s: State, e: Event, c: nat)
    requires Inv(r, s) && Keys(a, s) && CanDo(s, e) && Lawful(a, e)
    ensures KeyedClient(a, Do(r, s, e), c)
  {
    if c < |s.clients| {
      if ClientOf(e) == Some(c) { OwnLaw(r, a, s, e, c); } else { StillHeld(r, a, s, e, c); }
    }
  }

  /** A client that does not move still holds a job with the arguments it built it with. */
  lemma StillHeld(r: RenderArgs -> Image, a: Key -> RenderArgs, s: State, e: Event, c: nat)
    requires Inv(r, s) && Keys(a, s) && CanDo(s, e) && c < |s.clients| && ClientOf(e) != Some(c)
    ensures KeyedClient(a, Do(r, s, e), c)
  {
    FreshId(r, s);
    assert KeyedClient(a, s, c) && ClientOk(s, c);
    ThreadsKept(r, s, e);
    if s.clients[c].AsyncBuilt? { JobsKept(r, s, e, s.clients[c].job); }
  }

  lemma KeysStep(r: RenderArgs -> Image, a: Key -> RenderArgs, s: State, e: Event)
    requires Inv(r, s) && Keys(a, s) && CanDo(s, e) && Lawful(a, e)
    ensures Keys(a, Do(r, s, e))
  {
    forall j ensures KeyedJob(a, Do(r, s, e), j) { JobLaw(r, a, s, e, j); }
    forall c ensures KeyedClient(a, Do(r, s, e), c) { ClientLaw(r, a, s, e, c); }
  }

  /** What the last step of serving a cue hands over comes from the arguments of that cue. */
  lemma DeliversArgs(r: RenderArgs -> Image, a: Key -> RenderArgs, c: nat, d: Demux, e: Event, t: Demux)
    requires Good(r, a, c, d) && Next(r, a, c, d, Own(e), t) && t.pc == Used
    ensures var n := |d.s.delivered|; |t.s.delivered| == n + 1 && t.s.delivered[n].args == a(d.key)
  {
    if e.SyncDirect? { DirectDelivers(r, d.s, e); } else {
      assert ClientOk(d.s, c) && JobOk(d.s, d.s.clients[c].job) && KeyedJob(a, d.s, d.s.clients[c].job);
      TakeDelivers(r, d.s, e);
    }
  }

  lemma DirectDelivers(r: RenderArgs -> Image, s: State, e: Event)
    requires CanDo(s, e) && e.SyncDirect?
    ensures var n := |s.delivered|; |Do(r, s, e).delivered| == n + 1 && Do(r, s, e).delivered[n].args == e.args
  {
  }

  lemma TakeDelivers(r: RenderArgs -> Image, s: State, e: Event)
    requires CanDo(s, e) && (e.SyncTake? || e.TakeResult?)
    ensures var n := |s.delivered|;
            |Do(r, s, e).delivered| == n + 1 && Do(r, s, e).delivered[n].args == s.sh.jobs[s.clients[e.c].job].args
  {
  }

  /** The bitmap that a retrieval or a blocking render delivers. */
  lemma Delivers(r: RenderArgs -> Image, a: Key -> RenderArgs, c: nat, d: Demux, e: Event, t: Demux)
    requires Good(r, a, c, d) && Next(r, a, c, d, Own(e), t) && t.pc == Used
    ensures Served(r, a, t.used)
  {
    StepInv(r, d.s, e);
    DeliversArgs(r, a, c, d, e, t);
    HandedOver(r, t.s, |d.s.delivered|);
  }

  lemma HandedOver(r: RenderArgs -> Image, s: State, n: nat)
    requires Inv(r, s) && n < |s.delivered|
    ensures s.delivered[n].bm in s.pixels && s.pixels[s.delivered[n].bm] == r(s.delivered[n].args)
  {
    assert DeliveredOk(s, n) && HomeOk(r, s, s.delivered[n].bm);
  }

  lemma OtherGood(r: RenderArgs -> Image, a: Key -> RenderArgs, c: nat, d: Demux, e: Event, t: Demux)
    requires Good(r, a, c, d) && Next(r, a, c, d, Other(e), t)
    ensures Good(r, a, c, t)
  {
    StepInv(r, d.s, e);
    KeysStep(r, a, d.s, e);
    ThreadsKept(r, d.s, e);
    FreshId(r, d.s);
    assert ClientOk(d.s, c);
    if HeldBy(d.s.clients[c]).Some? { JobsKept(r, d.s, e, d.s.clients[c].job); }
  }

  lemma BlockingPosture(r: RenderArgs -> Image, a: Key -> RenderArgs, c: nat, d: Demux, e: Event, t: Demux)
    requires Good(r, a, c, d) && Next(r, a, c, d, Own(e), t) && d.pc == Blocking
    ensures Posture(a, c, t)
  {
    FreshId(r, d.s);
    assert ClientOk(d.s, c);
    if e.SyncEnqueue? || e.SyncWake? { JobsKept(r, d.s, e, d.s.clients[c].job); }
  }

  lemma TryPosture(r: RenderArgs -> Image, a: Key -> RenderArgs, c: nat, d: Demux, e: Event, t: Demux)
    requires Posture(a, c, d) && Next(r, a, c, d, Own(e), t) && e == TryGet(c, d.key)
    requires d.pc == First || d.pc == Second
    ensures Posture(a, c, t)
  {
  }

  lemma WindowPosture(r: RenderArgs -> Image, a: Key -> RenderArgs, c: nat, d: Demux, e: Event, t: Demux)
    requires Posture(a, c, d) && Next(r, a, c, d, Own(e), t) && d.pc.Window?
    ensures Posture(a, c, t)
  {
    if e.AsyncAdmit? { } else if e.AsyncDepth? { } else { assert e == AsyncEnqueue(c); }
  }

  lemma OwnPosture(r: RenderArgs -> Image, a: Key -> RenderArgs, c: nat, d: Demux, e: Event, t: Demux)
    requires Good(r, a, c, d) && Next(r, a, c, d, Own(e), t)
    ensures Posture(a, c, t)
  {
    match d.pc
    case First => TryPosture(r, a, c, d, e, t);
    case Second => TryPosture(r, a, c, d, e, t);
    case Window(_) => WindowPosture(r, a, c, d, e, t);
    case Blocking => BlockingPosture(r, a, c, d, e, t);
    case TakeAsync => assert e == TakeResult(c);
    case Used =>
  }

  /** The demux thread submits no cues but the eight from the one it serves on, as far as the
      track has them, and it stops only behind those. */
  lemma WindowKeys(r: RenderArgs -> Image, a: Key -> RenderArgs, c: nat, d: Demux, m: Move, t: Demux)
    requires Good(r, a, c, d) && Next(r, a, c, d, m, t)
    ensures m.Own? && m.e.AsyncAdmit? ==>
              && m.e.key.track == d.key.track && m.e.args == a(m.e.key)
              && d.key.cue <= m.e.key.cue < d.key.cue + 8 && m.e.key.cue < d.count
    ensures m.WindowDone? ==> d.pc.Window? && (d.pc.i >= 8 || d.key.cue + d.pc.i >= d.count)
  {
  }

  lemma NextGood(r: RenderArgs -> Image, a: Key -> RenderArgs, c: nat, d: Demux, m: Move, t: Demux)
    requires Good(r, a, c, d) && Next(r, a, c, d, m, t)
    ensures Good(r, a, c, t)
  {
    match m
    case Other(e) => OtherGood(r, a, c, d, e, t);
    case Own(e) =>
      StepInv(r, d.s, e);
      KeysStep(r, a, d.s, e);
      OwnPosture(r, a, c, d, e, t);
      if t.pc == Used { Delivers(r, a, c, d, e, t); }
    case _ =>
  }

  /** Move `i` of a run. */
  ghost predicate NextAt(r: RenderArgs -> Image, a: Key -> RenderArgs, c: nat, ds: seq<Demux>, ms: seq<Move>, i: nat)
    requires |ds| == |ms| + 1
  {
    i < |ms| && Next(r, a, c, ds[i], ms[i], ds[i + 1])
  }

  lemma GoodAt(r: RenderArgs -> Image, a: Key -> RenderArgs, c: nat, ds: seq<Demux>, ms: seq<Move>, n: nat)
    requires |ds| == |ms| + 1 && n < |ms| && NextAt(r, a, c, ds, ms, n) && Good(r, a, c, ds[n])
    ensures Good(r, a, c, ds[n + 1])
  {
    NextGood(r, a, c, ds[n], ms[n], ds[n + 1]);
  }

  lemma {:induction false} RunGood(r: RenderArgs -> Image, a: Key -> RenderArgs, c: nat,
                                   ds: seq<Demux>, ms: seq<Move>, n: nat)
    requires |ds| == |ms| + 1 && n <= |ms| && Good(r, a, c, ds[0])
    requires forall i :: 0 <= i < |ms| ==> NextAt(r, a, c, ds, ms, i)
    ensures Good(r, a, c, ds[n])
  {
    if n != 0 {
      RunGood(r, a, c, ds, ms, n - 1);
      GoodAt(r, a, c, ds, ms, n - 1);
    }
  }

  /** Prefetching is transparent: over any run of the demux thread among any other
      threads, every bitmap it used is the direct rendering of the cue it used it for. */
  lemma Transparent(r: RenderArgs -> Image, a: Key -> RenderArgs, c: nat, ds: seq<Demux>, ms: seq<Move>, n: nat)
    requires |ds| == |ms| + 1 && n <= |ms|
    requires Init(ds[0].s) && c < |ds[0].s.clients| && ds[0].pc == First && ds[0].used == []
    requires forall i :: 0 <= i < |ms| ==> NextAt(r, a, c, ds, ms, i)
    ensures Good(r, a, c, ds[n])
    ensures forall i :: 0 <= i < |ds[n].used| ==> ds[n].used[i].1 == r(a(ds[n].used[i].0))
  {
    InitInv(r, ds[0].s);
    RunGood(r, a, c, ds, ms, n);
  }
}
