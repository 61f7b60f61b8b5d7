/** Whether a worker can touch a job after it was freed.  Publication stores the result and
    sets `done`, then signals and unlocks; a blocked caller cannot go on before the unlock,
    but retrieval can, so the signal can come too late.  This module says exactly when. */
module PoolSignals {
  import opened Common
  import opened PoolJobs
  import opened PoolMachine
  import opened PoolFrames
  import opened PoolInvariant
  import opened PoolSafety

  /** Whatever thread moves next touches live containers only. */
  ghost predicate AllSafe(s: State) { forall e :: Enabled(s, e) ==> Safe(s, e) }

  /** A retriever frees a job while its worker has yet to signal it. */
  ghost predicate Rushed(s: State, e: Event) {
    e.TakeResult? && e.c < |s.clients| && s.clients[e.c].Taking? && Signalled(s, s.clients[e.c].job)
  }

  /** A retrieval takes a job out of the keyed list while its worker has yet to signal it. */
  ghost predicate Hasty(s: State, e: Event) {
    && e.TryGet? && CanDo(s, e)
    && var found := FindKey(s.sh.jobs, s.sh.all, e.key);
       found.Some? && s.sh.jobs[found.value].done && Signalled(s, found.value)
  }

  // ------------------------------------------------------------ what one event changes

  /** A worker starts signalling only by publishing. */
  lemma WorkerChange(r: RenderArgs -> Image, s: State, e: Event, w: nat)
    requires CanDo(s, e) && w < |s.workers|
    ensures |Do(r, s, e).workers| == |s.workers|
    ensures Do(r, s, e).workers[w] == s.workers[w] || !Do(r, s, e).workers[w].Signalling? || e == PublishResult(w)
  {
    ThreadsKept(r, s, e);
    if ByWorker(e) && e.w == w && !e.PublishResult? { OwnWorker(r, s, e); }
  }

  lemma OwnWorker(r: RenderArgs -> Image, s: State, e: Event)
    requires CanDo(s, e) && ByWorker(e) && !e.PublishResult?
    ensures e.w < |Do(r, s, e).workers| && !Do(r, s, e).workers[e.w].Signalling?
  {
  }

  /** A caller gets hold of a finished job only by waking up or by retrieving it. */
  lemma ClientChange(r: RenderArgs -> Image, s: State, e: Event, c: nat)
    requires CanDo(s, e) && c < |s.clients|
    ensures var p := Do(r, s, e).clients[c];
            p == s.clients[c] || (!p.SyncDone? && !p.Taking?) || e == SyncWake(c) || (e.TryGet? && e.c == c)
  {
    ThreadsKept(r, s, e);
    if BySyncCaller(e) && e.c == c && e != SyncWake(c) { OwnSync(r, s, e); }
    if ByAsyncClient(e) && e.c == c && !e.TryGet? {
      if e.TakeResult? { OwnTake(r, s, e); } else if e.AsyncDepth? { OwnDepth(r, s, e); } else { OwnSubmit(r, s, e); }
    }
  }

  lemma OwnSync(r: RenderArgs -> Image, s: State, e: Event)
    requires CanDo(s, e) && BySyncCaller(e) && !e.SyncWake?
    ensures var p := Do(r, s, e).clients[e.c]; !p.SyncDone? && !p.Taking?
  {
  }

  lemma OwnTake(r: RenderArgs -> Image, s: State, e: Event)
    requires CanDo(s, e) && e.TakeResult?
    ensures Do(r, s, e).clients[e.c] == Ready && s.clients[e.c].job !in Do(r, s, e).sh.jobs
  {
  }

  lemma OwnDepth(r: RenderArgs -> Image, s: State, e: Event)
    requires CanDo(s, e) && e.AsyncDepth?
    ensures Do(r, s, e).clients[e.c] == Ready || Do(r, s, e).clients[e.c].AsyncBuilt?
  {
  }

  lemma OwnSubmit(r: RenderArgs -> Image, s: State, e: Event)
    requires CanDo(s, e) && (e.AsyncAdmit? || e.AsyncEnqueue?)
    ensures var p := Do(r, s, e).clients[e.c]; !p.SyncDone? && !p.Taking?
  {
  }

  lemma HeldIsComplete(s: State, c: nat)
    requires JobsInv(s) && c < |s.clients| && (s.clients[c].SyncDone? || s.clients[c].Taking?)
    ensures var j := s.clients[c].job; j in s.sh.jobs && j in s.stage && s.stage[j] == Complete
  {
    assert ClientOk(s, c) && JobOk(s, s.clients[c].job);
  }

  lemma RenderedIsAtWorker(s: State, w: nat)
    requires JobsInv(s) && w < |s.workers| && s.workers[w].Rendered?
    ensures var j := s.workers[w].job; j in s.sh.jobs && j in s.stage && s.stage[j] == AtWorker(w)
  {
    assert WorkerOk(s, w);
  }

  // ------------------------------------------------------------ blocked callers

  /** A caller that has woken up holds a job nobody is signalling. */
  ghost predicate WakeOk(s: State, c: nat, w: nat) {
    c < |s.clients| && w < |s.workers| && s.clients[c].SyncDone? ==> s.workers[w] != Signalling(s.clients[c].job)
  }

  ghost predicate SyncClear(s: State) { forall c, w {:trigger WakeOk(s, c, w)} :: WakeOk(s, c, w) }

  lemma WakeStep(r: RenderArgs -> Image, s: State, e: Event, c: nat, w: nat)
    requires Inv(r, s) && CanDo(s, e) && WakeOk(s, c, w)
    requires c < |s.clients| && w < |s.workers| && Do(r, s, e).clients[c].SyncDone?
    ensures WakeOk(Do(r, s, e), c, w)
  {
    WorkerChange(r, s, e, w);
    ClientChange(r, s, e, c);
    if e == PublishResult(w) {
      HeldIsComplete(s, c);
      RenderedIsAtWorker(s, w);
    }
  }

  lemma SyncClearStep(r: RenderArgs -> Image, s: State, e: Event)
    requires Inv(r, s) && CanDo(s, e) && SyncClear(s)
    ensures SyncClear(Do(r, s, e))
  {
    ThreadsKept(r, s, e);
    forall c: nat, w: nat ensures WakeOk(Do(r, s, e), c, w) {
      assert WakeOk(s, c, w);
      if c < |s.clients| && w < |s.workers| && Do(r, s, e).clients[c].SyncDone? { WakeStep(r, s, e, c, w); }
    }
  }

  lemma {:induction false} RunSyncClear(r: RenderArgs -> Image, tr: seq<State>, es: seq<Event>, n: nat)
    requires Run(r, tr, es) && n <= |es|
    ensures SyncClear(tr[n])
  {
    if n == 0 {
      forall c: nat, w: nat ensures WakeOk(tr[0], c, w) { }
    } else {
      RunSyncClear(r, tr, es, n - 1);
      RunInv(r, tr, es, n - 1);
      SyncClearStep(r, tr[n - 1], es[n - 1]);
    }
  }

  /** Synchronous calls are safe in every run: the caller that frees its job holds one that
      no worker still has to signal, because waking up took the job's mutex. */
  lemma SyncNeverRushes(r: RenderArgs -> Image, tr: seq<State>, es: seq<Event>, n: nat, c: nat)
    requires Run(r, tr, es) && n <= |es| && Enabled(tr[n], SyncTake(c))
    ensures Safe(tr[n], SyncTake(c)) && !Signalled(tr[n], tr[n].clients[c].job)
  {
    RunSyncClear(r, tr, es, n);
    RunInv(r, tr, es, n);
    NeverUnsafe(r, tr[n], SyncTake(c));
    forall w: nat | w < |tr[n].workers| ensures tr[n].workers[w] != Signalling(tr[n].clients[c].job) {
      assert WakeOk(tr[n], c, w);
    }
  }

  // ------------------------------------------------------------ signals

  /** A worker that has yet to signal a job finds it alive. */
  ghost predicate SignalOk(s: State, w: nat) {
    w < |s.workers| && s.workers[w].Signalling? ==> s.workers[w].job in s.sh.jobs
  }

  ghost predicate SignalsLive(s: State) { forall w {:trigger SignalOk(s, w)} :: SignalOk(s, w) }

  lemma SafeIffSignalsLive(r: RenderArgs -> Image, s: State)
    requires Inv(r, s)
    ensures AllSafe(s) <==> SignalsLive(s)
  {
    forall e | Enabled(s, e) ensures Safe(s, e) <==> (e.Signal? ==> SignalOk(s, e.w)) { NeverUnsafe(r, s, e); }
    forall w: nat ensures AllSafe(s) ==> SignalOk(s, w) {
      if w < |s.workers| && s.workers[w].Signalling? { assert Enabled(s, Signal(w)); }
    }
  }

  lemma SignalStep(r: RenderArgs -> Image, s: State, e: Event, w: nat)
    requires Inv(r, s) && CanDo(s, e) && SyncClear(s) && SignalOk(s, w) && w < |s.workers| && !Rushed(s, e)
    ensures SignalOk(Do(r, s, e), w)
  {
    var t := Do(r, s, e);
    WorkerChange(r, s, e, w);
    assert JobOk(s, s.nextJob);
    if t.workers[w].Signalling? {
      var j := t.workers[w].job;
      if e == PublishResult(w) { PublishedStays(r, s, w); } else { NotFreed(r, s, e, w, j); }
    }
  }

  lemma PublishedStays(r: RenderArgs -> Image, s: State, w: nat)
    requires CanDo(s, PublishResult(w))
    ensures SignalOk(Do(r, s, PublishResult(w)), w)
  {
  }

  /** Nobody but a rushing retriever frees a job that a worker still has to signal. */
  lemma NotFreed(r: RenderArgs -> Image, s: State, e: Event, w: nat, j: JobId)
    requires Inv(r, s) && CanDo(s, e) && SyncClear(s) && s.nextJob !in s.sh.jobs && !Rushed(s, e)
    requires w < |s.workers| && s.workers[w] == Signalling(j) && j in s.sh.jobs
    ensures j in Do(r, s, e).sh.jobs
  {
    JobsKept(r, s, e, j);
    assert Signalled(s, j);
    if e.SyncTake? { assert WakeOk(s, e.c, w); }
  }

  lemma SignalsLiveStep(r: RenderArgs -> Image, s: State, e: Event)
    requires Inv(r, s) && CanDo(s, e) && SyncClear(s) && SignalsLive(s) && !Rushed(s, e)
    ensures SignalsLive(Do(r, s, e))
  {
    ThreadsKept(r, s, e);
    forall w: nat ensures SignalOk(Do(r, s, e), w) {
      assert SignalOk(s, w);
      if w < |s.workers| { SignalStep(r, s, e, w); }
    }
  }

  /** A rushed retrieval leaves a worker that will signal a freed job. */
  lemma RushIsFatal(r: RenderArgs -> Image, s: State, e: Event)
    requires Inv(r, s) && CanDo(s, e) && Rushed(s, e)
    ensures exists w :: Enabled(Do(r, s, e), Signal(w)) && !Safe(Do(r, s, e), Signal(w))
  {
    var j := s.clients[e.c].job;
    var w :| 0 <= w < |s.workers| && s.workers[w] == Signalling(j);
    ThreadsKept(r, s, e);
    OwnTake(r, s, e);
    assert Enabled(Do(r, s, e), Signal(w));
  }

  lemma {:induction false} RunSignalsLive(r: RenderArgs -> Image, tr: seq<State>, es: seq<Event>, n: nat)
    requires Run(r, tr, es) && n <= |es| && forall i :: 0 <= i < n ==> !Rushed(tr[i], es[i])
    ensures SignalsLive(tr[n])
  {
    if n == 0 {
      forall w: nat ensures SignalOk(tr[0], w) { }
    } else {
      RunSignalsLive(r, tr, es, n - 1);
      RunSyncClear(r, tr, es, n - 1);
      RunInv(r, tr, es, n - 1);
      SignalsLiveStep(r, tr[n - 1], es[n - 1]);
    }
  }

  /** Memory safety of the pool, exactly: in every state of a run whatever thread moves next
      touches live containers only if and only if no retriever of the run freed a job that
      its worker had yet to signal. */
  lemma MemorySafety(r: RenderArgs -> Image, tr: seq<State>, es: seq<Event>)
    requires Run(r, tr, es)
    ensures (forall i :: 0 <= i <= |es| ==> AllSafe(tr[i])) <==> (forall i :: 0 <= i < |es| ==> !Rushed(tr[i], es[i]))
  {
    if forall i :: 0 <= i < |es| ==> !Rushed(tr[i], es[i]) {
      forall i | 0 <= i <= |es| ensures AllSafe(tr[i]) {
        RunInv(r, tr, es, i);
        RunSignalsLive(r, tr, es, i);
        SafeIffSignalsLive(r, tr[i]);
      }
    } else {
      var i :| 0 <= i < |es| && Rushed(tr[i], es[i]);
      RunInv(r, tr, es, i);
      RushIsFatal(r, tr[i], es[i]);
      assert !AllSafe(tr[i + 1]);
    }
  }

  // ------------------------------------------------------------ retrieval

  /** A retriever holds a job nobody is signalling. */
  ghost predicate TakeOk(s: State, c: nat, w: nat) {
    c < |s.clients| && w < |s.workers| && s.clients[c].Taking? ==> s.workers[w] != Signalling(s.clients[c].job)
  }

  ghost predicate TakersClear(s: State) { forall c, w {:trigger TakeOk(s, c, w)} :: TakeOk(s, c, w) }

  lemma TakeStep(r: RenderArgs -> Image, s: State, e: Event, c: nat, w: nat)
    requires Inv(r, s) && CanDo(s, e) && TakeOk(s, c, w) && !Hasty(s, e)
    requires c < |s.clients| && w < |s.workers| && Do(r, s, e).clients[c].Taking?
    ensures TakeOk(Do(r, s, e), c, w)
  {
    WorkerChange(r, s, e, w);
    ClientChange(r, s, e, c);
    if e == PublishResult(w) {
      ThreadsKept(r, s, e);
      HeldIsComplete(s, c);
      RenderedIsAtWorker(s, w);
    } else if e.TryGet? && e.c == c {
      TryGetTakes(r, s, e);
      ThreadsKept(r, s, e);
    }
  }

  /** What retrieval leaves in the caller's hands. */
  lemma TryGetTakes(r: RenderArgs -> Image, s: State, e: Event)
    requires CanDo(s, e) && e.TryGet?
    ensures var found := FindKey(s.sh.jobs, s.sh.all, e.key);
            Do(r, s, e).clients[e.c] == if found.Some? && found.value in s.sh.jobs && s.sh.jobs[found.value].done
                                        then Taking(found.value, e.key) else Ready
    ensures Do(r, s, e).sh.jobs == s.sh.jobs
  {
  }

  lemma TakersClearStep(r: RenderArgs -> Image, s: State, e: Event)
    requires Inv(r, s) && CanDo(s, e) && TakersClear(s) && !Hasty(s, e)
    ensures TakersClear(Do(r, s, e))
  {
    ThreadsKept(r, s, e);
    forall c: nat, w: nat ensures TakeOk(Do(r, s, e), c, w) {
      assert TakeOk(s, c, w);
      if c < |s.clients| && w < |s.workers| && Do(r, s, e).clients[c].Taking? { TakeStep(r, s, e, c, w); }
    }
  }

  lemma {:induction false} RunTakersClear(r: RenderArgs -> Image, tr: seq<State>, es: seq<Event>, n: nat)
    requires Run(r, tr, es) && n <= |es| && forall i :: 0 <= i < n ==> !Hasty(tr[i], es[i])
    ensures TakersClear(tr[n])
  {
    if n == 0 {
      forall c: nat, w: nat ensures TakeOk(tr[0], c, w) { }
    } else {
      RunTakersClear(r, tr, es, n - 1);
      RunInv(r, tr, es, n - 1);
      TakersClearStep(r, tr[n - 1], es[n - 1]);
    }
  }

  /** A hasty retrieval is one step from a rushed one: the retriever may free the job next,
      and then the worker's signal is unsafe. */
  lemma HastyIsFatal(r: RenderArgs -> Image, s: State, e: Event)
    requires Inv(r, s) && Hasty(s, e)
    ensures var t := Do(r, s, e); var next := TakeResult(e.c);
            && !TakersClear(t) && CanDo(t, next) && Rushed(t, next)
            && exists w :: Enabled(Do(r, t, next), Signal(w)) && !Safe(Do(r, t, next), Signal(w))
  {
    var t, next := Do(r, s, e), TakeResult(e.c);
    TryGetTakes(r, s, e);
    StepInv(r, s, e);
    NeverUnsafe(r, t, next);
    ThreadsKept(r, s, e);
    var j := t.clients[e.c].job;
    var w :| 0 <= w < |s.workers| && s.workers[w] == Signalling(j);
    assert t.workers[w] == Signalling(j) && Signalled(t, j) && !TakeOk(t, e.c, w);
    RushIsFatal(r, t, next);
  }

  /** What retrieval would have to promise: its callers never hold a job that is still being
      signalled, and then every step is safe, if and only if it never takes such a job, which
      it would not if it tested `done` under the job's mutex. */
  lemma GuardedRetrieval(r: RenderArgs -> Image, tr: seq<State>, es: seq<Event>)
    requires Run(r, tr, es)
    ensures (forall i :: 0 <= i <= |es| ==> TakersClear(tr[i]) && AllSafe(tr[i]))
            <==> (forall i :: 0 <= i < |es| ==> !Hasty(tr[i], es[i]))
  {
    if forall i :: 0 <= i < |es| ==> !Hasty(tr[i], es[i]) {
      forall i | 0 <= i <= |es| ensures TakersClear(tr[i]) { RunTakersClear(r, tr, es, i); }
      forall i | 0 <= i < |es| ensures !Rushed(tr[i], es[i]) { ClearIsUnrushed(tr[i], es[i]); }
      MemorySafety(r, tr, es);
    } else {
      var i :| 0 <= i < |es| && Hasty(tr[i], es[i]);
      RunInv(r, tr, es, i);
      HastyIsFatal(r, tr[i], es[i]);
      assert !TakersClear(tr[i + 1]);
    }
  }

  lemma ClearIsUnrushed(s: State, e: Event)
    requires TakersClear(s)
    ensures !Rushed(s, e)
  {
    if e.TakeResult? && e.c < |s.clients| && s.clients[e.c].Taking? {
      forall w: nat | w < |s.workers| ensures s.workers[w] != Signalling(s.clients[e.c].job) {
        assert TakeOk(s, e.c, w);
      }
    }
  }

  // ------------------------------------------------------------ a run that goes wrong

  lemma RunOn(r: RenderArgs -> Image, tr: seq<State>, es: seq<Event>, e: Event)
    requires Run(r, tr, es) && CanDo(tr[|es|], e)
    ensures Run(r, tr + [Do(r, tr[|es|], e)], es + [e])
  {
    var tr2, es2 := tr + [Do(r, tr[|es|], e)], es + [e];
    forall i | 0 <= i < |es2| ensures CanDo(tr2[i], es2[i]) && tr2[i + 1] == Do(r, tr2[i], es2[i]) {
      if i < |es| { assert tr2[i] == tr[i] && tr2[i + 1] == tr[i + 1] && es2[i] == es[i]; }
    }
  }

  /** One worker and one client, before anything happened. */
  ghost function Fresh(): (s: State)
    ensures Init(s)
  {
    State(Shared(map[], [], [], true, true), [Idle], [Ready], NotStarted, map[], 0, 0,
          [], multiset{}, multiset{}, [], [], {}, false, map[], map[], map[])
  }

  lemma Builds(r: RenderArgs -> Image, key: Key, args: RenderArgs) returns (tr: seq<State>, es: seq<Event>)
    ensures Run(r, tr, es)
    ensures var s := tr[|es|];
            s.clients == [AsyncBuilt(0, key)] && 0 in s.sh.jobs && s.sh.queue == [] == s.sh.all && s.workers == [Idle]
  {
    var e := AsyncAdmit(0, key, args, 0);
    var s := Do(r, Fresh(), e);
    RunOn(r, [Fresh()], [], e);
    tr, es := [Fresh()] + [s], [] + [e];
    assert s.clients == [AsyncAdmitted(key, args, 0)] && s.sh == Fresh().sh && s.nextJob == 0 && s.workers == [Idle];
    RunOn(r, tr, es, AsyncDepth(0));
    tr, es := tr + [Do(r, s, AsyncDepth(0))], es + [AsyncDepth(0)];
  }

  lemma Submits(r: RenderArgs -> Image, key: Key, args: RenderArgs) returns (tr: seq<State>, es: seq<Event>)
    ensures Run(r, tr, es)
    ensures var s := tr[|es|];
            && s.clients == [Ready] && s.workers == [Idle] && s.sh.queue == [0] == s.sh.all
            && 0 in s.sh.jobs && s.sh.jobs[0].key == Some(key)
  {
    tr, es := Builds(r, key, args);
    var s := tr[|es|];
    RunOn(r, tr, es, AsyncEnqueue(0));
    tr, es := tr + [Do(r, s, AsyncEnqueue(0))], es + [AsyncEnqueue(0)];
  }

  lemma Publishes(r: RenderArgs -> Image, key: Key, args: RenderArgs) returns (tr: seq<State>, es: seq<Event>)
    ensures Run(r, tr, es)
    ensures var s := tr[|es|];
            && s.clients == [Ready] && s.workers == [Signalling(0)] && s.sh.all == [0]
            && 0 in s.sh.jobs && s.sh.jobs[0].key == Some(key) && s.sh.jobs[0].done
  {
    tr, es := Submits(r, key, args);
    var s3 := tr[|es|];
    RunOn(r, tr, es, Dequeue(0));
    var s4 := Do(r, s3, Dequeue(0));
    tr, es := tr + [s4], es + [Dequeue(0)];
    assert s4.clients == [Ready] && s4.workers == [Rendering(0)] && s4.sh.all == [0] && s4.sh.jobs == s3.sh.jobs;
    RunOn(r, tr, es, Render(0));
    var s5 := Do(r, s4, Render(0));
    tr, es := tr + [s5], es + [Render(0)];
    assert s5.clients == [Ready] && s5.sh == s4.sh;
    assert |s5.workers| == 1 && s5.workers[0].Rendered? && s5.workers[0].job == 0;
    RunOn(r, tr, es, PublishResult(0));
    tr, es := tr + [Do(r, s5, PublishResult(0))], es + [PublishResult(0)];
  }

  /** A run that can retrieve hastily goes on to an unsafe signal. */
  lemma HastyRun(r: RenderArgs -> Image, tr: seq<State>, es: seq<Event>, e: Event)
    returns (tr2: seq<State>, es2: seq<Event>)
    requires Run(r, tr, es) && Hasty(tr[|es|], e)
    ensures Run(r, tr2, es2) && es2 == es + [e] + [TakeResult(e.c)]
    ensures exists w :: Enabled(tr2[|es2|], Signal(w)) && !Safe(tr2[|es2|], Signal(w))
  {
    RunInv(r, tr, es, |es|);
    HastyIsFatal(r, tr[|es|], e);
    RunOn(r, tr, es, e);
    tr2, es2 := tr + [Do(r, tr[|es|], e)], es + [e];
    RunOn(r, tr2, es2, TakeResult(e.c));
    tr2, es2 := tr2 + [Do(r, tr2[|es2|], TakeResult(e.c))], es2 + [TakeResult(e.c)];
  }

  /** Not every run is safe: one client submits, retrieves and frees a job between the moment
      its worker sets `done` and the moment it signals. */
  lemma LateSignal(r: RenderArgs -> Image, key: Key, args: RenderArgs) returns (tr: seq<State>, es: seq<Event>)
    ensures Run(r, tr, es) && !AllSafe(tr[|es|])
  {
    tr, es := Publishes(r, key, args);
    var s, get := tr[|es|], TryGet(0, key);
    assert s.workers[0] == Signalling(0) && Signalled(s, 0);
    FoundFirst(s, key);
    RunInv(r, tr, es, |es|);
    NeverUnsafe(r, s, get);
    tr, es := HastyRun(r, tr, es, get);
  }

  lemma FoundFirst(s: State, key: Key)
    requires s.sh.all == [0] && 0 in s.sh.jobs && s.sh.jobs[0].key == Some(key)
    ensures FindKey(s.sh.jobs, s.sh.all, key) == Some(0)
  {
  }
}
