/** The PTS of one track's packets: the bump of src/muxsub.c:250-257 applied to the show
    and clear requests of a cue list (src/srt2dvbsub.c:2041-2131). */
module Timeline {
  import opened Common
  import opened Overlap

  const TICKS_PER_MS := 90

  /** One packet handed to the muxer: what was asked for and what was written. */
  datatype Shot = Shot(cue: nat, clear: bool, request: int, pts: int)

  /** A track's last_pts and the packets it has written. */
  datatype Clock = Clock(last: Option<int>, shots: seq<Shot>)

  const Idle := Clock(None, [])

  function Bump(last: Option<int>, request: int): int {
    if last.Some? && request <= last.value then last.value + TICKS_PER_MS else request
  }

  /** `ok` says whether the encoder yielded bytes. */
  function Send(c: Clock, cue: nat, clear: bool, request: int, ok: bool): Clock {
    if !ok then c else var p := Bump(c.last, request); Clock(Some(p), c.shots + [Shot(cue, clear, request, p)])
  }

  function Ticks(base: int, ms: int): int { base + ms * TICKS_PER_MS }

  function PlayCue(c: Clock, base: int, e: Entry, cue: nat, ok: (bool, bool)): Clock {
    Send(Send(c, cue, false, Ticks(base, e.start), ok.0), cue, true, Ticks(base, e.end), ok.1)
  }

  /** The first `n` cues of a list, whatever the encoder does with them. */
  function Play(base: int, es: seq<Entry>, enc: nat -> (bool, bool), n: nat): Clock
    requires n <= |es|
  {
    if n == 0 then Idle else PlayCue(Play(base, es, enc, n - 1), base, es[n - 1], n - 1, enc(n - 1))
  }

  /** Which packet this is and when it was asked for: cue start for a show, end for a clear. */
  predicate Asked(base: int, es: seq<Entry>, s: Shot) {
    s.cue < |es| && s.request == Ticks(base, if s.clear then es[s.cue].end else es[s.cue].start)
  }

  /** Shows and clears follow each other cue by cue, without repetition. */
  predicate InOrder(shots: seq<Shot>) {
    forall i, j :: 0 <= i < j < |shots| ==>
      shots[i].cue < shots[j].cue || (shots[i].cue == shots[j].cue && !shots[i].clear && shots[j].clear)
  }

  /** How many of the encodes for the first `n` cues yield bytes. */
  function Yields(enc: nat -> (bool, bool), n: nat): nat {
    if n == 0 then 0
    else Yields(enc, n - 1) + (if enc(n - 1).0 then 1 else 0) + (if enc(n - 1).1 then 1 else 0)
  }

  /** Playing writes one packet for every encode that yields bytes, in cue order, each asked
      for at its cue's start or end. */
  lemma {:induction false} PlayWrites(base: int, es: seq<Entry>, enc: nat -> (bool, bool), n: nat)
    requires n <= |es|
    ensures var shots := Play(base, es, enc, n).shots;
            && InOrder(shots) && |shots| == Yields(enc, n)
            && forall k :: 0 <= k < |shots| ==> shots[k].cue < n && Asked(base, es, shots[k])
  {
    if n > 0 { PlayWrites(base, es, enc, n - 1); }
  }

  /** A show or a clear of cue `i` is among the packets. */
  ghost predicate Written(shots: seq<Shot>, i: nat, clear: bool) {
    exists k :: 0 <= k < |shots| && shots[k].cue == i && shots[k].clear == clear
  }

  lemma WrittenSend(c: Clock, cue: nat, clear: bool, request: int, ok: bool, i: nat, which: bool)
    ensures Written(Send(c, cue, clear, request, ok).shots, i, which) <==>
            Written(c.shots, i, which) || (ok && i == cue && which == clear)
  {
    var now := Send(c, cue, clear, request, ok).shots;
    if Written(c.shots, i, which) {
      var k :| 0 <= k < |c.shots| && c.shots[k].cue == i && c.shots[k].clear == which;
      assert now[k].cue == i;
    }
    if ok { assert now[|c.shots|].cue == cue && now[..|c.shots|] == c.shots; }
  }

  /** The show of a cue is written exactly when its own encode yields bytes, and so is the clear. */
  lemma {:induction false} PlayWritten(base: int, es: seq<Entry>, enc: nat -> (bool, bool), n: nat)
    requires n <= |es|
    ensures var shots := Play(base, es, enc, n).shots;
            forall i: nat ::
              && (Written(shots, i, false) <==> i < n && enc(i).0)
              && (Written(shots, i, true) <==> i < n && enc(i).1)
  {
    if n > 0 {
      PlayWritten(base, es, enc, n - 1);
      var c, e, ok := Play(base, es, enc, n - 1), es[n - 1], enc(n - 1);
      var shown := Send(c, n - 1, false, Ticks(base, e.start), ok.0);
      forall i: nat
        ensures Written(Play(base, es, enc, n).shots, i, false) <==> i < n && enc(i).0
        ensures Written(Play(base, es, enc, n).shots, i, true) <==> i < n && enc(i).1
      {
        WrittenSend(c, n - 1, false, Ticks(base, e.start), ok.0, i, false);
        WrittenSend(c, n - 1, false, Ticks(base, e.start), ok.0, i, true);
        WrittenSend(shown, n - 1, true, Ticks(base, e.end), ok.1, i, false);
        WrittenSend(shown, n - 1, true, Ticks(base, e.end), ok.1, i, true);
      }
    }
  }

  // ------------------------------------------------------------ the bump

  function Before(shots: seq<Shot>, k: nat): Option<int>
    requires k <= |shots|
  {
    if k == 0 then None else Some(shots[k - 1].pts)
  }

  /** Every PTS is the bump of its request over the one before. */
  ghost predicate Chained(c: Clock) {
    && c.last == Before(c.shots, |c.shots|)
    && forall k :: 0 <= k < |c.shots| ==> c.shots[k].pts == Bump(Before(c.shots, k), c.shots[k].request)
  }

  lemma SendChained(c: Clock, cue: nat, clear: bool, request: int, ok: bool)
    requires Chained(c)
    ensures Chained(Send(c, cue, clear, request, ok))
  {
    var d := Send(c, cue, clear, request, ok);
    forall k | 0 <= k < |d.shots| ensures d.shots[k].pts == Bump(Before(d.shots, k), d.shots[k].request) {
      if k < |c.shots| { assert Before(d.shots, k) == Before(c.shots, k); }
    }
  }

  /** On the 90-tick grid through `base`. */
  predicate OnGrid(base: int, x: int) { (x - base) % TICKS_PER_MS == 0 }

  ghost predicate Gridded(base: int, shots: seq<Shot>) {
    forall k :: 0 <= k < |shots| ==> OnGrid(base, shots[k].request)
  }

  lemma {:induction false} PlayChained(base: int, es: seq<Entry>, enc: nat -> (bool, bool), n: nat)
    requires n <= |es|
    ensures Chained(Play(base, es, enc, n))
  {
    if n > 0 {
      PlayChained(base, es, enc, n - 1);
      PlayCueChained(Play(base, es, enc, n - 1), base, es[n - 1], n - 1, enc(n - 1));
    }
  }

  lemma PlayCueChained(c: Clock, base: int, e: Entry, cue: nat, ok: (bool, bool))
    requires Chained(c)
    ensures Chained(PlayCue(c, base, e, cue, ok))
  {
    SendChained(c, cue, false, Ticks(base, e.start), ok.0);
    SendChained(Send(c, cue, false, Ticks(base, e.start), ok.0), cue, true, Ticks(base, e.end), ok.1);
  }

  /** Every request of a cue list lies on the grid. */
  lemma {:induction false} PlayGridded(base: int, es: seq<Entry>, enc: nat -> (bool, bool), n: nat)
    requires n <= |es|
    ensures Gridded(base, Play(base, es, enc, n).shots)
  {
    if n > 0 {
      PlayGridded(base, es, enc, n - 1);
      PlayCueGridded(Play(base, es, enc, n - 1), base, es[n - 1], n - 1, enc(n - 1));
    }
  }

  lemma PlayCueGridded(c: Clock, base: int, e: Entry, cue: nat, ok: (bool, bool))
    requires Gridded(base, c.shots)
    ensures Gridded(base, PlayCue(c, base, e, cue, ok).shots)
  {
    TicksOnGrid(base, e.start);
    TicksOnGrid(base, e.end);
  }

  lemma TicksOnGrid(base: int, ms: int)
    ensures OnGrid(base, Ticks(base, ms))
  {
  }

  /** PTS handed to the muxer strictly increase and never precede their request. */
  lemma {:induction false} StrictlyIncreasing(c: Clock, i: nat, j: nat)
    requires Chained(c) && i <= j < |c.shots|
    ensures c.shots[j].request <= c.shots[j].pts && (i < j ==> c.shots[i].pts < c.shots[j].pts)
  {
    if i < j {
      StrictlyIncreasing(c, i, j - 1);
      assert Before(c.shots, j) == Some(c.shots[j - 1].pts);
    }
  }

  /** `p` is the maximum over j <= k of request_j + 90 (k - j). */
  ghost predicate IsPeak(shots: seq<Shot>, k: nat, p: int)
    requires k < |shots|
  {
    && (forall j :: 0 <= j <= k ==> Lifted(shots, j, k) <= p)
    && (exists j :: 0 <= j <= k && Lifted(shots, j, k) == p)
  }

  function Lifted(shots: seq<Shot>, j: nat, k: nat): int
    requires j <= k < |shots|
  {
    shots[j].request + TICKS_PER_MS * (k - j)
  }

  /** On the grid the k-th PTS is exactly that maximum. */
  lemma {:induction false} PeakForm(base: int, c: Clock, k: nat)
    requires Chained(c) && Gridded(base, c.shots) && k < |c.shots|
    ensures IsPeak(c.shots, k, c.shots[k].pts) && OnGrid(base, c.shots[k].pts)
  {
    var s := c.shots;
    assert s[k].pts == Bump(Before(s, k), s[k].request) && OnGrid(base, s[k].request);
    if k == 0 { assert Lifted(s, 0, 0) == s[0].pts; } else {
      PeakForm(base, c, k - 1);
      BumpIsMax(base, s[k - 1].pts, s[k].request);
      PeakStep(s, k, s[k - 1].pts);
    }
  }

  lemma BumpIsMax(base: int, last: int, request: int)
    requires OnGrid(base, last) && OnGrid(base, request)
    ensures Bump(Some(last), request) == Max(last + TICKS_PER_MS, request) && OnGrid(base, Bump(Some(last), request))
  {
  }

  lemma PeakStep(s: seq<Shot>, k: nat, p: int)
    requires 0 < k < |s| && IsPeak(s, k - 1, p)
    ensures IsPeak(s, k, Max(p + TICKS_PER_MS, s[k].request))
  {
    forall j | 0 <= j <= k ensures Lifted(s, j, k) <= Max(p + TICKS_PER_MS, s[k].request) {
      if j < k { assert Lifted(s, j, k) == Lifted(s, j, k - 1) + TICKS_PER_MS; }
    }
    var j :| 0 <= j <= k - 1 && Lifted(s, j, k - 1) == p;
    assert Lifted(s, j, k) == p + TICKS_PER_MS && Lifted(s, k, k) == s[k].request;
  }

  // ------------------------------------------------------------ being on time

  /** A clear goes out exactly when asked for; a show at most one millisecond later. */
  predicate Punctual(s: Shot) {
    if s.clear then s.pts == s.request else s.request <= s.pts <= s.request + TICKS_PER_MS
  }

  ghost predicate OnTime(shots: seq<Shot>) { forall k :: 0 <= k < |shots| ==> Punctual(shots[k]) }

  /** Whether cue i starts where its predecessor ends. */
  function Touch(es: seq<Entry>, i: nat): nat
    requires i < |es|
  {
    if i > 0 && es[i - 1].end == es[i].start then 1 else 0
  }

  predicate RoomyAt(es: seq<Entry>, i: nat)
    requires i < |es|
  {
    es[i].start + Touch(es, i) < es[i].end
  }

  /** Every cue lasts longer than the millisecond a touching predecessor costs it. */
  predicate Roomy(es: seq<Entry>) { forall i :: 0 <= i < |es| ==> RoomyAt(es, i) }

  ghost predicate Settled(c: Clock, base: int, es: seq<Entry>, n: nat)
    requires n <= |es|
  {
    OnTime(c.shots) && (c.last.Some? ==> n > 0 && c.last.value <= Ticks(base, es[n - 1].end))
  }

  lemma {:induction false} RoomyOnTime(base: int, es: seq<Entry>, enc: nat -> (bool, bool), n: nat)
    requires n <= |es| && Disjoint(es) && forall i :: 0 <= i < n ==> RoomyAt(es, i)
    ensures Settled(Play(base, es, enc, n), base, es, n)
  {
    if n > 0 {
      RoomyOnTime(base, es, enc, n - 1);
      assert RoomyAt(es, n - 1);
    }
  }

  /** With every encode successful, the last clear of a punctual run is at its cue's end. */
  lemma {:induction false} AllWritten(base: int, es: seq<Entry>, n: nat)
    requires n <= |es| && Disjoint(es) && forall i :: 0 <= i < n ==> RoomyAt(es, i)
    ensures n > 0 ==> Play(base, es, _ => (true, true), n).last == Some(Ticks(base, es[n - 1].end))
  {
    if n > 0 {
      AllWritten(base, es, n - 1);
      RoomyOnTime(base, es, _ => (true, true), n - 1);
      assert RoomyAt(es, n - 1);
    }
  }

  /** A cue without room has a late clear when everything is written. */
  lemma CrampedIsLate(base: int, es: seq<Entry>, i: nat)
    requires i < |es| && Disjoint(es) && es[i].start <= es[i].end && !RoomyAt(es, i)
    requires forall j :: 0 <= j < i ==> RoomyAt(es, j)
    ensures var shots := Play(base, es, _ => (true, true), i + 1).shots; shots != [] && !Punctual(shots[|shots| - 1])
  {
    AllWritten(base, es, i);
  }

  lemma {:induction false} PlayExtends(base: int, es: seq<Entry>, enc: nat -> (bool, bool), m: nat, n: nat)
    requires m <= n <= |es|
    ensures Play(base, es, enc, m).shots <= Play(base, es, enc, n).shots
  {
    if m < n { PlayExtends(base, es, enc, m, n - 1); }
  }

  lemma {:induction false} FirstCramped(es: seq<Entry>, n: nat) returns (i: nat)
    requires n <= |es| && exists j :: 0 <= j < n && !RoomyAt(es, j)
    ensures i < n && !RoomyAt(es, i) && forall j :: 0 <= j < i ==> RoomyAt(es, j)
  {
    i := 0;
    while RoomyAt(es, i)
      invariant 0 <= i < n && (forall j :: 0 <= j < i ==> RoomyAt(es, j)) && exists j :: i <= j < n && !RoomyAt(es, j)
      decreases n - i
    {
      i := i + 1;
    }
  }

  /** For a list in order, the packets are on time under every behaviour of the encoder if
      and only if every cue lasts more than one millisecond, or more than none where it does
      not touch its predecessor. */
  lemma OnTimeIffRoomy(base: int, es: seq<Entry>)
    requires Disjoint(es) && forall i :: 0 <= i < |es| ==> es[i].start <= es[i].end
    ensures (forall enc: nat -> (bool, bool) :: OnTime(Play(base, es, enc, |es|).shots)) <==> Roomy(es)
  {
    if Roomy(es) {
      forall enc: nat -> (bool, bool) ensures OnTime(Play(base, es, enc, |es|).shots) {
        RoomyOnTime(base, es, enc, |es|);
      }
    } else {
      var i := FirstCramped(es, |es|);
      var all: nat -> (bool, bool) := _ => (true, true);
      CrampedIsLate(base, es, i);
      PlayExtends(base, es, _ => (true, true), i + 1, |es|);
      var shots := Play(base, es, _ => (true, true), i + 1).shots;
      assert !Punctual(Play(base, es, _ => (true, true), |es|).shots[|shots| - 1]);
    }
  }

  lemma TwoIsRoomy(es: seq<Entry>)
    requires forall i :: 0 <= i < |es| ==> es[i].start + 2 <= es[i].end
    ensures Roomy(es)
  {
  }

  /** Corrected cues of at least two milliseconds: shows at most 1 ms late, clears on time. */
  lemma TwoMillisecondsSuffice(base: int, es: seq<Entry>, enc: nat -> (bool, bool))
    requires forall i :: 0 <= i < |es| ==> Correct(es)[i].start + 2 <= Correct(es)[i].end
    ensures OnTime(Play(base, Correct(es), enc, |es|).shots)
  {
    CorrectFixed(es);
    TwoIsRoomy(Correct(es));
    RoomyOnTime(base, Correct(es), enc, |es|);
  }
}
