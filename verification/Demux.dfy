/** The packet loop of src/srt2dvbsub.c:1831-2158 as a state machine over arbitrary
    packets: cue release, takeover drop and pass-through. Times are 90 kHz ticks. */
module Demux {
  import opened Common
  import opened Overlap
  import opened Timeline
  import Streams
  import SrtParser
  import Utf8

  /** What is fixed about a subtitle track before the loop. */
  datatype Job = Job(entries: seq<Entry>, delay: int, stream: nat)

  /** `enc(t, i)` says whether the show and the clear of cue i of track t yield bytes. */
  datatype Setup = Setup(nIn: nat, start: int, pngOnly: bool, jobs: seq<Job>, enc: (nat, nat) -> (bool, bool))

  datatype Packet = Packet(stream: int, pts: Option<int>, dts: Option<int>)

  datatype Sent = FromInput(stream: nat, input: nat) | FromTrack(stream: nat, track: nat, shot: Shot)

  datatype Cursor = Cursor(cur: nat, last: Option<int>)

  datatype State = State(tracks: seq<Cursor>, lastValid: Option<int>, out: seq<Sent>)

  predicate WellFormed(su: Setup, s: State) {
    |s.tracks| == |su.jobs| && forall t :: 0 <= t < |su.jobs| ==> s.tracks[t].cur <= |su.jobs[t].entries|
  }

  function Base(su: Setup, t: nat): int
    requires t < |su.jobs|
  {
    su.start + su.jobs[t].delay * TICKS_PER_MS
  }

  function Encodes(su: Setup, t: nat): nat -> (bool, bool) {
    (i: nat) => if su.pngOnly then (false, false) else su.enc(t, i)
  }

  // ------------------------------------------------------------ the loop body

  /** encode_and_write_subtitle, as far as the time stamps go. */
  function Write(s: State, su: Setup, t: nat, clear: bool, request: int, ok: bool): State
    requires t < |s.tracks| == |su.jobs|
  {
    if !ok then s
    else
      var p := Bump(s.tracks[t].last, request);
      s.(tracks := s.tracks[t := s.tracks[t].(last := Some(p))],
         out := s.out + [FromTrack(su.jobs[t].stream, t, Shot(s.tracks[t].cur, clear, request, p))])
  }

  /** Show and clear of the next cue of track `t`. */
  function ReleaseOne(s: State, su: Setup, t: nat): (r: State)
    requires WellFormed(su, s) && t < |su.jobs| && s.tracks[t].cur < |su.jobs[t].entries|
    ensures WellFormed(su, r) && r.tracks[t].cur == s.tracks[t].cur + 1
  {
    var i := s.tracks[t].cur;
    var e, ok := su.jobs[t].entries[i], Encodes(su, t)(i);
    var shown := Write(s, su, t, false, Ticks(Base(su, t), e.start), ok.0);
    var cleared := Write(shown, su, t, true, Ticks(Base(su, t), e.end), ok.1);
    cleared.(tracks := cleared.tracks[t := cleared.tracks[t].(cur := i + 1)])
  }

  /** The release test: it does not add the input's start time. */
  predicate IsDue(e: Entry, delay: int, now: Option<int>) { now.Some? && (e.start + delay) * TICKS_PER_MS <= now.value }

  function Release(s: State, su: Setup, t: nat, now: Option<int>): (r: State)
    requires WellFormed(su, s) && t < |su.jobs|
    ensures WellFormed(su, r)
    decreases |su.jobs[t].entries| - s.tracks[t].cur
  {
    var j, i := su.jobs[t], s.tracks[t].cur;
    if i < |j.entries| && IsDue(j.entries[i], j.delay, now) then Release(ReleaseOne(s, su, t), su, t, now) else s
  }

  function ReleaseUpTo(s: State, su: Setup, n: nat, now: Option<int>): (r: State)
    requires WellFormed(su, s) && n <= |su.jobs|
    ensures WellFormed(su, r)
  {
    if n == 0 then s else Release(ReleaseUpTo(s, su, n - 1, now), su, n - 1, now)
  }

  function TimeOf(p: Packet): Option<int> { if p.pts.None? then p.dts else p.pts }

  predicate TakenOver(su: Setup, k: int) { exists t :: 0 <= t < |su.jobs| && su.jobs[t].stream == k }

  /** Packets with an invalid stream index, and those of taken-over streams. */
  predicate Dropped(su: Setup, p: Packet) { p.stream < 0 || p.stream >= su.nIn || TakenOver(su, p.stream) }

  function Step(s: State, su: Setup, p: Packet): (r: State)
    requires WellFormed(su, s)
    ensures WellFormed(su, r)
  {
    if Dropped(su, p) then s
    else
      var now := if TimeOf(p).Some? then TimeOf(p) else s.lastValid;
      var r := ReleaseUpTo(s.(lastValid := now), su, |su.jobs|, now);
      if su.pngOnly then r else r.(out := r.out + [FromInput(p.stream, p.stream)])
  }

  function Start(su: Setup): (r: State)
    ensures WellFormed(su, r)
  {
    State(seq(|su.jobs|, _ => Cursor(0, None)), None, [])
  }

  function Run(su: Setup, ps: seq<Packet>): (r: State)
    ensures WellFormed(su, r)
  {
    if ps == [] then Start(su) else Step(Run(su, ps[..|ps| - 1]), su, ps[|ps| - 1])
  }

  // ------------------------------------------------------------ what a track has written

  /** The packets of track `t`, in order. */
  function ShotsOf(out: seq<Sent>, t: nat): seq<Shot> {
    if out == [] then []
    else
      var x := out[|out| - 1];
      ShotsOf(out[..|out| - 1], t) + if x.FromTrack? && x.track == t then [x.shot] else []
  }

  lemma ShotsSnoc(out: seq<Sent>, x: Sent, t: nat)
    ensures ShotsOf(out + [x], t) == ShotsOf(out, t) + if x.FromTrack? && x.track == t then [x.shot] else []
  {
    assert (out + [x])[..|out|] == out;
  }

  function ClockOf(s: State, t: nat): Clock
    requires t < |s.tracks|
  {
    Clock(s.tracks[t].last, ShotsOf(s.out, t))
  }

  /** Track `t` stands where playing its first `cur` cues would leave it. */
  ghost predicate Follows(su: Setup, s: State, t: nat)
    requires WellFormed(su, s) && t < |su.jobs|
  {
    ClockOf(s, t) == Play(Base(su, t), su.jobs[t].entries, Encodes(su, t), s.tracks[t].cur)
  }

  lemma WriteClock(s: State, su: Setup, t: nat, clear: bool, request: int, ok: bool, u: nat)
    requires WellFormed(su, s) && t < |su.jobs| && u < |su.jobs|
    ensures ClockOf(Write(s, su, t, clear, request, ok), u) ==
            if u == t then Send(ClockOf(s, t), s.tracks[t].cur, clear, request, ok) else ClockOf(s, u)
  {
    if ok {
      var shot := Shot(s.tracks[t].cur, clear, request, Bump(s.tracks[t].last, request));
      ShotsSnoc(s.out, FromTrack(su.jobs[t].stream, t, shot), u);
    }
  }

  lemma ReleaseOneClock(s: State, su: Setup, t: nat, u: nat)
    requires WellFormed(su, s) && t < |su.jobs| && s.tracks[t].cur < |su.jobs[t].entries| && u < |su.jobs|
    ensures var i := s.tracks[t].cur;
            ClockOf(ReleaseOne(s, su, t), u) ==
            if u == t then PlayCue(ClockOf(s, t), Base(su, t), su.jobs[t].entries[i], i, Encodes(su, t)(i))
            else ClockOf(s, u)
  {
    var i := s.tracks[t].cur;
    var e, ok := su.jobs[t].entries[i], Encodes(su, t)(i);
    var shown := Write(s, su, t, false, Ticks(Base(su, t), e.start), ok.0);
    WriteClock(s, su, t, false, Ticks(Base(su, t), e.start), ok.0, u);
    WriteClock(shown, su, t, true, Ticks(Base(su, t), e.end), ok.1, u);
    var cleared := Write(shown, su, t, true, Ticks(Base(su, t), e.end), ok.1);
    assert ClockOf(ReleaseOne(s, su, t), u) == ClockOf(cleared, u);
  }

  lemma ReleaseOneFollows(s: State, su: Setup, t: nat, u: nat)
    requires WellFormed(su, s) && t < |su.jobs| && s.tracks[t].cur < |su.jobs[t].entries|
    requires u < |su.jobs| && Follows(su, s, u)
    ensures Follows(su, ReleaseOne(s, su, t), u)
    ensures u != t ==> ReleaseOne(s, su, t).tracks[u] == s.tracks[u]
  {
    ReleaseOneClock(s, su, t, u);
  }

  // ------------------------------------------------------------ which cues are out

  /** Cue starts never decrease, as the parser leaves them. */
  predicate Sorted(es: seq<Entry>) { forall i, j :: 0 <= i < j < |es| ==> es[i].start <= es[j].start }

  /** Exactly the first `cur` cues are due. */
  ghost predicate Frontier(j: Job, cur: nat, now: Option<int>) {
    cur <= |j.entries| && forall i :: 0 <= i < |j.entries| ==> (i < cur <==> IsDue(j.entries[i], j.delay, now))
  }

  function Later(a: Option<int>, b: Option<int>): Option<int> {
    if a.None? then b else if b.None? then a else Some(Max(a.value, b.value))
  }

  lemma {:induction false} ReleaseFollows(s: State, su: Setup, t: nat, now: Option<int>, u: nat)
    requires WellFormed(su, s) && t < |su.jobs| && u < |su.jobs| && Follows(su, s, u)
    ensures Follows(su, Release(s, su, t, now), u)
    ensures u != t ==> Release(s, su, t, now).tracks[u] == s.tracks[u]
    decreases |su.jobs[t].entries| - s.tracks[t].cur
  {
    var j, i := su.jobs[t], s.tracks[t].cur;
    if i < |j.entries| && IsDue(j.entries[i], j.delay, now) {
      ReleaseOneFollows(s, su, t, u);
      ReleaseFollows(ReleaseOne(s, su, t), su, t, now, u);
    }
  }

  /** The loop stops at the first cue that is not due. */
  lemma {:induction false} ReleaseStops(s: State, su: Setup, t: nat, now: Option<int>)
    requires WellFormed(su, s) && t < |su.jobs|
    ensures var j, a, b := su.jobs[t], s.tracks[t].cur, Release(s, su, t, now).tracks[t].cur;
            && a <= b && (forall i :: a <= i < b ==> IsDue(j.entries[i], j.delay, now))
            && (b < |j.entries| ==> !IsDue(j.entries[b], j.delay, now))
    decreases |su.jobs[t].entries| - s.tracks[t].cur
  {
    var j, i := su.jobs[t], s.tracks[t].cur;
    if i < |j.entries| && IsDue(j.entries[i], j.delay, now) { ReleaseStops(ReleaseOne(s, su, t), su, t, now); }
  }

  lemma ReleaseFrontier(s: State, su: Setup, t: nat, now: Option<int>, seen: Option<int>)
    requires WellFormed(su, s) && t < |su.jobs| && Sorted(su.jobs[t].entries)
    requires Frontier(su.jobs[t], s.tracks[t].cur, seen)
    ensures Frontier(su.jobs[t], Release(s, su, t, now).tracks[t].cur, Later(seen, now))
  {
    var j, a, b := su.jobs[t], s.tracks[t].cur, Release(s, su, t, now).tracks[t].cur;
    ReleaseStops(s, su, t, now);
    forall i | 0 <= i < |j.entries| ensures i < b <==> IsDue(j.entries[i], j.delay, Later(seen, now)) {
      if b <= i && b < i { assert j.entries[b].start <= j.entries[i].start; }
      if a < |j.entries| && a < i { assert j.entries[a].start <= j.entries[i].start; }
      assert i < a <==> IsDue(j.entries[i], j.delay, seen);
      if a < |j.entries| { assert !IsDue(j.entries[a], j.delay, seen); }
    }
  }

  ghost predicate TrackOk(su: Setup, s: State, t: nat, seen: Option<int>)
    requires WellFormed(su, s) && t < |su.jobs|
  {
    Follows(su, s, t) && (Sorted(su.jobs[t].entries) ==> Frontier(su.jobs[t], s.tracks[t].cur, seen))
  }

  lemma {:induction false} ReleaseUpToOk(s: State, su: Setup, n: nat, now: Option<int>, seen: Option<int>, t: nat)
    requires WellFormed(su, s) && n <= |su.jobs| && t < |su.jobs| && TrackOk(su, s, t, seen)
    ensures TrackOk(su, ReleaseUpTo(s, su, n, now), t, if t < n then Later(seen, now) else seen)
  {
    if n > 0 {
      ReleaseUpToOk(s, su, n - 1, now, seen, t);
      ReleaseOk(ReleaseUpTo(s, su, n - 1, now), su, n - 1, now, seen, t);
    }
  }

  lemma ReleaseOk(s: State, su: Setup, u: nat, now: Option<int>, seen: Option<int>, t: nat)
    requires WellFormed(su, s) && u < |su.jobs| && t < |su.jobs|
    requires TrackOk(su, s, t, if t < u then Later(seen, now) else seen)
    ensures TrackOk(su, Release(s, su, u, now), t, if t <= u then Later(seen, now) else seen)
  {
    ReleaseFollows(s, su, u, now, t);
    if t == u && Sorted(su.jobs[t].entries) { ReleaseFrontier(s, su, t, now, seen); }
  }

  /** The largest time of the packets that were not dropped, as the loop meets them. */
  function Seen(su: Setup, ps: seq<Packet>): Option<int> {
    if ps == [] then None
    else var p := ps[|ps| - 1]; Later(Seen(su, ps[..|ps| - 1]), if Dropped(su, p) then None else TimeOf(p))
  }

  lemma {:induction false} LastValidSeen(su: Setup, ps: seq<Packet>)
    ensures Later(Seen(su, ps), Run(su, ps).lastValid) == Seen(su, ps)
  {
    if ps != [] {
      var s := Run(su, ps[..|ps| - 1]);
      LastValidSeen(su, ps[..|ps| - 1]);
      var p := ps[|ps| - 1];
      var now := if TimeOf(p).Some? then TimeOf(p) else s.lastValid;
      ReleaseUpToKeeps(s.(lastValid := now), su, |su.jobs|, now);
    }
  }

  lemma {:induction false} ReleaseKeeps(s: State, su: Setup, t: nat, now: Option<int>)
    requires WellFormed(su, s) && t < |su.jobs|
    ensures Release(s, su, t, now).lastValid == s.lastValid
    decreases |su.jobs[t].entries| - s.tracks[t].cur
  {
    var j, i := su.jobs[t], s.tracks[t].cur;
    if i < |j.entries| && IsDue(j.entries[i], j.delay, now) { ReleaseKeeps(ReleaseOne(s, su, t), su, t, now); }
  }

  lemma {:induction false} ReleaseUpToKeeps(s: State, su: Setup, n: nat, now: Option<int>)
    requires WellFormed(su, s) && n <= |su.jobs|
    ensures ReleaseUpTo(s, su, n, now).lastValid == s.lastValid
  {
    if n > 0 {
      ReleaseUpToKeeps(s, su, n - 1, now);
      ReleaseKeeps(ReleaseUpTo(s, su, n - 1, now), su, n - 1, now);
    }
  }

  lemma StartOk(su: Setup, t: nat)
    requires t < |su.jobs|
    ensures TrackOk(su, Start(su), t, None)
  {
  }

  lemma StepOk(s: State, su: Setup, p: Packet, seen: Option<int>, t: nat)
    requires WellFormed(su, s) && t < |su.jobs| && TrackOk(su, s, t, seen) && Later(seen, s.lastValid) == seen
    ensures TrackOk(su, Step(s, su, p), t, Later(seen, if Dropped(su, p) then None else TimeOf(p)))
  {
    if !Dropped(su, p) {
      var now := if TimeOf(p).Some? then TimeOf(p) else s.lastValid;
      var from := s.(lastValid := now);
      assert TrackOk(su, from, t, seen);
      ReleaseUpToOk(from, su, |su.jobs|, now, seen, t);
      ShotsSnoc(ReleaseUpTo(from, su, |su.jobs|, now).out, FromInput(p.stream, p.stream), t);
    }
  }

  /** After any packets, a track has written exactly what playing its first cur_sub cues
      writes, and those are, for sorted cues, the ones due at the largest time seen. */
  lemma {:induction false} RunOk(su: Setup, ps: seq<Packet>, t: nat)
    requires t < |su.jobs|
    ensures TrackOk(su, Run(su, ps), t, Seen(su, ps))
  {
    if ps == [] { StartOk(su, t); } else {
      RunOk(su, ps[..|ps| - 1], t);
      LastValidSeen(su, ps[..|ps| - 1]);
      StepOk(Run(su, ps[..|ps| - 1]), su, ps[|ps| - 1], Seen(su, ps[..|ps| - 1]), t);
    }
  }

  /** The time a packet counts with: its PTS, else its DTS, of a stream of the input that no
      track has taken over. */
  ghost function CountsAt(su: Setup, p: Packet): Option<int> {
    if p.stream < 0 || p.stream >= su.nIn || exists t :: 0 <= t < |su.jobs| && su.jobs[t].stream == p.stream then None
    else if p.pts.Some? then p.pts else p.dts
  }

  /** The loop's time is the largest of these, if there is one. */
  lemma {:induction false} SeenIsLargest(su: Setup, ps: seq<Packet>)
    ensures forall i :: 0 <= i < |ps| && CountsAt(su, ps[i]).Some? ==>
              Seen(su, ps).Some? && CountsAt(su, ps[i]).value <= Seen(su, ps).value
    ensures Seen(su, ps).Some? ==> exists i :: 0 <= i < |ps| && CountsAt(su, ps[i]) == Seen(su, ps)
  {
    if ps != [] {
      var n := |ps| - 1;
      var before, p := Seen(su, ps[..n]), ps[n];
      SeenIsLargest(su, ps[..n]);
      assert CountsAt(su, p) == if Dropped(su, p) then None else TimeOf(p);
      if before.Some? && Seen(su, ps) == before {
        var i :| 0 <= i < n && CountsAt(su, ps[..n][i]) == before;
        assert CountsAt(su, ps[i]) == Seen(su, ps);
      }
    }
  }

  /** The cues of a track that are due at a time: those whose delayed start it has reached. */
  function DueCues(j: Job, now: Option<int>): set<nat> {
    set i: nat | i < |j.entries| && now.Some? && (j.entries[i].start + j.delay) * 90 <= now.value
  }

  function FirstN(n: nat): (r: set<nat>)
    ensures |r| == n && forall i: nat :: i in r <==> i < n
  {
    if n == 0 then {} else FirstN(n - 1) + {n - 1}
  }

  /** A packet of a track, from the cue list and the user's numbers alone: it belongs to a cue,
      and was asked for at the cue's delayed start or end, in 90 kHz ticks from `start`. */
  predicate RequestIs(start: int, es: seq<Entry>, delay: int, s: Shot) {
    s.cue < |es| && s.request == start + 90 * ((if s.clear then es[s.cue].end else es[s.cue].start) + delay)
  }

  /** cur_sub is the number of cues due at the largest stream time seen, and those cues have
      been shown and cleared once each, in order, none skipped, as far as the encoder yields. */
  lemma CuesReleased(su: Setup, ps: seq<Packet>, t: nat)
    requires t < |su.jobs| && Sorted(su.jobs[t].entries)
    ensures var s, j := Run(su, ps), su.jobs[t];
            && s.tracks[t].cur == |DueCues(j, Seen(su, ps))|
            && ShotsOf(s.out, t) == Play(Base(su, t), j.entries, Encodes(su, t), s.tracks[t].cur).shots
            && InOrder(ShotsOf(s.out, t)) && |ShotsOf(s.out, t)| == Yields(Encodes(su, t), s.tracks[t].cur)
            && (forall k :: 0 <= k < |ShotsOf(s.out, t)| ==>
                  ShotsOf(s.out, t)[k].cue < s.tracks[t].cur
                  && RequestIs(su.start, j.entries, j.delay, ShotsOf(s.out, t)[k]))
            && (forall i :: 0 <= i < s.tracks[t].cur ==>
                  && (Written(ShotsOf(s.out, t), i, false) <==> !su.pngOnly && su.enc(t, i).0)
                  && (Written(ShotsOf(s.out, t), i, true) <==> !su.pngOnly && su.enc(t, i).1))
  {
    var s, j := Run(su, ps), su.jobs[t];
    RunOk(su, ps, t);
    assert DueCues(j, Seen(su, ps)) == FirstN(s.tracks[t].cur);
    PlayWrites(Base(su, t), j.entries, Encodes(su, t), s.tracks[t].cur);
    PlayWritten(Base(su, t), j.entries, Encodes(su, t), s.tracks[t].cur);
  }

  /** In every run, of sorted cues or not, every packet of every track was asked for when it should. */
  lemma Requests(su: Setup, ps: seq<Packet>, k: nat)
    requires k < |Run(su, ps).out| && Run(su, ps).out[k].FromTrack?
    ensures var x := Run(su, ps).out[k];
            x.track < |su.jobs| && RequestIs(su.start, su.jobs[x.track].entries, su.jobs[x.track].delay, x.shot)
  {
    var s := Run(su, ps);
    var t := s.out[k].track;
    RunRouted(su, ps);
    assert Routed(su, s.out[k]);
    RunOk(su, ps, t);
    PlayWrites(Base(su, t), su.jobs[t].entries, Encodes(su, t), s.tracks[t].cur);
    var m := ShotListed(s.out, k);
  }

  lemma {:induction false} ShotListed(out: seq<Sent>, k: nat) returns (m: nat)
    requires k < |out| && out[k].FromTrack?
    ensures m < |ShotsOf(out, out[k].track)| && ShotsOf(out, out[k].track)[m] == out[k].shot
  {
    var n := |out| - 1;
    if k == n { m := |ShotsOf(out[..n], out[k].track)|; } else { m := ShotListed(out[..n], k); }
  }

  lemma {:induction false} NoYields(su: Setup, t: nat, n: nat)
    requires su.pngOnly
    ensures Yields(Encodes(su, t), n) == 0
  {
    if n > 0 { NoYields(su, t, n - 1); }
  }

  /** Whatever was sent came from the input or from some track. */
  lemma SentBySomeone(su: Setup, out: seq<Sent>)
    requires AllRouted(su, out)
    ensures out != [] ==> InputsOf(out) != [] || exists t :: 0 <= t < |su.jobs| && ShotsOf(out, t) != []
  {
    if out != [] {
      var x := out[|out| - 1];
      assert Routed(su, x);
      if x.FromTrack? { assert ShotsOf(out, x.track) != []; }
    }
  }

  /** A run that only writes PNG files sends nothing. */
  lemma PngOnlySilent(su: Setup, ps: seq<Packet>)
    requires su.pngOnly
    ensures Run(su, ps).out == []
  {
    var s := Run(su, ps);
    RunRouted(su, ps);
    forall t | 0 <= t < |su.jobs| ensures ShotsOf(s.out, t) == [] {
      RunOk(su, ps, t);
      NoYields(su, t, s.tracks[t].cur);
      PlayWrites(Base(su, t), su.jobs[t].entries, Encodes(su, t), s.tracks[t].cur);
    }
    SentBySomeone(su, s.out);
  }

  /** A track's packets in any run: time stamps strictly increase, the k-th is the maximum
      over j <= k of request j plus k - j milliseconds, and with room in every cue each show
      is at most a millisecond late and each clear is on time. */
  lemma TrackOnTime(su: Setup, ps: seq<Packet>, t: nat)
    requires t < |su.jobs|
    ensures var shots := ShotsOf(Run(su, ps).out, t);
            && (forall i, j :: 0 <= i < j < |shots| ==> shots[i].pts < shots[j].pts)
            && (forall k :: 0 <= k < |shots| ==> IsPeak(shots, k, shots[k].pts))
            && (Disjoint(su.jobs[t].entries) && Roomy(su.jobs[t].entries) ==> OnTime(shots))
  {
    var s, j, base := Run(su, ps), su.jobs[t], Base(su, t);
    var c := ClockOf(s, t);
    RunOk(su, ps, t);
    PlayChained(base, j.entries, Encodes(su, t), s.tracks[t].cur);
    PlayGridded(base, j.entries, Encodes(su, t), s.tracks[t].cur);
    forall a, b | 0 <= a < b < |c.shots| ensures c.shots[a].pts < c.shots[b].pts { StrictlyIncreasing(c, a, b); }
    forall k | 0 <= k < |c.shots| ensures IsPeak(c.shots, k, c.shots[k].pts) { PeakForm(base, c, k); }
    if Disjoint(j.entries) && Roomy(j.entries) { RoomyOnTime(base, j.entries, Encodes(su, t), s.tracks[t].cur); }
  }

  /** Cues that are in order one after the other are sorted by start. */
  lemma {:induction false} DisjointSorted(es: seq<Entry>, i: nat, j: nat)
    requires Disjoint(es) && i <= j < |es| && forall k :: 0 <= k < |es| ==> es[k].start <= es[k].end
    ensures es[i].start <= es[j].start
  {
    if i < j { DisjointSorted(es, i, j - 1); }
  }

  /** From the subtitle file to the muxer: for the cues either parser returns, cur_sub counts
      the cues due, and with at least two milliseconds per cue every packet is punctual. */
  lemma ParsedCuesOnTime(su: Setup, ps: seq<Packet>, t: nat,
                         file: seq<seq<Utf8.byte>>, sc: SrtParser.Scanner, cfg: SrtParser.Config, stats: bool)
    requires t < |su.jobs| && su.jobs[t].entries == SrtParser.Parsed(file, sc, cfg, stats)
    ensures Run(su, ps).tracks[t].cur == |DueCues(su.jobs[t], Seen(su, ps))|
    ensures (forall i :: 0 <= i < |su.jobs[t].entries| ==> su.jobs[t].entries[i].start + 2 <= su.jobs[t].entries[i].end)
            ==> OnTime(ShotsOf(Run(su, ps).out, t))
  {
    var es := su.jobs[t].entries;
    SrtParser.ParsedInOrder(file, sc, cfg, stats);
    forall i, j | 0 <= i < j < |es| ensures es[i].start <= es[j].start { DisjointSorted(es, i, j); }
    CuesReleased(su, ps, t);
    TrackOnTime(su, ps, t);
  }

  // ------------------------------------------------------------ who writes which stream

  /** A packet is forwarded under its own index from a stream nobody took over, or belongs
      to a track and goes to that track's stream. */
  ghost predicate Routed(su: Setup, x: Sent) {
    match x
    case FromInput(stream, input) => stream == input < su.nIn && !TakenOver(su, input)
    case FromTrack(stream, t, _) => t < |su.jobs| && stream == su.jobs[t].stream
  }

  ghost predicate AllRouted(su: Setup, out: seq<Sent>) { forall k :: 0 <= k < |out| ==> Routed(su, out[k]) }

  /** Nothing was forwarded on the way from `s` to `r`, and all packets are where they belong. */
  ghost predicate OnlyTracks(su: Setup, s: State, r: State) {
    AllRouted(su, r.out) && InputsOf(r.out) == InputsOf(s.out)
  }

  lemma {:induction false} ReleaseRouted(s: State, su: Setup, t: nat, now: Option<int>)
    requires WellFormed(su, s) && t < |su.jobs| && AllRouted(su, s.out)
    ensures OnlyTracks(su, s, Release(s, su, t, now))
    decreases |su.jobs[t].entries| - s.tracks[t].cur
  {
    var j, i := su.jobs[t], s.tracks[t].cur;
    if i < |j.entries| && IsDue(j.entries[i], j.delay, now) {
      ReleaseOneRouted(s, su, t);
      ReleaseRouted(ReleaseOne(s, su, t), su, t, now);
    }
  }

  lemma ReleaseOneRouted(s: State, su: Setup, t: nat)
    requires WellFormed(su, s) && t < |su.jobs| && s.tracks[t].cur < |su.jobs[t].entries| && AllRouted(su, s.out)
    ensures OnlyTracks(su, s, ReleaseOne(s, su, t))
  {
    var i := s.tracks[t].cur;
    var e, ok := su.jobs[t].entries[i], Encodes(su, t)(i);
    WriteRouted(s, su, t, false, Ticks(Base(su, t), e.start), ok.0);
    var shown := Write(s, su, t, false, Ticks(Base(su, t), e.start), ok.0);
    WriteRouted(shown, su, t, true, Ticks(Base(su, t), e.end), ok.1);
  }

  lemma WriteRouted(s: State, su: Setup, t: nat, clear: bool, request: int, ok: bool)
    requires WellFormed(su, s) && t < |su.jobs| && AllRouted(su, s.out)
    ensures OnlyTracks(su, s, Write(s, su, t, clear, request, ok))
  {
    var r := Write(s, su, t, clear, request, ok);
    if ok { assert r.out[..|s.out|] == s.out; }
  }

  lemma {:induction false} ReleaseUpToRouted(s: State, su: Setup, n: nat, now: Option<int>)
    requires WellFormed(su, s) && n <= |su.jobs| && AllRouted(su, s.out)
    ensures OnlyTracks(su, s, ReleaseUpTo(s, su, n, now))
  {
    if n > 0 {
      var mid := ReleaseUpTo(s, su, n - 1, now);
      ReleaseUpToRouted(s, su, n - 1, now);
      ReleaseRouted(mid, su, n - 1, now);
    }
  }

  /** The input streams of the forwarded packets, in order. */
  function InputsOf(out: seq<Sent>): seq<nat> {
    if out == [] then []
    else var x := out[|out| - 1]; InputsOf(out[..|out| - 1]) + if x.FromInput? then [x.input] else []
  }

  /** The packets of input streams that no track has, in order. */
  function Kept(su: Setup, ps: seq<Packet>): seq<nat> {
    if ps == [] then []
    else
      var p := ps[|ps| - 1];
      Kept(su, ps[..|ps| - 1]) + if 0 <= p.stream < su.nIn && p.stream !in StreamsOf(su) then [p.stream] else []
  }

  lemma DroppedIff(su: Setup, p: Packet)
    ensures Dropped(su, p) <==> !(0 <= p.stream < su.nIn && p.stream !in StreamsOf(su))
  {
    forall t | 0 <= t < |su.jobs| ensures StreamsOf(su)[t] == su.jobs[t].stream { }
  }

  lemma StepRouted(s: State, su: Setup, p: Packet)
    requires WellFormed(su, s) && AllRouted(su, s.out)
    ensures AllRouted(su, Step(s, su, p).out)
    ensures InputsOf(Step(s, su, p).out) == InputsOf(s.out) + if su.pngOnly || Dropped(su, p) then [] else [p.stream]
  {
    if !Dropped(su, p) {
      var now := if TimeOf(p).Some? then TimeOf(p) else s.lastValid;
      var from := s.(lastValid := now);
      var r := ReleaseUpTo(from, su, |su.jobs|, now);
      ReleaseUpToRouted(from, su, |su.jobs|, now);
      assert (r.out + [FromInput(p.stream, p.stream)])[..|r.out|] == r.out;
    }
  }

  /** Every packet goes where it belongs, and exactly the packets of streams that were not
      taken over pass through, in their order. */
  lemma {:induction false} RunRouted(su: Setup, ps: seq<Packet>)
    ensures AllRouted(su, Run(su, ps).out)
    ensures InputsOf(Run(su, ps).out) == if su.pngOnly then [] else Kept(su, ps)
  {
    if ps != [] {
      RunRouted(su, ps[..|ps| - 1]);
      DroppedIff(su, ps[|ps| - 1]);
      StepRouted(Run(su, ps[..|ps| - 1]), su, ps[|ps| - 1]);
    }
  }

  lemma {:induction false} ReleaseGrows(s: State, su: Setup, t: nat, now: Option<int>)
    requires WellFormed(su, s) && t < |su.jobs|
    ensures s.out <= Release(s, su, t, now).out
    decreases |su.jobs[t].entries| - s.tracks[t].cur
  {
    var j, i := su.jobs[t], s.tracks[t].cur;
    if i < |j.entries| && IsDue(j.entries[i], j.delay, now) { ReleaseGrows(ReleaseOne(s, su, t), su, t, now); }
  }

  lemma {:induction false} ReleaseUpToGrows(s: State, su: Setup, n: nat, now: Option<int>)
    requires WellFormed(su, s) && n <= |su.jobs|
    ensures s.out <= ReleaseUpTo(s, su, n, now).out
  {
    if n > 0 {
      ReleaseUpToGrows(s, su, n - 1, now);
      ReleaseGrows(ReleaseUpTo(s, su, n - 1, now), su, n - 1, now);
    }
  }

  /** What was sent stays sent, and a packet that passes goes out behind the cues it makes due. */
  lemma CuesGoFirst(su: Setup, ps: seq<Packet>, p: Packet)
    requires !su.pngOnly && 0 <= p.stream < su.nIn && p.stream !in StreamsOf(su)
    ensures var was, now := Run(su, ps).out, Run(su, ps + [p]).out;
            was < now && now[|now| - 1] == FromInput(p.stream, p.stream)
  {
    var s := Run(su, ps);
    DroppedIff(su, p);
    assert (ps + [p])[..|ps|] == ps;
    var time := if TimeOf(p).Some? then TimeOf(p) else s.lastValid;
    ReleaseUpToGrows(s.(lastValid := time), su, |su.jobs|, time);
  }

  /** The same input stream, or the same subtitle track. */
  predicate SameWriter(x: Sent, y: Sent) {
    if x.FromInput? then y.FromInput? && x.input == y.input else y.FromTrack? && x.track == y.track
  }

  function StreamsOf(su: Setup): (r: seq<nat>)
    ensures |r| == |su.jobs|
  {
    seq(|su.jobs|, t requires 0 <= t < |su.jobs| => su.jobs[t].stream)
  }

  /** In every run each output stream has a single writer. */
  lemma SingleWriter(su: Setup, ps: seq<Packet>)
    requires Streams.Apart(StreamsOf(su))
    ensures forall i, j :: 0 <= i < j < |Run(su, ps).out| && Run(su, ps).out[i].stream == Run(su, ps).out[j].stream
                           ==> SameWriter(Run(su, ps).out[i], Run(su, ps).out[j])
  {
    var out := Run(su, ps).out;
    RunRouted(su, ps);
    forall i, j | 0 <= i < j < |out| && out[i].stream == out[j].stream ensures SameWriter(out[i], out[j]) {
      assert Routed(su, out[i]) && Routed(su, out[j]);
      if out[i].FromTrack? && out[j].FromTrack? {
        assert StreamsOf(su)[out[i].track] == StreamsOf(su)[out[j].track];
      }
    }
  }

  // ------------------------------------------------------------ the loop itself

  class PacketLoop {
    const su: Setup
    const table: Streams.StreamTable
    var tracks: seq<Cursor>
    var lastValid: Option<int>
    var out: seq<Sent>

    ghost function View(): State
      reads this
    {
      State(tracks, lastValid, out)
    }

    /** The tracks write to the streams the table gave them. */
    ghost predicate Valid()
      reads this, table
    {
      && WellFormed(su, View()) && table.Wiring() && |table.ins| == su.nIn
      && table.tracks == StreamsOf(su)
    }

    constructor (setup: Setup, streams: Streams.StreamTable)
      requires streams.Wiring() && |streams.ins| == setup.nIn && streams.tracks == StreamsOf(setup)
      ensures Valid() && su == setup && table == streams && View() == Start(setup)
    {
      su, table := setup, streams;
      tracks, lastValid, out := seq(|setup.jobs|, _ => Cursor(0, None)), None, [];
    }

    /** The PTS part of encode_and_write_subtitle. */
    method EncodeAndWrite(t: nat, clear: bool, request: int, ok: bool)
      requires Valid() && t < |su.jobs|
      modifies this
      ensures View() == Write(old(View()), su, t, clear, request, ok) && Valid()
    {
      if !ok { return; }
      var pts := request;
      if tracks[t].last.Some? && pts <= tracks[t].last.value { pts := tracks[t].last.value + TICKS_PER_MS; }
      out := out + [FromTrack(su.jobs[t].stream, t, Shot(tracks[t].cur, clear, request, pts))];
      tracks := tracks[t := tracks[t].(last := Some(pts))];
    }

    method ReleaseTrack(t: nat, now: Option<int>)
      requires Valid() && t < |su.jobs|
      modifies this
      ensures View() == Release(old(View()), su, t, now) && Valid()
    {
      while tracks[t].cur < |su.jobs[t].entries| && IsDue(su.jobs[t].entries[tracks[t].cur], su.jobs[t].delay, now)
        invariant Valid() && Release(View(), su, t, now) == Release(old(View()), su, t, now)
        decreases |su.jobs[t].entries| - tracks[t].cur
      {
        ShowAndClear(t);
      }
    }

    method ShowAndClear(t: nat)
      requires Valid() && t < |su.jobs| && tracks[t].cur < |su.jobs[t].entries|
      modifies this
      ensures View() == ReleaseOne(old(View()), su, t) && Valid()
    {
      var i := tracks[t].cur;
      var e, ok := su.jobs[t].entries[i], Encodes(su, t)(i);
      EncodeAndWrite(t, false, su.start + (e.start + su.jobs[t].delay) * TICKS_PER_MS, ok.0);
      EncodeAndWrite(t, true, su.start + (e.end + su.jobs[t].delay) * TICKS_PER_MS, ok.1);
      tracks := tracks[t := tracks[t].(cur := i + 1)];
    }

    method ReleaseTracks(now: Option<int>)
      requires Valid()
      modifies this
      ensures View() == ReleaseUpTo(old(View()), su, |su.jobs|, now) && Valid()
    {
      var t := 0;
      while t < |su.jobs|
        invariant 0 <= t <= |su.jobs| && Valid() && View() == ReleaseUpTo(old(View()), su, t, now)
      {
        ReleaseTrack(t, now);
        t := t + 1;
      }
    }

    lemma DropIff(k: nat)
      requires Valid()
      ensures k in table.tracks <==> TakenOver(su, k)
    {
      assert forall t :: 0 <= t < |su.jobs| ==> table.tracks[t] == su.jobs[t].stream;
    }

    method OnPacket(p: Packet)
      requires Valid()
      modifies this
      ensures View() == Step(old(View()), su, p) && Valid()
    {
      if p.stream < 0 || p.stream >= su.nIn { return; }
      var drop := table.IsOverwriteStream(p.stream);
      DropIff(p.stream);
      if drop { return; }
      var cur := if p.pts.None? then p.dts else p.pts;
      if cur.Some? { lastValid := cur; }
      ReleaseTracks(if cur.Some? then cur else lastValid);
      if !su.pngOnly { out := out + [FromInput(p.stream, p.stream)]; }
    }

    method Loop(ps: seq<Packet>)
      requires Valid() && View() == Start(su)
      modifies this
      ensures View() == Run(su, ps) && Valid()
    {
      var i := 0;
      while i < |ps|
        invariant 0 <= i <= |ps| && Valid() && View() == Run(su, ps[..i])
      {
        assert ps[..i + 1][..i] == ps[..i];
        OnPacket(ps[i]);
        i := i + 1;
      }
      assert ps[..i] == ps;
    }
  }

  const MAX_TRACKS := 8

  /** What the user asks for per track. */
  datatype Request = Request(lang: Streams.Lang, entries: seq<Entry>, delay: int)

  function JobsOf(reqs: seq<Request>, streams: seq<nat>): (jobs: seq<Job>)
    requires |reqs| == |streams|
    ensures |jobs| == |reqs|
  {
    seq(|reqs|, i requires 0 <= i < |reqs| => Job(reqs[i].entries, reqs[i].delay, streams[i]))
  }

  /** The languages of the tracks there will be: no more than eight. */
  function LangsOf(reqs: seq<Request>): (langs: seq<Streams.Lang>)
    ensures |langs| == Min(|reqs|, 8)
  {
    seq(Min(|reqs|, 8), i requires 0 <= i < |reqs| => reqs[i].lang)
  }

  /** What streams, ids and outcome a run starts with. */
  ghost predicate Prepared(o: Streams.Flags, ins: seq<Streams.Input>, reqs: seq<Request>, pids: seq<int>, top: int,
                           tracks: seq<nat>, ids: seq<int>, ok: bool)
    requires pids != [] ==> Streams.PidListOk(pids)
  {
    && Streams.IsTop(o, ins, top)
    && if pids == [] then Streams.DefaultsDone(o, ins, LangsOf(reqs), top, tracks, ids, ok)
       else Streams.PidsDone(o, ins, LangsOf(reqs), pids, tracks, ids, ok)
  }

  /** The loop over the tracks asked for. */
  method AddTracks(table: Streams.StreamTable, reqs: seq<Request>, ghost top: int) returns (ok: bool)
    requires table.Valid() && table.InStep(top) && table.tracks == []
    modifies table
    ensures table.Valid() && (ok ==> table.InStep(top))
    ensures Streams.DefaultsDone(table.opts, table.ins, LangsOf(reqs), top, table.tracks, table.ids, ok)
  {
    ok := true;
    ghost var langs := LangsOf(reqs);
    while |table.tracks| < |reqs| && |table.tracks| < MAX_TRACKS
      invariant table.Valid() && table.InStep(top) && |table.tracks| <= |langs|
      invariant Streams.AllChosen(table.opts, table.ins, langs, table.tracks)
      decreases |langs| - |table.tracks|
    {
      ghost var before := table.tracks;
      ok := table.AddTrack(reqs[|table.tracks|].lang, top);
      if !ok { return; }
      assert table.tracks == before + [table.tracks[|before|]];
      Streams.ChosenSnoc(table.opts, table.ins, langs, before, table.tracks[|before|]);
    }
    Streams.FreshInRange(table.opts, table.ins, top, table.maxPid, table.tracks, table.ids);
  }

  /** From mirroring to the chosen streams and ids: up to eight tracks, then the PIDs asked for. */
  method Prepare(o: Streams.Flags, inputs: seq<Streams.Input>, reqs: seq<Request>, pids: seq<int>)
    returns (ok: bool, table: Streams.StreamTable, ghost top: int)
    requires o.customPids <==> pids != []
    requires pids != [] ==> Streams.PidListOk(pids)
    ensures fresh(table) && table.Wiring() && table.ins == inputs
    ensures ok ==> |table.tracks| == Min(|reqs|, 8)
    ensures Prepared(o, inputs, reqs, pids, top, table.tracks, table.ids, ok)
    ensures Streams.DistinctInputs(inputs) ==> Streams.IdsApart(table.ids)
  {
    table := new Streams.StreamTable(o, inputs);
    top := table.maxPid;
    ok := AddTracks(table, reqs, top);
    if pids != [] {
      ghost var was := table.ids;
      var code := table.ApplyCustomPids(pids);
      ok := code == 0;
      GivePids(o, inputs, pids, top, table.tracks, was);
    }
  }

  lemma GivePids(o: Streams.Flags, ins: seq<Streams.Input>, pids: seq<int>, top: int, tracks: seq<nat>, was: seq<int>)
    requires Streams.PidListOk(pids) && Streams.IdsAre(o, ins, top, tracks, was) && Streams.Apart(tracks)
    requires forall t :: 0 <= t < |tracks| ==> tracks[t] < |was|
    ensures tracks != [] && Streams.Assigned(pids, |tracks|).Some? ==>
              var given := Streams.Assigned(pids, |tracks|).value;
              && (Streams.Conflict(was, tracks, given) <==> Streams.Clash(o, ins, tracks, given))
              && Streams.IdsGiven(o, ins, tracks, given, Streams.Give(was, tracks, given))
  {
    if tracks != [] && Streams.Assigned(pids, |tracks|).Some? {
      var given := Streams.Assigned(pids, |tracks|).value;
      Streams.ConflictIsClash(o, ins, top, tracks, was, given);
      Streams.GivenIs(o, ins, top, tracks, was, given);
    }
  }

  /** Packets of tracks ask for what the user's cues, delays and start time say. */
  ghost predicate AsAsked(start: int, reqs: seq<Request>, out: seq<Sent>) {
    forall k :: 0 <= k < |out| && out[k].FromTrack? ==>
      out[k].track < |reqs| && RequestIs(start, reqs[out[k].track].entries, reqs[out[k].track].delay, out[k].shot)
  }

  ghost predicate OneWriterEach(out: seq<Sent>) {
    forall i, j :: 0 <= i < j < |out| && out[i].stream == out[j].stream ==> SameWriter(out[i], out[j])
  }

  /** The setup of a run: the arguments, and for each track the stream it was given. */
  ghost predicate SetupIs(su: Setup, nIn: nat, start: int, pngOnly: bool, enc: (nat, nat) -> (bool, bool),
                          reqs: seq<Request>, tracks: seq<nat>) {
    && su.nIn == nIn && su.start == start && su.pngOnly == pngOnly && su.enc == enc
    && |su.jobs| == |tracks| <= |reqs|
    && forall i :: 0 <= i < |su.jobs| ==> su.jobs[i] == Job(reqs[i].entries, reqs[i].delay, tracks[i])
  }

  lemma AsAskedIs(su: Setup, start: int, reqs: seq<Request>, ps: seq<Packet>)
    requires su.start == start && |su.jobs| <= |reqs|
    requires forall i :: 0 <= i < |su.jobs| ==>
               su.jobs[i].entries == reqs[i].entries && su.jobs[i].delay == reqs[i].delay
    ensures AsAsked(start, reqs, Run(su, ps).out)
  {
    var out := Run(su, ps).out;
    forall k | 0 <= k < |out| && out[k].FromTrack?
      ensures out[k].track < |reqs|
              && RequestIs(start, reqs[out[k].track].entries, reqs[out[k].track].delay, out[k].shot)
    {
      Requests(su, ps, k);
    }
  }

  /** The program from mirroring to the end of input: streams and ids are chosen, requested
      PIDs given out, and the packets run through the loop.  Each output stream has a single
      writer, and positive ids are apart whenever the input's are. */
  method Mux(o: Streams.Flags, inputs: seq<Streams.Input>, reqs: seq<Request>, pids: seq<int>,
             start: int, pngOnly: bool, enc: (nat, nat) -> (bool, bool), ps: seq<Packet>)
    returns (ok: bool, ghost su: Setup, out: seq<Sent>, ids: seq<int>, ghost top: int, ghost streams: seq<nat>)
    requires o.customPids <==> pids != []
    requires pids != [] ==> Streams.PidListOk(pids)
    ensures Prepared(o, inputs, reqs, pids, top, streams, ids, ok)
    ensures ok ==> SetupIs(su, |inputs|, start, pngOnly, enc, reqs, streams) && out == Run(su, ps).out
    ensures ok ==> |su.jobs| == Min(|reqs|, 8) && Streams.Apart(StreamsOf(su))
    ensures ok ==> OneWriterEach(out) && AsAsked(start, reqs, out)
    ensures ok && Streams.DistinctInputs(inputs) ==> Streams.IdsApart(ids)
  {
    var table;
    out, su := [], Setup(0, 0, false, [], (_, _) => (false, false));
    ok, table, top := Prepare(o, inputs, reqs, pids);
    ids, streams := table.ids, table.tracks;
    if !ok { return; }
    var setup := Setup(|inputs|, start, pngOnly, JobsOf(reqs[..|table.tracks|], table.tracks), enc);
    assert StreamsOf(setup) == table.tracks;
    var loop := new PacketLoop(setup, table);
    loop.Loop(ps);
    su, out := setup, loop.out;
    SingleWriter(setup, ps);
    AsAskedIs(setup, start, reqs, ps);
  }
}
