/** Output streams of a run: mirroring of the input streams, takeover of existing
    subtitle streams (--overwrite) and the choice of PIDs (src/srt2dvbsub.c:296-349,
    1079-1125, 1315-1403, 1660-1721; src/utils.c:687-773). */
module Streams {
  import opened Common

  /** A three-letter language tag up to letter case. */
  type Lang(==)

  datatype Input = Input(id: int, subtitle: bool, lang: Option<Lang>)

  datatype Target = Target(stream: nat, pid: int, lang: Lang, used: bool)

  datatype Flags = Flags(overwrite: bool, preserve: bool, customPids: bool, allowed: Lang -> bool)

  const MAX_OVERWRITE_TARGETS := 16
  const RESERVED_PIDS := 31
  const MAX_PID := 8186

  // ------------------------------------------------------------ mirroring

  datatype Mirror = Mirror(ids: seq<int>, targets: seq<Target>, maxPid: int)

  /** A subtitle stream the takeover looks at, while there is room for another target. */
  predicate Considered(o: Flags, found: nat, s: Input) {
    o.overwrite && found < MAX_OVERWRITE_TARGETS && s.subtitle && s.lang.Some?
  }

  function MirrorOne(m: Mirror, o: Flags, s: Input): Mirror {
    if Considered(o, |m.targets|, s) && !o.allowed(s.lang.value) then m.(ids := m.ids + [0])
    else
      var targets := if Considered(o, |m.targets|, s)
                     then m.targets + [Target(|m.ids|, s.id, s.lang.value, false)] else m.targets;
      if o.preserve && s.id > 0 then Mirror(m.ids + [s.id], targets, Max(m.maxPid, s.id))
      else Mirror(m.ids + [0], targets, m.maxPid)
  }

  function MirrorAll(o: Flags, ins: seq<Input>): Mirror {
    if ins == [] then Mirror([], [], if o.preserve then RESERVED_PIDS else 0)
    else MirrorOne(MirrorAll(o, ins[..|ins| - 1]), o, ins[|ins| - 1])
  }

  /** A subtitle stream that a track of its language may take over. */
  predicate Eligible(o: Flags, s: Input) { o.overwrite && s.subtitle && s.lang.Some? && o.allowed(s.lang.value) }

  function EligibleCount(o: Flags, ins: seq<Input>): nat {
    if ins == [] then 0
    else EligibleCount(o, ins[..|ins| - 1]) + if Eligible(o, ins[|ins| - 1]) then 1 else 0
  }

  /** Stream `k` is one of the first sixteen of them. */
  predicate Offered(o: Flags, ins: seq<Input>, k: int) {
    0 <= k < |ins| && Eligible(o, ins[k]) && EligibleCount(o, ins[..k]) < 16
  }

  /** Whether stream `k` was passed over by the language filter, which also skips its id. */
  predicate FilteredOut(o: Flags, ins: seq<Input>, k: nat)
    requires k < |ins|
  {
    && o.overwrite && ins[k].subtitle && ins[k].lang.Some? && !o.allowed(ins[k].lang.value)
    && EligibleCount(o, ins[..k]) < 16
  }

  /** The id that mirroring gives stream `k`. */
  function Mirrored(o: Flags, ins: seq<Input>, k: nat): int
    requires k < |ins|
  {
    if o.preserve && ins[k].id > 0 && !FilteredOut(o, ins, k) then ins[k].id else 0
  }

  /** The largest id mirrored, at least 31; 0 when ids are not preserved. */
  ghost predicate IsTop(o: Flags, ins: seq<Input>, top: int) {
    if o.preserve
    then && 31 <= top && (forall k :: 0 <= k < |ins| ==> Mirrored(o, ins, k) <= top)
         && (top == 31 || exists k :: 0 <= k < |ins| && Mirrored(o, ins, k) == top)
    else top == 0
  }

  ghost predicate IsTarget(ts: seq<Target>, k: int) { exists i :: 0 <= i < |ts| && ts[i].stream == k }

  /** The targets are exactly the streams offered. */
  ghost predicate TargetsAre(o: Flags, ins: seq<Input>, ts: seq<Target>) {
    forall k {:trigger IsTarget(ts, k)} {:trigger Offered(o, ins, k)} :: IsTarget(ts, k) <==> Offered(o, ins, k)
  }

  predicate ByStream(ts: seq<Target>) { forall i, j :: 0 <= i < j < |ts| ==> ts[i].stream < ts[j].stream }

  ghost predicate TargetOk(o: Flags, ins: seq<Input>, ids: seq<int>, t: Target) {
    && t.stream < |ins| <= |ids| && ins[t.stream].subtitle && ins[t.stream].lang == Some(t.lang)
    && o.allowed(t.lang) && t.pid == ins[t.stream].id && (o.preserve && t.pid > 0 ==> ids[t.stream] == t.pid)
  }

  /** An output id is 0, the id of the input stream it mirrors, or a fresh one. */
  ghost predicate IdOk(o: Flags, ins: seq<Input>, ids: seq<int>, maxPid: int, k: nat)
    requires k < |ids|
  {
    ids[k] > 0 ==> if k < |ins| then ids[k] == ins[k].id && (o.preserve ==> ids[k] <= maxPid)
                   else o.preserve && RESERVED_PIDS < ids[k] <= maxPid && ids[k] <= MAX_PID
  }

  ghost predicate TargetsOk(o: Flags, ins: seq<Input>, ids: seq<int>, ts: seq<Target>) {
    && ByStream(ts) && |ts| <= MAX_OVERWRITE_TARGETS && (!o.overwrite ==> ts == [])
    && forall i :: 0 <= i < |ts| ==> TargetOk(o, ins, ids, ts[i])
  }

  lemma {:induction false} MirrorCount(o: Flags, ins: seq<Input>)
    ensures |MirrorAll(o, ins).targets| == Min(EligibleCount(o, ins), 16) && |MirrorAll(o, ins).ids| == |ins|
  {
    if ins != [] { MirrorCount(o, ins[..|ins| - 1]); }
  }

  lemma OfferedBefore(o: Flags, ins: seq<Input>, n: nat, k: int)
    requires n <= |ins| && k < n
    ensures Offered(o, ins[..n], k) <==> Offered(o, ins, k)
  {
    if 0 <= k { assert ins[..n][..k] == ins[..k]; }
  }

  lemma {:induction false} MirrorOffers(o: Flags, ins: seq<Input>)
    ensures TargetsAre(o, ins, MirrorAll(o, ins).targets)
  {
    if ins != [] {
      var n := |ins| - 1;
      var was, now := MirrorAll(o, ins[..n]).targets, MirrorAll(o, ins).targets;
      MirrorOffers(o, ins[..n]);
      MirrorCount(o, ins[..n]);
      forall k ensures IsTarget(now, k) <==> Offered(o, ins, k) {
        if k < n { OfferedBefore(o, ins, n, k); }
        TargetAdded(was, now, k);
      }
    }
  }

  lemma TargetAdded(was: seq<Target>, now: seq<Target>, k: int)
    requires now == was || (|now| == |was| + 1 && now[..|was|] == was)
    ensures IsTarget(now, k) <==> IsTarget(was, k) || (|now| > |was| && now[|was|].stream == k)
  {
    if IsTarget(was, k) { var i :| 0 <= i < |was| && was[i].stream == k; assert now[i].stream == k; }
  }

  /** Mirroring finds, under --overwrite, exactly the first sixteen subtitle streams of an
      allowed language, in stream order, each with its id. */
  lemma {:induction false} MirrorTargets(o: Flags, ins: seq<Input>)
    ensures var m := MirrorAll(o, ins);
            && |m.ids| == |ins| && TargetsOk(o, ins, m.ids, m.targets)
            && (forall i :: 0 <= i < |m.targets| ==> !m.targets[i].used)
            && TargetsAre(o, ins, m.targets)
  {
    MirrorOffers(o, ins);
    if ins != [] {
      var init := ins[..|ins| - 1];
      var before, m := MirrorAll(o, init), MirrorAll(o, ins);
      MirrorTargets(o, init);
      forall i | 0 <= i < |m.targets| ensures TargetOk(o, ins, m.ids, m.targets[i]) && !m.targets[i].used {
        if i < |before.targets| { assert TargetOk(o, init, before.ids, before.targets[i]); }
      }
      forall i | 0 <= i < |before.targets| ensures before.targets[i].stream < |init| {
        assert TargetOk(o, init, before.ids, before.targets[i]);
      }
    }
  }

  lemma FilteredBefore(o: Flags, ins: seq<Input>, n: nat, k: nat)
    requires k < n <= |ins|
    ensures FilteredOut(o, ins[..n], k) == FilteredOut(o, ins, k)
  {
    assert ins[..n][..k] == ins[..k];
  }

  /** Mirroring: one output stream per input stream, under the same index; its id is the
      input's exactly when ids are preserved, the id is positive and the language filter did
      not pass the stream over. */
  lemma {:induction false} MirrorIds(o: Flags, ins: seq<Input>)
    ensures var m := MirrorAll(o, ins);
            && |m.ids| == |ins| && IsTop(o, ins, m.maxPid)
            && (forall k :: 0 <= k < |ins| ==> m.ids[k] == Mirrored(o, ins, k))
            && (forall k :: 0 <= k < |ins| ==> IdOk(o, ins, m.ids, m.maxPid, k))
  {
    if ins != [] {
      var n := |ins| - 1;
      var init, before, m := ins[..n], MirrorAll(o, ins[..n]), MirrorAll(o, ins);
      MirrorIds(o, init);
      MirrorCount(o, init);
      forall k | 0 <= k < n ensures Mirrored(o, ins, k) == Mirrored(o, init, k) { FilteredBefore(o, ins, n, k); }
      forall k | 0 <= k < |ins| ensures IdOk(o, ins, m.ids, m.maxPid, k) && m.ids[k] == Mirrored(o, ins, k) {
        if k < n { assert IdOk(o, init, before.ids, before.maxPid, k); }
      }
      TopGrows(o, ins, before.maxPid, m.maxPid);
    }
  }

  lemma TopGrows(o: Flags, ins: seq<Input>, was: int, now: int)
    requires ins != [] && IsTop(o, ins[..|ins| - 1], was)
    requires forall k :: 0 <= k < |ins| - 1 ==> Mirrored(o, ins, k) == Mirrored(o, ins[..|ins| - 1], k)
    requires now == Max(was, Mirrored(o, ins, |ins| - 1))
    ensures IsTop(o, ins, now)
  {
    if o.preserve && now == was && was != 31 {
      var k :| 0 <= k < |ins| - 1 && Mirrored(o, ins[..|ins| - 1], k) == was;
      assert Mirrored(o, ins, k) == now;
    }
  }

  predicate Apart(xs: seq<nat>) { forall i, j :: 0 <= i < j < |xs| ==> xs[i] != xs[j] }

  /** Positive ids are pairwise distinct. */
  predicate IdsApart(ids: seq<int>) { forall i, j :: 0 <= i < j < |ids| && ids[i] > 0 ==> ids[i] != ids[j] }

  predicate DistinctInputs(ins: seq<Input>) {
    forall i, j :: 0 <= i < j < |ins| && ins[i].id > 0 ==> ins[i].id != ins[j].id
  }

  predicate Free(t: Target, lang: Lang) { !t.used && t.lang == lang }

  /** The first unused target of a language. */
  predicate IsFirst(ts: seq<Target>, lang: Lang, i: nat)
    requires i < |ts|
  {
    Free(ts[i], lang) && forall j :: 0 <= j < i ==> !Free(ts[j], lang)
  }

  // ------------------------------------------------------------ requested PIDs

  predicate PidInRange(p: int) { RESERVED_PIDS < p <= MAX_PID }

  /** What the --pid list may hold: distinct values in 32..8186, at least one. */
  predicate PidListOk(pids: seq<int>) {
    && pids != [] && (forall i :: 0 <= i < |pids| ==> PidInRange(pids[i]))
    && (forall i, j :: 0 <= i < j < |pids| ==> pids[i] != pids[j])
  }

  datatype PidList = Refused(code: int) | Pids(pids: seq<int>)

  /** A token that is no number, out of range, or a repetition. */
  predicate Bad(tokens: seq<Option<int>>, n: nat)
    requires n < |tokens|
  {
    tokens[n].None? || !PidInRange(tokens[n].value) || tokens[n] in tokens[..n]
  }

  /** parse_pid_list over the comma-separated tokens; a token that is no number is None.
      The first bad token decides the code: -1 for no number, 1 for a bad value. */
  method ParsePidList(tokens: seq<Option<int>>) returns (r: PidList)
    ensures r.Pids? <==> tokens != [] && forall n :: 0 <= n < |tokens| ==> !Bad(tokens, n)
    ensures r.Pids? ==>
              && PidListOk(r.pids) && |r.pids| == |tokens|
              && forall i :: 0 <= i < |tokens| ==> tokens[i] == Some(r.pids[i])
    ensures r.Refused? && tokens != [] ==>
              exists n :: 0 <= n < |tokens| && Bad(tokens, n) && (forall m :: 0 <= m < n ==> !Bad(tokens, m))
                          && r.code == if tokens[n].None? then -1 else 1
  {
    var pids: seq<int> := [];
    while |pids| < |tokens|
      invariant |pids| <= |tokens| && (pids == [] || PidListOk(pids))
      invariant forall i :: 0 <= i < |pids| ==> tokens[i] == Some(pids[i]) && !Bad(tokens, i)
    {
      var n := |pids|;
      if tokens[n].None? { assert Bad(tokens, n); return Refused(-1); }
      var val := tokens[n].value;
      if val < 32 || val > MAX_PID { assert Bad(tokens, n); return Refused(1); }
      var i := 0;
      while i < n
        invariant 0 <= i <= n && forall j :: 0 <= j < i ==> pids[j] != val
      {
        if pids[i] == val { assert tokens[..n][i] == tokens[n] && Bad(tokens, n); return Refused(1); }
        i := i + 1;
      }
      assert !Bad(tokens, n);
      pids := pids + [val];
    }
    if pids == [] { return Refused(-1); }
    r := Pids(pids);
  }

  /** The ids the tracks would get: counted up from a single value, or one per track. */
  function Assigned(pids: seq<int>, n: nat): (r: Option<seq<int>>)
    requires PidListOk(pids) && n > 0
    ensures r.Some? ==> |r.value| == n && PidListOk(r.value)
  {
    if |pids| == 1 then
      if pids[0] + n > MAX_PID then None else Some(seq(n, i requires 0 <= i < n => pids[0] + i))
    else if |pids| == n then Some(pids) else None
  }

  /** A list of several values goes to the tracks in order, one each, and to no other number of
      tracks; a single value counts up from itself. */
  lemma AssignedIs(pids: seq<int>, n: nat)
    requires PidListOk(pids) && n > 0
    ensures |pids| > 1 ==> Assigned(pids, n) == if n == |pids| then Some(pids) else None
    ensures |pids| == 1 && Assigned(pids, n).Some? ==>
              forall i :: 0 <= i < n ==> Assigned(pids, n).value[i] == pids[0] + i
  {
  }

  /** A list as long as there are tracks is taken as it is, unless it is the last id alone. */
  lemma AssignedOne(pids: seq<int>)
    requires PidListOk(pids)
    ensures Assigned(pids, |pids|) == Some(pids) <==> pids != [8186]
  {
    if |pids| == 1 && pids[0] + 1 <= MAX_PID { assert Assigned(pids, 1).value == pids; }
  }

  /** The increment test is one too strict: it refuses, besides the starts that would leave
      32..8186, exactly the start whose last id would be 8186 itself. */
  lemma SinglePidLimit(p: int, n: nat)
    requires PidInRange(p) && n > 0
    ensures (forall i :: p <= i < p + n ==> PidInRange(i)) <==> Assigned([p], n).Some? || p + n == MAX_PID + 1
  {
    if forall i :: p <= i < p + n ==> PidInRange(i) { assert PidInRange(p + n - 1); }
  }

  /** A value some stream that carries no track already has. */
  ghost predicate Conflict(ids: seq<int>, tracks: seq<nat>, pids: seq<int>) {
    exists k :: 0 <= k < |ids| && k !in tracks && ids[k] > 0 && ids[k] in pids
  }

  function Give(ids: seq<int>, tracks: seq<nat>, pids: seq<int>): (r: seq<int>)
    requires |tracks| <= |pids| && forall t :: 0 <= t < |tracks| ==> tracks[t] < |ids|
    ensures |r| == |ids|
  {
    if tracks == [] then ids
    else var n := |tracks| - 1; Give(ids, tracks[..n], pids)[tracks[n] := pids[n]]
  }

  lemma GiveNext(ids: seq<int>, tracks: seq<nat>, pids: seq<int>, i: nat)
    requires i < |tracks| <= |pids| && forall t :: 0 <= t < |tracks| ==> tracks[t] < |ids|
    ensures Give(ids, tracks[..i + 1], pids) == Give(ids, tracks[..i], pids)[tracks[i] := pids[i]]
  {
    assert tracks[..i + 1][..i] == tracks[..i];
  }

  lemma {:induction false} GiveAt(ids: seq<int>, tracks: seq<nat>, pids: seq<int>)
    requires |tracks| <= |pids| && (forall t :: 0 <= t < |tracks| ==> tracks[t] < |ids|) && Apart(tracks)
    ensures forall t :: 0 <= t < |tracks| ==> Give(ids, tracks, pids)[tracks[t]] == pids[t]
    ensures forall k :: 0 <= k < |ids| && k !in tracks ==> Give(ids, tracks, pids)[k] == ids[k]
  {
    if tracks != [] {
      var n := |tracks| - 1;
      GiveAt(ids, tracks[..n], pids);
      assert tracks == tracks[..n] + [tracks[n]];
    }
  }

  /** Requested ids are given out without clashing with anything. */
  lemma GiveApart(ids: seq<int>, tracks: seq<nat>, pids: seq<int>)
    requires |tracks| == |pids| && (forall t :: 0 <= t < |tracks| ==> tracks[t] < |ids|) && Apart(tracks)
    requires PidListOk(pids) && !Conflict(ids, tracks, pids) && IdsApart(ids)
    ensures IdsApart(Give(ids, tracks, pids))
  {
    GiveAt(ids, tracks, pids);
    var r := Give(ids, tracks, pids);
    forall i, j | 0 <= i < j < |r| && r[i] > 0 ensures r[i] != r[j] {
      if i in tracks && j in tracks { BothGiven(tracks, pids, r, i, j); }
      else if i in tracks { OneGiven(ids, tracks, pids, r, i, j); }
      else if j in tracks { OneGiven(ids, tracks, pids, r, j, i); }
    }
  }

  lemma BothGiven(tracks: seq<nat>, pids: seq<int>, r: seq<int>, i: nat, j: nat)
    requires |tracks| == |pids| && PidListOk(pids) && i in tracks && j in tracks && i != j
    requires forall t :: 0 <= t < |tracks| ==> tracks[t] < |r| && r[tracks[t]] == pids[t]
    ensures i < |r| && j < |r| && r[i] != r[j]
  {
    var a :| 0 <= a < |tracks| && tracks[a] == i;
    var b :| 0 <= b < |tracks| && tracks[b] == j;
  }

  lemma OneGiven(ids: seq<int>, tracks: seq<nat>, pids: seq<int>, r: seq<int>, i: nat, j: nat)
    requires |tracks| == |pids| && |r| == |ids| && PidListOk(pids) && !Conflict(ids, tracks, pids)
    requires i in tracks && j !in tracks && j < |ids| && r[j] == ids[j]
    requires forall t :: 0 <= t < |tracks| ==> tracks[t] < |r| && r[tracks[t]] == pids[t]
    ensures i < |r| && r[i] != r[j]
  {
    var a :| 0 <= a < |tracks| && tracks[a] == i;
    assert pids[a] in pids && PidInRange(pids[a]);
  }

  // ------------------------------------------------------------ soundness of a table

  ghost predicate Taken(ts: seq<Target>, k: int) { exists i :: 0 <= i < |ts| && ts[i].used && ts[i].stream == k }

  /** Every track has a stream of its own, a taken-over one or a fresh one. */
  ghost predicate Wired(nIn: nat, nOut: nat, ts: seq<Target>, tracks: seq<nat>) {
    && Apart(tracks)
    && (forall t :: 0 <= t < |tracks| ==> tracks[t] < nOut && (tracks[t] < nIn ==> Taken(ts, tracks[t])))
    && (forall i :: 0 <= i < |ts| && ts[i].used ==> ts[i].stream in tracks)
  }

  /** The targets as far as the packet loop needs them: each an input stream. */
  ghost predicate TargetsWired(o: Flags, nIn: nat, ts: seq<Target>) {
    (!o.overwrite ==> ts == []) && forall i :: 0 <= i < |ts| ==> ts[i].stream < nIn
  }

  // ------------------------------------------------------------ which track gets which stream

  /** How many of the tracks have a stream that was not in the input. */
  function Fresh(nIn: nat, tracks: seq<nat>): nat {
    if tracks == [] then 0
    else Fresh(nIn, tracks[..|tracks| - 1]) + if tracks[|tracks| - 1] >= nIn then 1 else 0
  }

  /** Input stream `k` is offered to this language and no track has it yet. */
  ghost predicate FreeStream(o: Flags, ins: seq<Input>, lang: Lang, before: seq<nat>, k: int) {
    Offered(o, ins, k) && ins[k].lang == Some(lang) && k !in before
  }

  ghost predicate NoneFree(o: Flags, ins: seq<Input>, lang: Lang, before: seq<nat>) {
    forall k :: !FreeStream(o, ins, lang, before, k)
  }

  /** Stream `k` is right for the next track: the first free one of its language, or else a
      new one behind all others. */
  ghost predicate Chosen(o: Flags, ins: seq<Input>, lang: Lang, before: seq<nat>, k: nat) {
    if NoneFree(o, ins, lang, before) then k == |ins| + Fresh(|ins|, before)
    else FreeStream(o, ins, lang, before, k) && forall j :: FreeStream(o, ins, lang, before, j) ==> k <= j
  }

  ghost predicate ChosenAt(o: Flags, ins: seq<Input>, langs: seq<Lang>, tracks: seq<nat>, n: nat) {
    n < |langs| && n < |tracks| && Chosen(o, ins, langs[n], tracks[..n], tracks[n])
  }

  /** The tracks so far, each with the right stream. */
  ghost predicate AllChosen(o: Flags, ins: seq<Input>, langs: seq<Lang>, tracks: seq<nat>) {
    |tracks| <= |langs| && forall n :: 0 <= n < |tracks| ==> ChosenAt(o, ins, langs, tracks, n)
  }

  lemma SameTargets(o: Flags, ins: seq<Input>, ts: seq<Target>, i: nat)
    requires TargetsAre(o, ins, ts) && i < |ts|
    ensures TargetsAre(o, ins, ts[i := ts[i].(used := true)])
  {
    var us := ts[i := ts[i].(used := true)];
    forall k ensures IsTarget(us, k) <==> IsTarget(ts, k) {
      if IsTarget(ts, k) { var j :| 0 <= j < |ts| && ts[j].stream == k; assert us[j].stream == k; }
      if IsTarget(us, k) { var j :| 0 <= j < |us| && us[j].stream == k; assert ts[j].stream == k; }
    }
  }

  lemma ChosenSnoc(o: Flags, ins: seq<Input>, langs: seq<Lang>, before: seq<nat>, k: nat)
    requires AllChosen(o, ins, langs, before) && |before| < |langs| && Chosen(o, ins, langs[|before|], before, k)
    ensures AllChosen(o, ins, langs, before + [k])
  {
    var now := before + [k];
    forall n | 0 <= n < |now| ensures ChosenAt(o, ins, langs, now, n) {
      if n < |before| {
        assert ChosenAt(o, ins, langs, before, n) && now[..n] == before[..n];
      } else { assert now[..n] == before; }
    }
  }

  /** A target is unused exactly when no track has its stream. */
  lemma UsedIff(nIn: nat, nOut: nat, ts: seq<Target>, tracks: seq<nat>, i: nat)
    requires Wired(nIn, nOut, ts, tracks) && ByStream(ts) && i < |ts| && ts[i].stream < nIn
    ensures ts[i].used <==> ts[i].stream in tracks
  {
    if ts[i].stream in tracks {
      assert Taken(ts, ts[i].stream);
      var j :| 0 <= j < |ts| && ts[j].used && ts[j].stream == ts[i].stream;
      assert j == i;
    }
  }

  lemma FreeIff(o: Flags, ins: seq<Input>, ids: seq<int>, ts: seq<Target>, tracks: seq<nat>, lang: Lang, i: nat)
    requires TargetsOk(o, ins, ids, ts) && TargetsAre(o, ins, ts) && Wired(|ins|, |ids|, ts, tracks) && i < |ts|
    ensures Free(ts[i], lang) <==> FreeStream(o, ins, lang, tracks, ts[i].stream)
  {
    assert TargetOk(o, ins, ids, ts[i]) && IsTarget(ts, ts[i].stream);
    UsedIff(|ins|, |ids|, ts, tracks, i);
  }

  lemma TakesFirst(o: Flags, ins: seq<Input>, ids: seq<int>, ts: seq<Target>, tracks: seq<nat>, lang: Lang, i: nat)
    requires TargetsOk(o, ins, ids, ts) && TargetsAre(o, ins, ts) && Wired(|ins|, |ids|, ts, tracks)
    requires i < |ts| && IsFirst(ts, lang, i)
    ensures Chosen(o, ins, lang, tracks, ts[i].stream)
  {
    FreeIff(o, ins, ids, ts, tracks, lang, i);
    forall j | FreeStream(o, ins, lang, tracks, j) ensures ts[i].stream <= j {
      assert IsTarget(ts, j);
      var m :| 0 <= m < |ts| && ts[m].stream == j;
      FreeIff(o, ins, ids, ts, tracks, lang, m);
    }
  }

  lemma NothingFree(o: Flags, ins: seq<Input>, ids: seq<int>, ts: seq<Target>, tracks: seq<nat>, lang: Lang)
    requires TargetsOk(o, ins, ids, ts) && TargetsAre(o, ins, ts) && Wired(|ins|, |ids|, ts, tracks)
    requires forall i :: 0 <= i < |ts| ==> !Free(ts[i], lang)
    ensures NoneFree(o, ins, lang, tracks)
  {
    forall j ensures !FreeStream(o, ins, lang, tracks, j) {
      if IsTarget(ts, j) {
        var m :| 0 <= m < |ts| && ts[m].stream == j;
        FreeIff(o, ins, ids, ts, tracks, lang, m);
      }
    }
  }

  // ------------------------------------------------------------ the ids of a table

  ghost predicate Numbered(o: Flags, ins: seq<Input>, ids: seq<int>, maxPid: int) {
    && (forall k :: 0 <= k < |ids| ==> IdOk(o, ins, ids, maxPid, k))
    && (DistinctInputs(ins) ==> IdsApart(ids))
    && maxPid >= (if o.preserve then RESERVED_PIDS else 0)
  }

  /** The id of stream `k` before any --pid: a taken-over stream has the id of its input, any
      other mirrored stream the one mirroring gave it, and new streams count up from `top`. */
  ghost function IdOf(o: Flags, ins: seq<Input>, top: int, tracks: seq<nat>, k: nat): int {
    if k < |ins| then if k in tracks && ins[k].id > 0 then ins[k].id else Mirrored(o, ins, k)
    else if o.preserve && !o.customPids then top + 1 + k - |ins| else 0
  }

  /** Every stream behind the mirrored ones belongs to a track, and all ids are as they should be. */
  ghost predicate IdsAre(o: Flags, ins: seq<Input>, top: int, tracks: seq<nat>, ids: seq<int>) {
    && |ids| == |ins| + Fresh(|ins|, tracks)
    && (forall k :: |ins| <= k < |ids| ==> k in tracks)
    && (forall k :: 0 <= k < |ids| ==> ids[k] == IdOf(o, ins, top, tracks, k))
  }

  /** The largest id given out so far. */
  ghost function LastId(o: Flags, nIn: nat, top: int, tracks: seq<nat>): int {
    top + if o.preserve && !o.customPids then Fresh(nIn, tracks) else 0
  }

  lemma FreshSnoc(nIn: nat, tracks: seq<nat>, k: nat)
    ensures Fresh(nIn, tracks + [k]) == Fresh(nIn, tracks) + if k >= nIn then 1 else 0
  {
    assert (tracks + [k])[..|tracks|] == tracks;
  }

  lemma IdsTaken(o: Flags, ins: seq<Input>, top: int, tracks: seq<nat>, ids: seq<int>, now: seq<int>, k: nat)
    requires IdsAre(o, ins, top, tracks, ids) && k < |ins|
    requires |now| == |ids| && now[k] == (if ins[k].id > 0 then ins[k].id else ids[k])
    requires k !in tracks && forall j :: 0 <= j < |ids| && j != k ==> now[j] == ids[j]
    ensures IdsAre(o, ins, top, tracks + [k], now)
    ensures LastId(o, |ins|, top, tracks + [k]) == LastId(o, |ins|, top, tracks)
  {
    FreshSnoc(|ins|, tracks, k);
    forall j | 0 <= j < |now| ensures now[j] == IdOf(o, ins, top, tracks + [k], j) {
      assert ids[j] == IdOf(o, ins, top, tracks, j);
    }
  }

  lemma IdsFresh(o: Flags, ins: seq<Input>, top: int, tracks: seq<nat>, ids: seq<int>, id: int)
    requires IdsAre(o, ins, top, tracks, ids)
    requires id == if o.preserve && !o.customPids then LastId(o, |ins|, top, tracks) + 1 else 0
    ensures IdsAre(o, ins, top, tracks + [|ids|], ids + [id])
    ensures LastId(o, |ins|, top, tracks + [|ids|]) == if o.preserve && !o.customPids then id else top
  {
    FreshSnoc(|ins|, tracks, |ids|);
    var now := ids + [id];
    forall j | 0 <= j < |now| ensures now[j] == IdOf(o, ins, top, tracks + [|ids|], j) {
      if j < |ids| { assert ids[j] == IdOf(o, ins, top, tracks, j); }
    }
  }

  lemma TakeOverWired(nIn: nat, nOut: nat, ts: seq<Target>, tracks: seq<nat>, i: nat)
    requires Wired(nIn, nOut, ts, tracks) && ByStream(ts) && i < |ts| && !ts[i].used && ts[i].stream < nIn <= nOut
    ensures Wired(nIn, nOut, ts[i := ts[i].(used := true)], tracks + [ts[i].stream])
  {
    var us := ts[i := ts[i].(used := true)];
    forall k | Taken(ts, k) ensures Taken(us, k) && k != ts[i].stream {
      var j :| 0 <= j < |ts| && ts[j].used && ts[j].stream == k;
      assert us[j].used && us[j].stream == k;
    }
    assert us[i].used;
    assert Taken(us, ts[i].stream);
    assert !Taken(ts, ts[i].stream);
  }

  lemma FreshWired(nIn: nat, nOut: nat, ts: seq<Target>, tracks: seq<nat>)
    requires Wired(nIn, nOut, ts, tracks) && nIn <= nOut
    ensures Wired(nIn, nOut + 1, ts, tracks) && Wired(nIn, nOut + 1, ts, tracks + [nOut])
  {
  }

  lemma TakeOverNumbered(o: Flags, ins: seq<Input>, ids: seq<int>, maxPid: int, t: Target)
    requires Numbered(o, ins, ids, maxPid) && TargetOk(o, ins, ids, t) && t.pid > 0
    ensures Numbered(o, ins, ids[t.stream := t.pid], maxPid)
  {
    var now := ids[t.stream := t.pid];
    if o.preserve { assert now == ids; } else {
      forall k | 0 <= k < |now| ensures IdOk(o, ins, now, maxPid, k) { assert IdOk(o, ins, ids, maxPid, k); }
      if DistinctInputs(ins) {
        forall i, j | 0 <= i < j < |now| && now[i] > 0 ensures now[i] != now[j] {
          assert IdOk(o, ins, now, maxPid, i) && IdOk(o, ins, now, maxPid, j);
        }
      }
    }
  }

  lemma FreshNumbered(o: Flags, ins: seq<Input>, ids: seq<int>, maxPid: int, id: int)
    requires Numbered(o, ins, ids, maxPid) && |ins| <= |ids|
    requires id == 0 || (o.preserve && id == maxPid + 1 <= MAX_PID)
    ensures Numbered(o, ins, ids + [id], Max(maxPid, id))
  {
    var now, top := ids + [id], Max(maxPid, id);
    forall k | 0 <= k < |now| ensures IdOk(o, ins, now, top, k) && (k < |ids| && id > 0 ==> now[k] < id) {
      if k < |ids| { assert IdOk(o, ins, ids, maxPid, k); }
    }
  }

  lemma TargetsKept(o: Flags, ins: seq<Input>, ids: seq<int>, now: seq<int>, ts: seq<Target>, i: nat)
    requires TargetsOk(o, ins, ids, ts) && i < |ts|
    requires |now| >= |ids| && (now[..|ids|] == ids || now == ids[ts[i].stream := ts[i].pid])
    ensures TargetsOk(o, ins, now, ts) && TargetsOk(o, ins, now, ts[i := ts[i].(used := true)])
  {
    var us := ts[i := ts[i].(used := true)];
    assert TargetOk(o, ins, ids, ts[i]);
    forall j | 0 <= j < |ts| ensures TargetOk(o, ins, now, ts[j]) && TargetOk(o, ins, now, us[j]) {
      assert TargetOk(o, ins, ids, ts[j]);
    }
  }

  // ------------------------------------------------------------ what a run starts with

  /** A requested id that a mirrored stream without a track already has. */
  ghost predicate Clash(o: Flags, ins: seq<Input>, tracks: seq<nat>, pids: seq<int>) {
    exists k :: 0 <= k < |ins| && k !in tracks && Mirrored(o, ins, k) > 0 && Mirrored(o, ins, k) in pids
  }

  /** The tracks have the requested ids, the other mirrored streams their own. */
  ghost predicate IdsGiven(o: Flags, ins: seq<Input>, tracks: seq<nat>, pids: seq<int>, ids: seq<int>) {
    && |tracks| == |pids| && |ins| <= |ids|
    && (forall t :: 0 <= t < |tracks| ==> tracks[t] < |ids| && ids[tracks[t]] == pids[t])
    && (forall k :: 0 <= k < |ins| && k !in tracks ==> ids[k] == Mirrored(o, ins, k))
  }

  /** Streams and ids without --pid: all tracks have theirs, or the next one would need an id
      past 8186. */
  ghost predicate DefaultsDone(o: Flags, ins: seq<Input>, langs: seq<Lang>, top: int,
                               tracks: seq<nat>, ids: seq<int>, ok: bool) {
    && AllChosen(o, ins, langs, tracks)
    && if ok
       then && |tracks| == |langs| && IdsAre(o, ins, top, tracks, ids)
            && (o.preserve && !o.customPids && Fresh(|ins|, tracks) > 0 ==> top + Fresh(|ins|, tracks) <= 8186)
       else && |tracks| < |langs| && NoneFree(o, ins, langs[|tracks|], tracks)
            && o.preserve && !o.customPids && top + Fresh(|ins|, tracks) >= 8186
  }

  /** With --pid: it succeeds exactly when there are tracks, the count fits and no other stream
      has one of the ids. */
  ghost predicate PidsDone(o: Flags, ins: seq<Input>, langs: seq<Lang>, pids: seq<int>,
                           tracks: seq<nat>, ids: seq<int>, ok: bool)
    requires PidListOk(pids)
  {
    && AllChosen(o, ins, langs, tracks) && |tracks| == |langs|
    && (ok <==> && tracks != [] && Assigned(pids, |tracks|).Some?
                && !Clash(o, ins, tracks, Assigned(pids, |tracks|).value))
    && (ok ==> IdsGiven(o, ins, tracks, Assigned(pids, |tracks|).value, ids))
  }

  lemma ConflictIsClash(o: Flags, ins: seq<Input>, top: int, tracks: seq<nat>, ids: seq<int>, pids: seq<int>)
    requires IdsAre(o, ins, top, tracks, ids)
    ensures Conflict(ids, tracks, pids) <==> Clash(o, ins, tracks, pids)
  {
    forall k | 0 <= k < |ins| && k !in tracks ensures ids[k] == Mirrored(o, ins, k) {
      assert ids[k] == IdOf(o, ins, top, tracks, k);
    }
  }

  lemma GivenIs(o: Flags, ins: seq<Input>, top: int, tracks: seq<nat>, ids: seq<int>, pids: seq<int>)
    requires IdsAre(o, ins, top, tracks, ids) && |tracks| == |pids| && Apart(tracks)
    requires forall t :: 0 <= t < |tracks| ==> tracks[t] < |ids|
    ensures IdsGiven(o, ins, tracks, pids, Give(ids, tracks, pids))
  {
    GiveAt(ids, tracks, pids);
    forall k | 0 <= k < |ins| && k !in tracks ensures ids[k] == Mirrored(o, ins, k) {
      assert ids[k] == IdOf(o, ins, top, tracks, k);
    }
  }

  lemma FreshInRange(o: Flags, ins: seq<Input>, top: int, maxPid: int, tracks: seq<nat>, ids: seq<int>)
    requires IsTop(o, ins, top) && IdsAre(o, ins, top, tracks, ids) && Numbered(o, ins, ids, maxPid)
    ensures o.preserve && !o.customPids && Fresh(|ins|, tracks) > 0 ==> top + Fresh(|ins|, tracks) <= 8186
  {
    if o.preserve && !o.customPids && Fresh(|ins|, tracks) > 0 {
      var k := |ids| - 1;
      assert ids[k] == IdOf(o, ins, top, tracks, k) && IdOk(o, ins, ids, maxPid, k);
    }
  }

  // ------------------------------------------------------------ the stream table

  class StreamTable {
    const opts: Flags
    const ins: seq<Input>
    var ids: seq<int>
    var targets: seq<Target>
    var maxPid: int
    var tracks: seq<nat>

    /** Which stream belongs to whom; requested PIDs do not touch it. */
    ghost predicate Wiring()
      reads this
    {
      |ins| <= |ids| && TargetsWired(opts, |ins|, targets) && Wired(|ins|, |ids|, targets, tracks)
    }

    /** The table while tracks are being added: wiring and numbering. */
    ghost predicate Valid()
      reads this
    {
      && Wiring() && TargetsOk(opts, ins, ids, targets) && TargetsAre(opts, ins, targets)
      && Numbered(opts, ins, ids, maxPid)
    }

    /** Every track so far has its stream and every stream its id, `top` being the largest mirrored. */
    ghost predicate InStep(top: int)
      reads this
    {
      IsTop(opts, ins, top) && IdsAre(opts, ins, top, tracks, ids) && maxPid == LastId(opts, |ins|, top, tracks)
    }

    constructor (o: Flags, inputs: seq<Input>)
      ensures Valid() && opts == o && ins == inputs && tracks == []
      ensures Mirror(ids, targets, maxPid) == MirrorAll(o, inputs) && InStep(maxPid)
    {
      opts, ins, tracks := o, inputs, [];
      ids, targets, maxPid := [], [], if o.preserve then RESERVED_PIDS else 0;
      new;
      var i := 0;
      while i < |inputs|
        invariant 0 <= i <= |inputs| && Mirror(ids, targets, maxPid) == MirrorAll(o, inputs[..i]) && tracks == []
      {
        assert inputs[..i + 1][..i] == inputs[..i];
        MirrorStream(inputs[i]);
        i := i + 1;
      }
      assert inputs[..i] == inputs;
      MirrorTargets(o, inputs);
      MirrorIds(o, inputs);
    }

    method MirrorStream(s: Input)
      modifies this
      ensures Mirror(ids, targets, maxPid) == MirrorOne(Mirror(old(ids), old(targets), old(maxPid)), opts, s)
      ensures tracks == old(tracks)
    {
      if opts.overwrite && |targets| < MAX_OVERWRITE_TARGETS && s.subtitle && s.lang.Some? {
        if !opts.allowed(s.lang.value) { ids := ids + [0]; return; }
        targets := targets + [Target(|ids|, s.id, s.lang.value, false)];
      }
      if opts.preserve && s.id > 0 {
        ids := ids + [s.id];
        if s.id > maxPid { maxPid := s.id; }
      } else { ids := ids + [0]; }
    }

    /** find_overwrite_target: the first unused target of the language. */
    method FindTarget(lang: Lang) returns (found: Option<nat>)
      requires Valid()
      ensures found.Some? ==> found.value < |targets| && IsFirst(targets, lang, found.value)
      ensures found.None? ==> forall i :: 0 <= i < |targets| ==> !Free(targets[i], lang)
    {
      if !opts.overwrite { return None; }
      var i := 0;
      while i < |targets|
        invariant 0 <= i <= |targets| && forall j :: 0 <= j < i ==> !Free(targets[j], lang)
      {
        if !targets[i].used && targets[i].lang == lang { return Some(i); }
        i := i + 1;
      }
      found := None;
    }

    /** is_overwrite_stream: the packet loop drops exactly the streams that were taken over. */
    method IsOverwriteStream(k: int) returns (drop: bool)
      requires Wiring()
      ensures drop <==> 0 <= k < |ins| && k in tracks
    {
      TakenIff(k);
      drop := false;
      if !opts.overwrite { return; }
      var i := 0;
      while i < |targets|
        invariant 0 <= i <= |targets| && forall j :: 0 <= j < i ==> !(targets[j].used && targets[j].stream == k)
      {
        if targets[i].used && targets[i].stream == k { return true; }
        i := i + 1;
      }
    }

    lemma TakenIff(k: int)
      requires Wiring()
      ensures Taken(targets, k) <==> 0 <= k < |ins| && k in tracks
    {
      if Taken(targets, k) { var i :| 0 <= i < |targets| && targets[i].used && targets[i].stream == k; }
    }

    /** The track just added has the right stream; or it was refused because it would need an
        id past 8186. */
    ghost predicate TrackAdded(lang: Lang, top: int, before: seq<nat>, ok: bool)
      reads this
    {
      if ok
      then && InStep(top) && |tracks| == |before| + 1 && tracks[..|before|] == before
           && Chosen(opts, ins, lang, before, tracks[|before|])
      else && tracks == before && NoneFree(opts, ins, lang, before)
           && opts.preserve && !opts.customPids && top + Fresh(|ins|, before) >= 8186
    }

    /** ctx_parse_tracks: the new track takes over the first unused target of its language
        together with its id, or gets a fresh stream, whose id is one above every id so far. */
    method AddTrack(lang: Lang, ghost top: int) returns (ok: bool)
      requires Valid()
      modifies this
      ensures Valid()
      ensures forall i ::
                0 <= i < |old(targets)| && IsFirst(old(targets), lang, i) ==>
                  ok && TookOver(old(targets), old(ids), old(tracks), i)
      ensures (forall i :: 0 <= i < |old(targets)| ==> !IsFirst(old(targets), lang, i)) ==>
                Added(old(targets), old(ids), old(maxPid), old(tracks), ok)
      ensures old(InStep(top)) ==> TrackAdded(lang, top, old(tracks), ok)
    {
      var found := FindTarget(lang);
      if found.Some? {
        TakeFirst(lang, found.value, top);
        ok := true;
      } else {
        ok := AddNew(lang, top);
      }
    }

    method TakeFirst(ghost lang: Lang, i: nat, ghost top: int)
      requires Valid() && i < |targets| && IsFirst(targets, lang, i)
      modifies this
      ensures Valid() && TookOver(old(targets), old(ids), old(tracks), i)
      ensures old(InStep(top)) ==> TrackAdded(lang, top, old(tracks), true)
    {
      ghost var was, before, inStep := ids, tracks, InStep(top);
      ghost var k := targets[i].stream;
      assert TargetOk(opts, ins, ids, targets[i]);
      UsedIff(|ins|, |ids|, targets, tracks, i);
      TakesFirst(opts, ins, ids, targets, tracks, lang, i);
      TakeOver(i);
      if inStep { IdsTaken(opts, ins, top, before, was, ids, k); }
    }

    method AddNew(ghost lang: Lang, ghost top: int) returns (ok: bool)
      requires Valid() && forall i :: 0 <= i < |targets| ==> !Free(targets[i], lang)
      modifies this
      ensures Valid() && Added(old(targets), old(ids), old(maxPid), old(tracks), ok)
      ensures old(InStep(top)) ==> TrackAdded(lang, top, old(tracks), ok)
    {
      ghost var was, before, inStep := ids, tracks, InStep(top);
      NothingFree(opts, ins, ids, targets, tracks, lang);
      ok := AddFresh();
      if inStep && ok { IdsFresh(opts, ins, top, before, was, ids[|was|]); }
    }

    ghost predicate TookOver(ts: seq<Target>, was: seq<int>, before: seq<nat>, i: nat)
      reads this
      requires i < |ts|
    {
      && targets == ts[i := ts[i].(used := true)] && tracks == before + [ts[i].stream]
      && |ids| == |was|
      && (forall k ::
            0 <= k < |ids| ==> ids[k] == if k == ts[i].stream && ts[i].pid > 0 then ts[i].pid else was[k])
    }

    ghost predicate Added(ts: seq<Target>, was: seq<int>, max: int, before: seq<nat>, ok: bool)
      reads this
    {
      && targets == ts && (ok <==> !(opts.preserve && !opts.customPids && max >= MAX_PID))
      && tracks == before + (if ok then [|was|] else [])
      && ids == was + [if ok && opts.preserve && !opts.customPids then max + 1 else 0]
    }

    method TakeOver(i: nat)
      requires Valid() && i < |targets| && !targets[i].used
      modifies this
      ensures Valid() && TookOver(old(targets), old(ids), old(tracks), i) && maxPid == old(maxPid)
    {
      assert TargetOk(opts, ins, ids, targets[i]);
      SameTargets(opts, ins, targets, i);
      var s, pid := targets[i].stream, targets[i].pid;
      TakeOverWired(|ins|, |ids|, targets, tracks, i);
      TargetsKept(opts, ins, ids, if pid > 0 then ids[s := pid] else ids, targets, i);
      if pid > 0 { TakeOverNumbered(opts, ins, ids, maxPid, targets[i]); }
      targets := targets[i := targets[i].(used := true)];
      tracks := tracks + [s];
      if pid > 0 { ids := ids[s := pid]; }
    }

    method AddFresh() returns (ok: bool)
      requires Valid()
      modifies this
      ensures Valid() && Added(old(targets), old(ids), old(maxPid), old(tracks), ok)
      ensures maxPid == if ok && opts.preserve && !opts.customPids then old(maxPid) + 1 else old(maxPid)
    {
      var s, id := |ids|, 0;
      ok := true;
      if opts.preserve && !opts.customPids {
        var base := maxPid;
        if base < RESERVED_PIDS { base := RESERVED_PIDS; }
        if base + 1 > MAX_PID { ok := false; } else { id := base + 1; }
      }
      FreshWired(|ins|, |ids|, targets, tracks);
      FreshNumbered(opts, ins, ids, maxPid, id);
      FreshTargets(id);
      ids := ids + [id];
      if id > 0 { maxPid := id; }
      if ok { tracks := tracks + [s]; }
    }

    lemma FreshTargets(id: int)
      requires Valid()
      ensures TargetsOk(opts, ins, ids + [id], targets)
    {
      forall j | 0 <= j < |targets| ensures TargetOk(opts, ins, ids + [id], targets[j]) {
        assert TargetOk(opts, ins, ids, targets[j]);
      }
    }

    /** The scan for a stream without a track that already has one of the ids. */
    method FindConflict(pids: seq<int>) returns (conflict: bool)
      ensures conflict <==> Conflict(ids, tracks, pids)
    {
      var i := 0;
      while i < |ids|
        invariant 0 <= i <= |ids| && forall k :: 0 <= k < i ==> !(k !in tracks && ids[k] > 0 && ids[k] in pids)
      {
        if i !in tracks && ids[i] > 0 && ids[i] in pids { return true; }
        i := i + 1;
      }
      conflict := false;
    }

    /** The assignment loop. */
    method GiveAll(pids: seq<int>)
      requires Wiring() && |pids| == |tracks|
      modifies this`ids
      ensures ids == Give(old(ids), tracks, pids)
    {
      var i := 0;
      assert tracks[..0] == [];
      while i < |tracks|
        invariant 0 <= i <= |tracks| && |ids| == |old(ids)| && ids == Give(old(ids), tracks[..i], pids)
      {
        GiveNext(old(ids), tracks, pids, i);
        ids := ids[tracks[i] := pids[i]];
        i := i + 1;
      }
      assert tracks[..i] == tracks;
    }

    /** apply_custom_pids with an accepted list: 0 exactly when the count fits and no other
        stream has one of the ids; then every track gets its own id; otherwise nothing changes. */
    method ApplyCustomPids(pids: seq<int>) returns (code: int)
      requires Wiring() && PidListOk(pids)
      modifies this`ids
      ensures Wiring()
      ensures code == 0 <==> tracks != [] && Assigned(pids, |tracks|).Some?
                             && !Conflict(old(ids), tracks, Assigned(pids, |tracks|).value)
      ensures code != 0 ==> ids == old(ids)
      ensures code == 0 ==> ids == Give(old(ids), tracks, Assigned(pids, |tracks|).value)
      ensures old(IdsApart(ids)) ==> IdsApart(ids)
    {
      if tracks == [] { return -1; }
      var chosen := Assigned(pids, |tracks|);
      if chosen.None? { return 1; }
      var conflict := FindConflict(chosen.value);
      if conflict { return 1; }
      ghost var was := ids;
      GiveAll(chosen.value);
      if IdsApart(was) { GiveApart(was, tracks, chosen.value); }
      code := 0;
    }
  }
}
