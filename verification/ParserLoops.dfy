/** parse_srt_internal and parse_srt_with_stats as loops over the file. */
module ParserLoops {
  import opened Common
  import opened Utf8
  import opened Tags
  import opened WrapLoops
  import opened Overlap
  import opened SrtParser

  method ReadText(file: seq<seq<byte>>) returns (text: seq<byte>, left: seq<seq<byte>>)
    ensures (text, left) == TextBlock(file, [])
  {
    text, left := [], file;
    while left != []
      invariant TextBlock(left, text) == TextBlock(file, [])
      decreases |left|
    {
      var line := TrimEnd(left[0]);
      left := left[1..];
      if line == [] { return; }
      if |text| + |line| + 2 < TEXT_BUFFER { text := text + line + [NL]; }
    }
  }

  method ReadCue(stamp: Option<Stamp>, file: seq<seq<byte>>) returns (o: Outcome, left: seq<seq<byte>>)
    ensures (o, left) == CueAt(stamp, file)
  {
    if stamp.None? { return Rejected, file; }
    var t := stamp.value;
    if t.m1 < 0 || t.m1 > 59 || t.s1 < 0 || t.s1 > 59 || t.ms1 < 0 || t.ms1 > 999 ||
       t.m2 < 0 || t.m2 > 59 || t.s2 < 0 || t.s2 > 59 || t.ms2 < 0 || t.ms2 > 999 { return Rejected, file; }
    if EndMs(t) <= StartMs(t) { return Rejected, file; }
    var text;
    text, left := ReadText(file);
    o := Accepted(StartMs(t), EndMs(t), text);
  }

  method ReadTurn(file: seq<seq<byte>>, sc: Scanner, fallback: bool) returns (o: Outcome, left: seq<seq<byte>>)
    requires file != []
    ensures (o, left) == Turn(file, sc, fallback)
  {
    var line := TrimEnd(file[0]);
    left := file[1..];
    if line == [] { return Quiet, left; }
    line := StripBom(line);
    if sc.index(line) {
      if left == [] { return Quiet, left; }
      line := TrimEnd(left[0]);
      left := left[1..];
      assert left == file[2..];
    }
    o, left := ReadCue(Stamped(sc, fallback, line), left);
  }

  method ReadOneTurn(file: seq<seq<byte>>, sc: Scanner, stats: bool) returns (o: Outcome, left: seq<seq<byte>>)
    requires file != []
    ensures (o, left) == OneTurn(file, sc, stats)
  {
    o, left := ReadTurn(file, sc, stats);
    if stats && o.Accepted? && o.text == [] { o := Rejected; }
  }

  method FindAlignment(s: seq<byte>) returns (a: int)
    ensures a == Alignment(s)
  {
    var rest := s;
    while rest != []
      invariant Alignment(rest) == Alignment(s)
    {
      if AlignTagAt(rest) {
        if |rest| >= 5 && 49 <= rest[4] <= 57 { return rest[4] - 48; }
        return 2;
      }
      rest := rest[1..];
    }
    a := 2;
  }

  method MakeEntry(o: Outcome, cfg: Config, stats: bool) returns (e: Entry)
    requires o.Accepted?
    ensures e == EntryOf(o, cfg, stats)
  {
    var text := o.text;
    if stats && cfg.fixEncoding {
      var work, errors := SanitizeInPlace(text);
      text := work[..];
    }
    if cfg.useAss { text := ReplaceEscapes(text); } else {
      text := NormalizeCueText(text, IsHd(cfg));
      text := RemoveEscapes(text);
      text := TrimEnd(text);
    }
    var align := FindAlignment(o.text);
    e := Entry(o.start, o.end, text, align);
  }

  /** Store the cue and correct its overlap with the one before. */
  method Store(es: seq<Entry>, e: Entry) returns (r: seq<Entry>, moved: bool)
    ensures r == es + [Settle(es, e)] && moved == (Settle(es, e) != e)
  {
    r, moved := es + [e], false;
    var n := |es|;
    if n > 0 && r[n].start < r[n - 1].end {
      r := r[n := r[n].(start := r[n - 1].end)];
      if r[n].start > r[n].end { r := r[n := r[n].(end := r[n].start + 1)]; }
      moved := true;
    }
    assert r == es + [r[n]];
  }

  lemma {:induction false} EntriesAppend(a: seq<Outcome>, b: seq<Outcome>, cfg: Config, stats: bool)
    ensures EntriesOf(a + b, cfg, stats) == EntriesOf(a, cfg, stats) + EntriesOf(b, cfg, stats)
  {
    if a == [] { assert a + b == b; } else {
      assert (a + b)[1..] == a[1..] + b;
      EntriesAppend(a[1..], b, cfg, stats);
    }
  }

  lemma EntriesSnoc(os: seq<Outcome>, o: Outcome, cfg: Config, stats: bool)
    ensures EntriesOf(os + Noted(o), cfg, stats) == EntriesOf(os, cfg, stats) + Gained(o, cfg, stats)
  {
    EntriesAppend(os, Noted(o), cfg, stats);
    if !o.Quiet? { assert [o][1..] == []; }
  }

  lemma OutcomesStep(os: seq<Outcome>, rest: seq<seq<byte>>, sc: Scanner, stats: bool)
    requires rest != []
    ensures var (o, left) := OneTurn(rest, sc, stats);
            os + Noted(o) + Outcomes(left, sc, stats) == os + Outcomes(rest, sc, stats)
  {
  }

  /** Where a parser stands: the outcomes of the turns taken and those still in the file,
      and the entries accepted so far. */
  ghost predicate Reading(all: seq<Outcome>, os: seq<Outcome>, rest: seq<seq<byte>>, raw: seq<Entry>,
                          sc: Scanner, cfg: Config, stats: bool) {
    os + Outcomes(rest, sc, stats) == all && raw == EntriesOf(os, cfg, stats)
  }

  lemma ReadOn(all: seq<Outcome>, os: seq<Outcome>, rest: seq<seq<byte>>, raw: seq<Entry>,
               sc: Scanner, cfg: Config, stats: bool)
    requires Reading(all, os, rest, raw, sc, cfg, stats) && rest != []
    ensures var (o, left) := OneTurn(rest, sc, stats);
            Reading(all, os + Noted(o), left, raw + Gained(o, cfg, stats), sc, cfg, stats)
  {
    OutcomesStep(os, rest, sc, stats);
    EntriesSnoc(os, OneTurn(rest, sc, stats).0, cfg, stats);
  }

  lemma ReadAll(file: seq<seq<byte>>, os: seq<Outcome>, raw: seq<Entry>, sc: Scanner, cfg: Config, stats: bool)
    requires Reading(Outcomes(file, sc, stats), os, [], raw, sc, cfg, stats)
    ensures os == Outcomes(file, sc, stats) && Correct(raw) == Parsed(file, sc, cfg, stats)
  {
    assert os + [] == os;
  }

  method GainEntry(o: Outcome, cfg: Config, stats: bool) returns (gained: seq<Entry>)
    ensures gained == Gained(o, cfg, stats) && |gained| <= 1
  {
    gained := [];
    if o.Accepted? {
      var e := MakeEntry(o, cfg, stats);
      gained := [e];
    }
  }

  lemma CorrectSnoc(es: seq<Entry>, e: Entry)
    ensures Correct(es + [e]) == Correct(es) + [Settle(Correct(es), e)]
  {
    assert (es + [e])[..|es|] == es;
  }

  method Keep(entries: seq<Entry>, gained: seq<Entry>, ghost raw: seq<Entry>) returns (es: seq<Entry>, moved: bool)
    requires |gained| <= 1 && entries == Correct(raw)
    ensures es == Correct(raw + gained) && |es| == |entries| + |gained| && es[..|entries|] == entries
    ensures moved == (gained != [] && es[|es| - 1] != gained[0])
  {
    es, moved := entries, false;
    if gained == [] { assert raw + gained == raw; } else {
      es, moved := Store(entries, gained[0]);
      CorrectSnoc(raw, gained[0]);
      assert gained == [gained[0]];
    }
  }

  method ParseInternal(file: seq<seq<byte>>, sc: Scanner, cfg: Config) returns (entries: seq<Entry>)
    ensures entries == Parsed(file, sc, cfg, false)
  {
    entries := [];
    var rest := file;
    ghost var raw: seq<Entry>, os: seq<Outcome>, all := [], [], Outcomes(file, sc, false);
    while rest != []
      invariant Reading(all, os, rest, raw, sc, cfg, false) && entries == Correct(raw)
      decreases |rest|
    {
      ReadOn(all, os, rest, raw, sc, cfg, false);
      var o;
      o, rest := ReadOneTurn(rest, sc, false);
      var gained := GainEntry(o, cfg, false);
      var moved;
      entries, moved := Keep(entries, gained, raw);
      os, raw := os + Noted(o), raw + gained;
    }
    ReadAll(file, os, raw, sc, cfg, false);
  }

  // ------------------------------------------------------------ statistics

  datatype Stats = Stats(total: nat, valid: nat, skipped: nat, overlaps: nat,
                         minDuration: int, maxDuration: int, minGap: int, maxGap: int)

  /** How many positions of two lists differ. */
  function Differences(a: seq<Entry>, b: seq<Entry>): nat
    requires |a| == |b|
  {
    if a == [] then 0
    else Differences(a[..|a| - 1], b[..|b| - 1]) + if a[|a| - 1] == b[|b| - 1] then 0 else 1
  }

  /** That is the number of cues the correction moved. */
  lemma {:induction false} DifferencesCount(a: seq<Entry>, b: seq<Entry>)
    requires |a| == |b|
    ensures Differences(a, b) == |set i: nat | i < |a| && a[i] != b[i]|
  {
    var moved := set i: nat | i < |a| && a[i] != b[i];
    if a == [] { assert moved == {}; } else {
      var n := |a| - 1;
      var before := set i: nat | i < |a[..n]| && a[..n][i] != b[..n][i];
      DifferencesCount(a[..n], b[..n]);
      assert moved == before + if a[n] != b[n] then {n} else {};
    }
  }

  /** The statistics over the outcomes so far, the accepted cues and their corrected form. */
  ghost predicate StatsOf(st: Stats, turns: nat, raw: seq<Entry>, es: seq<Entry>) {
    && |raw| == |es| == st.valid && st.total == turns == st.valid + st.skipped
    && st.overlaps == Differences(raw, es)
    && st.minDuration == Least(Durations(es), INT64_MAX) && st.maxDuration == Greatest(Durations(es), 0)
    && st.minGap == Least(Gaps(es), INT64_MAX) && st.maxGap == Greatest(Gaps(es), 0)
  }

  /** The running extremes after one more value. */
  method Stretch(lo: int, hi: int, x: int, ghost xs: seq<int>) returns (lo': int, hi': int)
    requires lo == Least(xs, INT64_MAX) && hi == Greatest(xs, 0)
    ensures lo' == Least(xs + [x], INT64_MAX) && hi' == Greatest(xs + [x], 0)
  {
    lo', hi' := lo, hi;
    if x < lo { lo' := x; }
    if x > hi { hi' := x; }
    assert (xs + [x])[..|xs|] == xs;
  }

  /** The counters after one more stored cue. */
  method CountCue(st: Stats, moved: bool, es: seq<Entry>, ghost turns: nat, ghost raw: seq<Entry>, ghost e: Entry)
    returns (r: Stats)
    requires es != [] && |raw| == |es| - 1 && moved == (es[|es| - 1] != e)
    requires StatsOf(st, turns, raw, es[..|es| - 1])
    ensures StatsOf(r, turns + 1, raw + [e], es)
  {
    var n := |es| - 1;
    LastCue(es);
    var minD, maxD := Stretch(st.minDuration, st.maxDuration, es[n].end - es[n].start, Durations(es[..n]));
    var minG, maxG := st.minGap, st.maxGap;
    if n > 0 { minG, maxG := Stretch(minG, maxG, es[n].start - es[n - 1].end, Gaps(es[..n])); }
    r := Stats(st.total + 1, st.valid + 1, st.skipped, st.overlaps + (if moved then 1 else 0), minD, maxD, minG, maxG);
    assert (raw + [e])[..n] == raw;
  }

  /** The last cue adds the last duration and the last gap. */
  lemma LastCue(es: seq<Entry>)
    requires es != []
    ensures var n := |es| - 1;
            && Durations(es) == Durations(es[..n]) + [es[n].end - es[n].start]
            && Gaps(es) == if n == 0 then Gaps(es[..n]) else Gaps(es[..n]) + [es[n].start - es[n - 1].end]
  {
  }

  method Average(es: seq<Entry>) returns (avg: int)
    requires es != [] && forall i :: 0 <= i < |es| ==> es[i].start <= es[i].end
    ensures avg == Sum(Durations(es)) / |es|
  {
    var total, i := 0, 0;
    while i < |es|
      invariant 0 <= i <= |es| && total == Sum(Durations(es)[..i])
    {
      assert Durations(es)[..i + 1][..i] == Durations(es)[..i];
      total, i := total + es[i].end - es[i].start, i + 1;
    }
    assert Durations(es)[..i] == Durations(es);
    avg := total / |es|;
  }

  /** The main loop of parse_srt_with_stats. */
  method CollectStats(file: seq<seq<byte>>, sc: Scanner, cfg: Config)
    returns (entries: seq<Entry>, stats: Stats)
    ensures entries == Parsed(file, sc, cfg, true)
    ensures StatsOf(stats, |Outcomes(file, sc, true)|, EntriesOf(Outcomes(file, sc, true), cfg, true), entries)
  {
    entries, stats := [], Stats(0, 0, 0, 0, INT64_MAX, 0, INT64_MAX, 0);
    var rest := file;
    ghost var raw: seq<Entry>, os: seq<Outcome>, all := [], [], Outcomes(file, sc, true);
    while rest != []
      invariant Reading(all, os, rest, raw, sc, cfg, true)
      invariant entries == Correct(raw) && StatsOf(stats, |os|, raw, entries)
      decreases |rest|
    {
      ReadOn(all, os, rest, raw, sc, cfg, true);
      var o;
      o, rest := ReadOneTurn(rest, sc, true);
      var gained := GainEntry(o, cfg, true);
      entries, stats := Count(entries, stats, gained, o.Quiet?, |os|, raw);
      os, raw := os + Noted(o), raw + gained;
    }
    ReadAll(file, os, raw, sc, cfg, true);
  }

  method ParseWithStats(file: seq<seq<byte>>, sc: Scanner, cfg: Config)
    returns (entries: seq<Entry>, stats: Stats, avg: int)
    ensures entries == Parsed(file, sc, cfg, true)
    ensures StatsOf(stats, |Outcomes(file, sc, true)|, EntriesOf(Outcomes(file, sc, true), cfg, true), entries)
    ensures entries != [] ==>
              && stats.minDuration <= avg <= stats.maxDuration && avg == Sum(Durations(entries)) / |entries|
              && DurationRange(entries, stats.minDuration, stats.maxDuration)
              && GapRange(entries, stats.minGap, stats.maxGap)
  {
    entries, stats := CollectStats(file, sc, cfg);
    avg := 0;
    if entries != [] {
      StatsSound(file, EntriesOf(Outcomes(file, sc, true), cfg, true), sc, cfg);
      avg := Average(entries);
    }
  }

  function Lasts(es: seq<Entry>, i: nat): int
    requires i < |es|
  {
    es[i].end - es[i].start
  }

  function GapBefore(es: seq<Entry>, i: nat): int
    requires 0 < i < |es|
  {
    es[i].start - es[i - 1].end
  }

  /** Every cue lasts between the two extremes, the larger of which is attained. */
  ghost predicate DurationRange(es: seq<Entry>, min: int, max: int) {
    && (forall i :: 0 <= i < |es| ==> min <= Lasts(es, i) <= max)
    && exists i :: 0 <= i < |es| && Lasts(es, i) == max
  }

  ghost predicate GapRange(es: seq<Entry>, min: int, max: int) {
    && (forall i :: 0 < i < |es| ==> min <= GapBefore(es, i) <= max)
    && (|es| > 1 ==> exists i :: 0 < i < |es| && GapBefore(es, i) == max)
  }

  lemma RangesOf(es: seq<Entry>)
    requires es != [] && Greatest(Durations(es), 0) in Durations(es)
    requires Gaps(es) != [] ==> Greatest(Gaps(es), 0) in Gaps(es)
    ensures DurationRange(es, Least(Durations(es), INT64_MAX), Greatest(Durations(es), 0))
    ensures GapRange(es, Least(Gaps(es), INT64_MAX), Greatest(Gaps(es), 0))
  {
    var d, g := Durations(es), Gaps(es);
    Bounds(d, INT64_MAX, 0);
    Bounds(g, INT64_MAX, 0);
    forall i | 0 <= i < |es| ensures Lasts(es, i) == d[i] { }
    forall i | 0 < i < |es| ensures GapBefore(es, i) == g[i - 1] { }
    var k :| 0 <= k < |d| && d[k] == Greatest(d, 0);
    assert Lasts(es, k) == Greatest(d, 0);
    if g != [] {
      var m :| 0 <= m < |g| && g[m] == Greatest(g, 0);
      assert GapBefore(es, m + 1) == Greatest(g, 0);
    }
  }

  /** What the statistics say of the list the parser returns; its average lies between them. */
  lemma StatsSound(file: seq<seq<byte>>, raw: seq<Entry>, sc: Scanner, cfg: Config)
    requires raw != [] && raw == EntriesOf(Outcomes(file, sc, true), cfg, true)
    ensures forall i :: 0 <= i < |Correct(raw)| ==> Correct(raw)[i].start <= Correct(raw)[i].end
    ensures var es := Correct(raw); var d, g := Durations(es), Gaps(es);
            && Least(d, INT64_MAX) <= Sum(d) / |raw| <= Greatest(d, 0)
            && DurationRange(es, Least(d, INT64_MAX), Greatest(d, 0))
            && GapRange(es, Least(g, INT64_MAX), Greatest(g, 0))
  {
    OutcomesTimed(file, sc, true);
    EntriesForward(Outcomes(file, sc, true), cfg, true);
    StatisticsBound(raw);
    ParsedInOrder(file, sc, cfg, true);
    RangesOf(Correct(raw));
  }

  /** One turn: a quiet one counts nowhere, a rejected cue is skipped, an accepted one stored. */
  method Count(entries: seq<Entry>, stats: Stats, gained: seq<Entry>, quiet: bool,
               ghost turns: nat, ghost raw: seq<Entry>)
    returns (es: seq<Entry>, st: Stats)
    requires |gained| <= 1 && (quiet ==> gained == []) && entries == Correct(raw) && StatsOf(stats, turns, raw, entries)
    ensures es == Correct(raw + gained) && StatsOf(st, turns + (if quiet then 0 else 1), raw + gained, es)
  {
    var moved;
    es, moved := Keep(entries, gained, raw);
    st := stats;
    if gained != [] {
      assert gained == [gained[0]];
      st := CountCue(stats, moved, es, turns, raw, gained[0]);
    } else {
      assert raw + gained == raw && es == entries;
      if !quiet { st := stats.(total := stats.total + 1, skipped := stats.skipped + 1); }
    }
  }
}
