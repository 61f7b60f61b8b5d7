/** Overlap correction of a cue list (src/srt_parser.c:1107-1127, 1390-1408) and the
    duration and gap statistics taken over it (1410-1422, 1473-1482). */
module Overlap {
  import opened Utf8

  datatype Entry = Entry(start: int, end: int, text: seq<byte>, alignment: int)

  /** The new cue as it is stored behind the cues before it. */
  function Settle(before: seq<Entry>, e: Entry): Entry {
    if before != [] && e.start < before[|before| - 1].end then
      var start := before[|before| - 1].end;
      e.(start := start, end := if start > e.end then start + 1 else e.end)
    else e
  }

  function Correct(es: seq<Entry>): (r: seq<Entry>)
    ensures |r| == |es|
  {
    if es == [] then [] else var before := Correct(es[..|es| - 1]); before + [Settle(before, es[|es| - 1])]
  }

  /** What the parsers accept: every cue ends after it starts. */
  predicate Forward(es: seq<Entry>) { forall i :: 0 <= i < |es| ==> es[i].start < es[i].end }

  /** Each cue starts no earlier than its predecessor ends. */
  predicate Disjoint(es: seq<Entry>) { forall i :: 0 < i < |es| ==> es[i - 1].end <= es[i].start }

  function MaxEnd(es: seq<Entry>): int
    requires es != []
  {
    var e := es[|es| - 1].end;
    if |es| == 1 then e else var m := MaxEnd(es[..|es| - 1]); if m > e then m else e
  }

  /** Cue i of the result against cue i of the source. */
  ghost predicate SettledAt(es: seq<Entry>, r: seq<Entry>, i: nat)
    requires i < |es| == |r|
  {
    && r[i].start <= r[i].end
    && r[i].start == (if i > 0 && es[i].start < r[i - 1].end then r[i - 1].end else es[i].start)
    && (r[i].end == es[i].end || (es[i].end < r[i].start && r[i].end == r[i].start + 1))
    && es[i].start <= r[i].start && es[i].end <= r[i].end <= MaxEnd(es[..i + 1]) + i
    && r[i].text == es[i].text && r[i].alignment == es[i].alignment
    && (r[i].start == r[i].end <==> i > 0 && es[i].start < r[i - 1].end == es[i].end)
  }

  /** The corrected list is in order and disjoint, nothing moves earlier, ends grow by at
      most one millisecond per cue over the largest end so far, and a cue is left without
      length exactly when it overlapped and ended where its predecessor does. */
  lemma {:induction false} CorrectSettles(es: seq<Entry>)
    requires Forward(es)
    ensures forall i :: 0 <= i < |es| ==> SettledAt(es, Correct(es), i)
  {
    if es != [] {
      var k := |es| - 1;
      var init, before := es[..k], Correct(es[..k]);
      CorrectSettles(init);
      forall i | 0 <= i < |es| ensures SettledAt(es, Correct(es), i) {
        if i < k {
          assert SettledAt(init, before, i);
          assert init[..i + 1] == es[..i + 1];
        } else {
          assert es[..k + 1] == es;
          if k > 0 { assert SettledAt(init, before, k - 1) && init[..k] == init; }
        }
      }
    }
  }

  /** Correction changes nothing exactly on disjoint lists; so correcting twice is
      correcting once, and the result is disjoint. */
  lemma {:induction false} CorrectFixed(es: seq<Entry>)
    ensures Correct(es) == es <==> Disjoint(es)
    ensures Disjoint(Correct(es)) && Correct(Correct(es)) == Correct(es)
  {
    CorrectDisjoint(es);
    DisjointFixed(Correct(es));
    if Disjoint(es) { DisjointFixed(es); }
  }

  lemma {:induction false} CorrectDisjoint(es: seq<Entry>)
    ensures Disjoint(Correct(es))
  {
    if es != [] { CorrectDisjoint(es[..|es| - 1]); }
  }

  lemma {:induction false} DisjointFixed(es: seq<Entry>)
    requires Disjoint(es)
    ensures Correct(es) == es
  {
    if es != [] {
      DisjointFixed(es[..|es| - 1]);
      assert es == es[..|es| - 1] + [es[|es| - 1]];
    }
  }

  // ------------------------------------------------------------ statistics

  const INT64_MAX := 0x7FFF_FFFF_FFFF_FFFF

  function Durations(es: seq<Entry>): (d: seq<int>)
    ensures |d| == |es|
  {
    seq(|es|, i requires 0 <= i < |es| => es[i].end - es[i].start)
  }

  function Gaps(es: seq<Entry>): (g: seq<int>)
    ensures |g| == if es == [] then 0 else |es| - 1
  {
    seq(if es == [] then 0 else |es| - 1, i requires 0 <= i < |es| - 1 => es[i + 1].start - es[i].end)
  }

  function Least(xs: seq<int>, x0: int): int {
    if xs == [] then x0 else var m := Least(xs[..|xs| - 1], x0); if xs[|xs| - 1] < m then xs[|xs| - 1] else m
  }

  function Greatest(xs: seq<int>, x0: int): int {
    if xs == [] then x0 else var m := Greatest(xs[..|xs| - 1], x0); if xs[|xs| - 1] > m then xs[|xs| - 1] else m
  }

  function Sum(xs: seq<int>): int {
    if xs == [] then 0 else Sum(xs[..|xs| - 1]) + xs[|xs| - 1]
  }

  /** Durations and gaps together fill the time from the first start to the last end. */
  lemma {:induction false} FillTheTime(es: seq<Entry>)
    requires es != []
    ensures Sum(Durations(es)) + Sum(Gaps(es)) == es[|es| - 1].end - es[0].start
  {
    var n := |es| - 1;
    assert Durations(es)[..n] == Durations(es[..n]) && Durations(es)[n] == es[n].end - es[n].start;
    if n == 0 { assert Durations(es[..0]) == [] && Gaps(es) == []; } else {
      assert Gaps(es)[..n - 1] == Gaps(es[..n]) && Gaps(es)[n - 1] == es[n].start - es[n - 1].end;
      FillTheTime(es[..n]);
    }
  }

  /** The running minimum and maximum bound every value, and are values of the list unless
      the start value wins. */
  lemma {:induction false} Bounds(xs: seq<int>, lo: int, hi: int)
    ensures forall i :: 0 <= i < |xs| ==> Least(xs, lo) <= xs[i] <= Greatest(xs, hi)
    ensures Least(xs, lo) <= lo && hi <= Greatest(xs, hi)
    ensures Least(xs, lo) == lo || Least(xs, lo) in xs
    ensures Greatest(xs, hi) == hi || Greatest(xs, hi) in xs
  {
    if xs != [] {
      Bounds(xs[..|xs| - 1], lo, hi);
      assert xs == xs[..|xs| - 1] + [xs[|xs| - 1]];
    }
  }

  lemma {:induction false} SumBounds(xs: seq<int>, lo: int, hi: int)
    requires forall i :: 0 <= i < |xs| ==> lo <= xs[i] <= hi
    ensures |xs| * lo <= Sum(xs) <= |xs| * hi
  {
    if xs != [] {
      var m := |xs| - 1;
      SumBounds(xs[..m], lo, hi);
      assert |xs| * lo == m * lo + lo && |xs| * hi == m * hi + hi;
    }
  }

  lemma QuotientBounds(total: int, n: nat, lo: int, hi: int)
    requires n > 0 && n * lo <= total <= n * hi
    ensures lo <= total / n <= hi
  {
    var q := total / n;
    assert n * q <= total < n * (q + 1);
    TimesGrows(n, q + 1, lo);
    TimesGrows(n, hi + 1, q);
  }

  lemma TimesGrows(n: nat, a: int, b: int)
    ensures a <= b ==> n * a <= n * b
  {
    if a <= b { assert n * b == n * a + n * (b - a); }
  }

  /** On a corrected list the average lies between the extremes and, although max_gap and
      max_duration start at 0, each is a real gap or duration as soon as there is one. */
  lemma StatisticsBound(es: seq<Entry>)
    requires Forward(es) && es != []
    ensures var r := Correct(es); var d, g := Durations(r), Gaps(r);
            && Least(d, INT64_MAX) <= Sum(d) / |es| <= Greatest(d, 0)
            && Greatest(d, 0) in d && (g != [] ==> Greatest(g, 0) in g)
            && (forall i :: 0 <= i < |d| ==> 0 <= Least(d, INT64_MAX) <= d[i] <= Greatest(d, 0))
            && (forall i :: 0 <= i < |g| ==> 0 <= Least(g, INT64_MAX) <= g[i] <= Greatest(g, 0))
  {
    var r := Correct(es);
    var d, g := Durations(r), Gaps(r);
    CorrectSettles(es);
    forall i | 0 <= i < |d| ensures d[i] >= 0 { assert SettledAt(es, r, i); }
    NonNegative(d);
    forall i | 0 <= i < |g| ensures g[i] >= 0 { assert SettledAt(es, r, i + 1); }
    NonNegative(g);
    SumBounds(d, Least(d, INT64_MAX), Greatest(d, 0));
    QuotientBounds(Sum(d), |d|, Least(d, INT64_MAX), Greatest(d, 0));
  }

  lemma NonNegative(xs: seq<int>)
    requires forall i :: 0 <= i < |xs| ==> xs[i] >= 0
    ensures forall i :: 0 <= i < |xs| ==> 0 <= Least(xs, INT64_MAX) <= xs[i] <= Greatest(xs, 0)
    ensures xs != [] ==> Greatest(xs, 0) in xs
  {
    Bounds(xs, INT64_MAX, 0);
    if xs != [] && Greatest(xs, 0) == 0 { assert xs[0] == 0; }
  }
}
