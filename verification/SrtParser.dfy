/** The two SRT parsers of src/srt_parser.c (985-1181 and 1201-1493).  A file is the
    sequence of its fgets chunks; the sscanf conversions are parameters. */
module SrtParser {
  import opened Common
  import opened Utf8
  import opened Tags
  import opened Wrap
  import opened Overlap

  const TEXT_BUFFER := 8192

  datatype Stamp = Stamp(h1: int, m1: int, s1: int, ms1: int, h2: int, m2: int, s2: int, ms2: int)

  /** The line scanners: does "%d" match, the standard timestamp form, the fallback forms. */
  datatype Scanner = Scanner(index: seq<byte> -> bool,
                             standard: seq<byte> -> Option<Stamp>, fallback: seq<byte> -> Option<Stamp>)

  datatype Config = Config(useAss: bool, width: int, height: int, fixEncoding: bool)

  predicate InRange(t: Stamp) {
    && 0 <= t.m1 <= 59 && 0 <= t.s1 <= 59 && 0 <= t.ms1 <= 999
    && 0 <= t.m2 <= 59 && 0 <= t.s2 <= 59 && 0 <= t.ms2 <= 999
  }

  function StartMs(t: Stamp): int { (t.h1 * 3600 + t.m1 * 60 + t.s1) * 1000 + t.ms1 }
  function EndMs(t: Stamp): int { (t.h2 * 3600 + t.m2 * 60 + t.s2) * 1000 + t.ms2 }

  /** A time in milliseconds is the one a clock spells this way. */
  predicate Spells(ms: int, h: int, m: int, s: int, milli: int) {
    ms / 3_600_000 == h && ms / 60_000 % 60 == m && ms / 1000 % 60 == s && ms % 1000 == milli
  }

  lemma ClockSpells(h: int, m: int, s: int, milli: int)
    requires 0 <= m < 60 && 0 <= s < 60 && 0 <= milli < 1000
    ensures Spells((h * 3600 + m * 60 + s) * 1000 + milli, h, m, s, milli)
  {
    var x := h * 60 + m;
    var y := x * 60 + s;
    assert (y * 1000 + milli) / 60_000 == x;
  }

  /** The times of a stamp in range are its own fields, hours and all. */
  lemma StampFields(t: Stamp)
    requires InRange(t)
    ensures Spells(StartMs(t), t.h1, t.m1, t.s1, t.ms1) && Spells(EndMs(t), t.h2, t.m2, t.s2, t.ms2)
  {
    ClockSpells(t.h1, t.m1, t.s1, t.ms1);
    ClockSpells(t.h2, t.m2, t.s2, t.ms2);
  }

  function StripBom(l: seq<byte>): seq<byte> {
    if |l| >= 3 && l[0] == 0xEF && l[1] == 0xBB && l[2] == 0xBF then l[3..] else l
  }

  /** A byte order mark goes, and nothing else does. */
  lemma BomStripped(l: seq<byte>)
    ensures StripBom([0xEF, 0xBB, 0xBF] + l) == l
    ensures !([0xEF, 0xBB, 0xBF] <= l) ==> StripBom(l) == l
  {
    if |l| >= 3 && l[0] == 0xEF && l[1] == 0xBB && l[2] == 0xBF { assert l[..3] == [0xEF, 0xBB, 0xBF]; }
  }

  /** The text lines of a cue, up to a blank line; a line that no longer fits is skipped. */
  function TextBlock(file: seq<seq<byte>>, buf: seq<byte>): (r: (seq<byte>, seq<seq<byte>>))
    ensures |r.1| <= |file|
    decreases |file|
  {
    if file == [] then (buf, [])
    else
      var l := Rstrip(file[0]);
      if l == [] then (buf, file[1..])
      else TextBlock(file[1..], if |buf| + |l| + 2 < TEXT_BUFFER then buf + l + [NL] else buf)
  }

  /** What one turn of the main loop meets. */
  datatype Outcome = Quiet | Rejected | Accepted(start: int, end: int, text: seq<byte>)

  function Stamped(sc: Scanner, fallback: bool, l: seq<byte>): Option<Stamp> {
    if sc.standard(l).Some? || !fallback then sc.standard(l) else sc.fallback(l)
  }

  /** The cue behind a timestamp line. */
  function CueAt(stamp: Option<Stamp>, file: seq<seq<byte>>): (r: (Outcome, seq<seq<byte>>))
    ensures |r.1| <= |file| && !r.0.Quiet?
  {
    if stamp.None? || !InRange(stamp.value) || EndMs(stamp.value) <= StartMs(stamp.value) then (Rejected, file)
    else
      var (text, left) := TextBlock(file, []);
      (Accepted(StartMs(stamp.value), EndMs(stamp.value), text), left)
  }

  /** A stamp makes a cue exactly when minutes, seconds and milliseconds are in range on both
      sides and it ends later than it starts; hours may be anything.  Behind a rejected stamp
      the next turn goes on with the very next line. */
  lemma CueIff(t: Stamp, file: seq<seq<byte>>)
    ensures CueAt(Some(t), file).0.Accepted? <==>
            && 0 <= t.m1 < 60 && 0 <= t.s1 < 60 && 0 <= t.ms1 < 1000
            && 0 <= t.m2 < 60 && 0 <= t.s2 < 60 && 0 <= t.ms2 < 1000
            && 3_600_000 * t.h1 + 60_000 * t.m1 + 1000 * t.s1 + t.ms1
               < 3_600_000 * t.h2 + 60_000 * t.m2 + 1000 * t.s2 + t.ms2
    ensures !CueAt(Some(t), file).0.Accepted? ==> CueAt(Some(t), file) == (Rejected, file)
  {
  }

  /** One turn: an optional index line, a timestamp line, the text. */
  function Turn(file: seq<seq<byte>>, sc: Scanner, fallback: bool): (r: (Outcome, seq<seq<byte>>))
    requires file != []
    ensures |r.1| < |file|
  {
    var l := Rstrip(file[0]);
    if l == [] then (Quiet, file[1..])
    else if !sc.index(StripBom(l)) then CueAt(Stamped(sc, fallback, StripBom(l)), file[1..])
    else if |file| == 1 then (Quiet, [])
    else CueAt(Stamped(sc, fallback, Rstrip(file[1])), file[2..])
  }

  /** parse_srt_with_stats also rejects a cue without text. */
  function StatsTurn(file: seq<seq<byte>>, sc: Scanner): (r: (Outcome, seq<seq<byte>>))
    requires file != []
    ensures |r.1| < |file|
  {
    var (o, left) := Turn(file, sc, true);
    (if o.Accepted? && o.text == [] then Rejected else o, left)
  }

  /** A turn of either parser. */
  function OneTurn(file: seq<seq<byte>>, sc: Scanner, stats: bool): (r: (Outcome, seq<seq<byte>>))
    requires file != []
    ensures |r.1| < |file|
  {
    if stats then StatsTurn(file, sc) else Turn(file, sc, false)
  }

  function Noted(o: Outcome): seq<Outcome> { if o.Quiet? then [] else [o] }

  /** The outcomes of a whole file, for either parser. */
  function Outcomes(file: seq<seq<byte>>, sc: Scanner, stats: bool): seq<Outcome>
    decreases |file|
  {
    if file == [] then []
    else var (o, left) := OneTurn(file, sc, stats); Noted(o) + Outcomes(left, sc, stats)
  }

  predicate AlignTagAt(s: seq<byte>) { |s| >= 4 && s[0] == LBRACE && s[1] == BACKSLASH && s[2] == 97 && s[3] == 110 }

  /** The `{\an` digit of the first such tag, 2 without one. */
  function Alignment(s: seq<byte>): (a: int)
    ensures 1 <= a <= 9
  {
    if s == [] then 2
    else if AlignTagAt(s) then (if |s| >= 5 && 49 <= s[4] <= 57 then s[4] - 48 else 2)
    else Alignment(s[1..])
  }

  /** It is the digit of the first `{\an` tag, or 2 without such a tag or digit. */
  lemma {:induction false} AlignmentIs(s: seq<byte>, k: nat)
    requires k <= |s| && (k < |s| ==> AlignTagAt(s[k..])) && forall i :: 0 <= i < k ==> !AlignTagAt(s[i..])
    ensures Alignment(s) == if k + 4 < |s| && 49 <= s[k + 4] <= 57 then s[k + 4] - 48 else 2
  {
    if k == 0 { assert s[0..] == s; } else {
      assert !AlignTagAt(s[0..]) && s[0..] == s && s[1..][k - 1..] == s[k..];
      forall i | 0 <= i < k - 1 ensures !AlignTagAt(s[1..][i..]) { assert s[1..][i..] == s[i + 1..]; }
      AlignmentIs(s[1..], k - 1);
    }
  }

  predicate IsHd(cfg: Config) { cfg.width > 720 || cfg.height > 576 }

  function TextFor(text: seq<byte>, cfg: Config): seq<byte> {
    if cfg.useAss then ReplaceH(text) else Rstrip(RemoveH(Normalize(text, IsHd(cfg))))
  }

  /** What each mode makes of `\h`: for libass the first one becomes a space and no line is
      laid out; otherwise the text is laid out to 67 or 37 characters by the frame size, and
      then the first one goes. */
  lemma TextByMode(text: seq<byte>, cfg: Config, a: seq<byte>, b: seq<byte>)
    requires NoEscape(a)
    ensures cfg.useAss && text == a + ([92, 104] + b) ==> TextFor(text, cfg) == a + ([32] + ReplaceH(b))
    ensures cfg.useAss && text == a ==> TextFor(text, cfg) == a
    ensures var hd := cfg.width > 720 || cfg.height > 576;
            !cfg.useAss ==>
              && LayoutOk(Wrapped(text, hd), if hd then 67 else 37)
              && (Wrapped(text, hd).out == a + ([92, 104] + b) ==> TextFor(text, cfg) == Rstrip(a + RemoveH(b)))
              && (Wrapped(text, hd).out == a ==> TextFor(text, cfg) == Rstrip(a))
  {
    EditsFirst(a, b);
    EditsIdle(a);
    WrapFits(text, IsHd(cfg));
  }

  /** The entry an accepted cue becomes, before overlap correction. */
  function EntryOf(o: Outcome, cfg: Config, stats: bool): Entry
    requires o.Accepted?
  {
    var text := if stats && cfg.fixEncoding then Sanitize(o.text) else o.text;
    Entry(o.start, o.end, TextFor(text, cfg), Alignment(o.text))
  }

  /** What one turn adds to the accepted entries. */
  function Gained(o: Outcome, cfg: Config, stats: bool): (r: seq<Entry>)
    ensures |r| <= 1
  {
    if o.Accepted? then [EntryOf(o, cfg, stats)] else []
  }

  function EntriesOf(os: seq<Outcome>, cfg: Config, stats: bool): seq<Entry> {
    if os == [] then [] else Gained(os[0], cfg, stats) + EntriesOf(os[1..], cfg, stats)
  }

  function Parsed(file: seq<seq<byte>>, sc: Scanner, cfg: Config, stats: bool): seq<Entry> {
    Correct(EntriesOf(Outcomes(file, sc, stats), cfg, stats))
  }

  // ------------------------------------------------------------ laws

  /** Every accepted cue ends after it starts. */
  ghost predicate Timed(os: seq<Outcome>) { forall o :: o in os && o.Accepted? ==> o.start < o.end }

  lemma {:induction false} OutcomesTimed(file: seq<seq<byte>>, sc: Scanner, stats: bool)
    ensures Timed(Outcomes(file, sc, stats))
    decreases |file|
  {
    if file != [] {
      OutcomesTimed(OneTurn(file, sc, stats).1, sc, stats);
    }
  }

  lemma {:induction false} EntriesForward(os: seq<Outcome>, cfg: Config, stats: bool)
    requires Timed(os)
    ensures Forward(EntriesOf(os, cfg, stats))
  {
    if os != [] {
      forall o | o in os[1..] && o.Accepted? ensures o.start < o.end { assert o in os; }
      EntriesForward(os[1..], cfg, stats);
      assert os[0] in os;
    }
  }

  /** What either parser returns starts in order, is disjoint, and never ends before it starts. */
  lemma ParsedInOrder(file: seq<seq<byte>>, sc: Scanner, cfg: Config, stats: bool)
    ensures Disjoint(Parsed(file, sc, cfg, stats))
    ensures forall i :: 0 <= i < |Parsed(file, sc, cfg, stats)| ==>
                          Parsed(file, sc, cfg, stats)[i].start <= Parsed(file, sc, cfg, stats)[i].end
  {
    var es := EntriesOf(Outcomes(file, sc, stats), cfg, stats);
    OutcomesTimed(file, sc, stats);
    EntriesForward(Outcomes(file, sc, stats), cfg, stats);
    CorrectFixed(es);
    CorrectSettles(es);
    forall i | 0 <= i < |es| ensures Correct(es)[i].start <= Correct(es)[i].end {
      assert SettledAt(es, Correct(es), i);
    }
  }

  predicate NoFallback(sc: Scanner, l: seq<byte>) { sc.standard(l).None? ==> sc.fallback(l).None? }

  /** No line of the file is a timestamp only in a fallback form. */
  ghost predicate StandardOnly(file: seq<seq<byte>>, sc: Scanner) {
    forall l :: l in file ==> NoFallback(sc, Rstrip(l)) && NoFallback(sc, StripBom(Rstrip(l)))
  }

  /** Every accepted cue has text and, where it would be repaired, structurally valid text. */
  ghost predicate CleanText(os: seq<Outcome>, repair: bool) {
    forall o :: o in os && o.Accepted? ==> o.text != [] && (repair ==> Valid(o.text))
  }

  lemma {:induction false} TextBlockSubset(file: seq<seq<byte>>, buf: seq<byte>)
    ensures forall l :: l in TextBlock(file, buf).1 ==> l in file
    decreases |file|
  {
    if file != [] {
      var l := Rstrip(file[0]);
      TextBlockSubset(file[1..], if |buf| + |l| + 2 < TEXT_BUFFER then buf + l + [NL] else buf);
    }
  }

  lemma TurnSubset(file: seq<seq<byte>>, sc: Scanner)
    requires file != []
    ensures forall l :: l in Turn(file, sc, false).1 ==> l in file
  {
    TextBlockSubset(file[1..], []);
    if |file| > 1 { TextBlockSubset(file[2..], []); }
  }

  lemma TurnsAgree(file: seq<seq<byte>>, sc: Scanner)
    requires file != [] && StandardOnly(file, sc)
    ensures Turn(file, sc, true) == Turn(file, sc, false) && StandardOnly(Turn(file, sc, false).1, sc)
  {
    assert file[0] in file;
    if |file| > 1 { assert file[1] in file; }
    TurnSubset(file, sc);
  }

  lemma {:induction false} OutcomesAgree(file: seq<seq<byte>>, sc: Scanner, repair: bool)
    requires StandardOnly(file, sc) && CleanText(Outcomes(file, sc, false), repair)
    ensures Outcomes(file, sc, true) == Outcomes(file, sc, false)
    decreases |file|
  {
    if file != [] {
      TurnsAgree(file, sc);
      var (o, left) := Turn(file, sc, false);
      var os := Outcomes(file, sc, false);
      assert os == Noted(o) + Outcomes(left, sc, false);
      assert o.Accepted? ==> o in os;
      forall x | x in Outcomes(left, sc, false) ensures x in os { }
      OutcomesAgree(left, sc, repair);
    }
  }

  lemma {:induction false} EntriesAgree(os: seq<Outcome>, cfg: Config)
    requires CleanText(os, cfg.fixEncoding)
    ensures EntriesOf(os, cfg, true) == EntriesOf(os, cfg, false)
  {
    if os != [] {
      assert os[0] in os;
      forall o | o in os[1..] ensures o in os { }
      EntriesAgree(os[1..], cfg);
      if os[0].Accepted? { SanitizeFixed(os[0].text); }
    }
  }

  /** Lockstep: where no line needs a fallback form and every accepted cue has clean text,
      the two parsers return the same list. */
  lemma Lockstep(file: seq<seq<byte>>, sc: Scanner, cfg: Config)
    requires StandardOnly(file, sc) && CleanText(Outcomes(file, sc, false), cfg.fixEncoding)
    ensures Parsed(file, sc, cfg, true) == Parsed(file, sc, cfg, false)
  {
    OutcomesAgree(file, sc, cfg.fixEncoding);
    EntriesAgree(Outcomes(file, sc, false), cfg);
  }

  // ------------------------------------------------------------ files that were written as such

  /** A cue as an SRT file spells it: index line, which may be missing, timestamp line, text lines. */
  datatype Block = Block(index: Option<seq<byte>>, stamp: seq<byte>, lines: seq<seq<byte>>)

  function HeadOf(b: Block): seq<seq<byte>> { if b.index.Some? then [b.index.value, b.stamp] else [b.stamp] }

  /** The lines of a file of blocks, a blank line behind each. */
  function FileOf(bs: seq<Block>): seq<seq<byte>> {
    if bs == [] then [] else HeadOf(bs[0]) + (bs[0].lines + ([[]] + FileOf(bs[1..])))
  }

  function Joined(lines: seq<seq<byte>>): seq<byte> {
    if lines == [] then [] else Rstrip(lines[0]) + [NL] + Joined(lines[1..])
  }

  predicate Proper(t: Stamp) { InRange(t) && StartMs(t) < EndMs(t) }

  /** The line with a block's stamp as the scanners see it: a byte order mark may come first
      only where there is no index line. */
  function StampLine(b: Block): seq<byte> {
    if b.index.Some? then Rstrip(b.stamp) else StripBom(Rstrip(b.stamp))
  }

  /** The stamp of a block: in the standard form or, for parse_srt_with_stats only, a fallback form. */
  function StampOf(b: Block, sc: Scanner, stats: bool): Option<Stamp> {
    match sc.standard(StampLine(b))
    case Some(t) => Some(t)
    case None => if stats then sc.fallback(StampLine(b)) else None
  }

  /** An index line the scanner takes, or a stamp it does not take for one. */
  ghost predicate IndexOk(b: Block, sc: Scanner) {
    match b.index
    case Some(l) => Rstrip(l) != [] && sc.index(StripBom(Rstrip(l)))
    case None => Rstrip(b.stamp) != [] && !sc.index(StampLine(b))
  }

  /** An index or none, a proper timestamp, text without blank lines that fits the buffer. */
  ghost predicate BlockOk(b: Block, sc: Scanner, stats: bool) {
    && IndexOk(b, sc) && StampOf(b, sc, stats).Some? && Proper(StampOf(b, sc, stats).value)
    && b.lines != [] && (forall i :: 0 <= i < |b.lines| ==> Rstrip(b.lines[i]) != [])
    && |Joined(b.lines)| + 1 < 8192
  }

  /** What a block says: from when to when, and which text. */
  ghost predicate CueOf(b: Block, sc: Scanner, stats: bool, o: Outcome) {
    && StampOf(b, sc, stats).Some? && o.Accepted? && o.text == Joined(b.lines)
    && var t := StampOf(b, sc, stats).value;
       && o.start == StartMs(t) && Spells(o.start, t.h1, t.m1, t.s1, t.ms1)
       && o.end == EndMs(t) && Spells(o.end, t.h2, t.m2, t.s2, t.ms2)
  }

  lemma {:induction false} ReadsLines(lines: seq<seq<byte>>, rest: seq<seq<byte>>, buf: seq<byte>)
    requires (forall i :: 0 <= i < |lines| ==> Rstrip(lines[i]) != []) && |buf| + |Joined(lines)| + 1 < TEXT_BUFFER
    ensures TextBlock(lines + ([[]] + rest), buf) == (buf + Joined(lines), rest)
    decreases |lines|
  {
    var file := lines + ([[]] + rest);
    if lines == [] {
      assert file[0] == [] && file[1..] == rest && buf + [] == buf;
    } else {
      var l := Rstrip(lines[0]);
      assert file[0] == lines[0] && file[1..] == lines[1..] + ([[]] + rest);
      ReadsLines(lines[1..], rest, buf + l + [NL]);
      assert buf + l + [NL] + Joined(lines[1..]) == buf + (l + [NL] + Joined(lines[1..]));
    }
  }

  /** The end of the file ends a cue as a blank line does. */
  lemma {:induction false} ReadsToEnd(lines: seq<seq<byte>>, buf: seq<byte>)
    requires (forall i :: 0 <= i < |lines| ==> Rstrip(lines[i]) != []) && |buf| + |Joined(lines)| + 1 < 8192
    ensures TextBlock(lines, buf) == (buf + Joined(lines), [])
    decreases |lines|
  {
    if lines == [] { assert buf + [] == buf; } else {
      var l := Rstrip(lines[0]);
      ReadsToEnd(lines[1..], buf + l + [NL]);
      assert buf + l + [NL] + Joined(lines[1..]) == buf + (l + [NL] + Joined(lines[1..]));
    }
  }

  /** A line that no longer fits the buffer is left out, and reading goes on behind it. */
  lemma LongLineSkipped(l: seq<byte>, rest: seq<seq<byte>>, buf: seq<byte>)
    requires Rstrip(l) != [] && |buf| + |Rstrip(l)| + 2 >= 8192
    ensures TextBlock([l] + rest, buf) == TextBlock(rest, buf)
  {
    assert ([l] + rest)[1..] == rest;
  }

  lemma ReadsBlock(b: Block, rest: seq<seq<byte>>, sc: Scanner, stats: bool)
    requires BlockOk(b, sc, stats)
    ensures var (o, left) := OneTurn(HeadOf(b) + (b.lines + ([[]] + rest)), sc, stats);
            CueOf(b, sc, stats, o) && left == rest
  {
    var head, file := HeadOf(b), HeadOf(b) + (b.lines + ([[]] + rest));
    assert file[0] == head[0] && file[|head| - 1] == b.stamp && file[|head|..] == b.lines + ([[]] + rest);
    ReadsLines(b.lines, rest, []);
    assert [] + Joined(b.lines) == Joined(b.lines) != [];
    StampFields(StampOf(b, sc, stats).value);
  }

  /** A cue without text is a cue to the first parser and none to the second. */
  lemma EmptyCue(b: Block, rest: seq<seq<byte>>, sc: Scanner, stats: bool)
    requires IndexOk(b, sc) && StampOf(b, sc, stats).Some? && Proper(StampOf(b, sc, stats).value)
    ensures var (o, left) := OneTurn(HeadOf(b) + ([[]] + rest), sc, stats);
            left == rest && if stats then o == Rejected else o.Accepted? && o.text == []
  {
    var head, file := HeadOf(b), HeadOf(b) + ([[]] + rest);
    assert file[0] == head[0] && file[|head| - 1] == b.stamp && file[|head|..] == [[]] + rest;
    assert ([[]] + rest)[0] == [] && ([[]] + rest)[1..] == rest;
  }

  /** Reading back: a file of well-formed blocks yields exactly its cues, in order, from
      either parser, with the times its stamps spell. */
  lemma {:induction false} ReadsBack(bs: seq<Block>, sc: Scanner, stats: bool)
    requires forall i :: 0 <= i < |bs| ==> BlockOk(bs[i], sc, stats)
    ensures |Outcomes(FileOf(bs), sc, stats)| == |bs|
    ensures forall i :: 0 <= i < |bs| ==> CueOf(bs[i], sc, stats, Outcomes(FileOf(bs), sc, stats)[i])
  {
    if bs != [] {
      ReadsBlock(bs[0], FileOf(bs[1..]), sc, stats);
      ReadsBack(bs[1..], sc, stats);
      var o := OneTurn(FileOf(bs), sc, stats).0;
      assert Outcomes(FileOf(bs), sc, stats) == [o] + Outcomes(FileOf(bs[1..]), sc, stats);
    }
  }

  /** An entry that a block stands for. */
  ghost predicate EntryIs(b: Block, sc: Scanner, cfg: Config, stats: bool, e: Entry) {
    && StampOf(b, sc, stats).Some? && e.alignment == Alignment(Joined(b.lines))
    && e.text == TextFor(if stats && cfg.fixEncoding then Sanitize(Joined(b.lines)) else Joined(b.lines), cfg)
    && var t := StampOf(b, sc, stats).value;
       Spells(e.start, t.h1, t.m1, t.s1, t.ms1) && Spells(e.end, t.h2, t.m2, t.s2, t.ms2)
  }

  lemma {:induction false} EntriesAt(os: seq<Outcome>, cfg: Config, stats: bool)
    requires forall i :: 0 <= i < |os| ==> os[i].Accepted?
    ensures |EntriesOf(os, cfg, stats)| == |os|
    ensures forall i :: 0 <= i < |os| ==> EntriesOf(os, cfg, stats)[i] == EntryOf(os[i], cfg, stats)
  {
    if os != [] { EntriesAt(os[1..], cfg, stats); }
  }

  /** Block `b` starts no earlier than block `a` ends. */
  ghost predicate After(a: Block, b: Block, sc: Scanner, stats: bool) {
    && StampOf(a, sc, stats).Some? && StampOf(b, sc, stats).Some?
    && EndMs(StampOf(a, sc, stats).value) <= StartMs(StampOf(b, sc, stats).value)
  }

  lemma EntryBack(b: Block, sc: Scanner, cfg: Config, stats: bool, o: Outcome)
    requires CueOf(b, sc, stats, o)
    ensures EntryIs(b, sc, cfg, stats, EntryOf(o, cfg, stats))
    ensures EntryOf(o, cfg, stats).start == StartMs(StampOf(b, sc, stats).value)
    ensures EntryOf(o, cfg, stats).end == EndMs(StampOf(b, sc, stats).value)
  {
  }

  lemma EntriesBack(bs: seq<Block>, sc: Scanner, cfg: Config, stats: bool, os: seq<Outcome>, es: seq<Entry>)
    requires |bs| == |os| == |es| && forall i :: 0 <= i < |bs| ==> CueOf(bs[i], sc, stats, os[i])
    requires forall i :: 0 <= i < |bs| ==> os[i].Accepted? && es[i] == EntryOf(os[i], cfg, stats)
    requires forall i :: 0 < i < |bs| ==> After(bs[i - 1], bs[i], sc, stats)
    ensures Disjoint(es) && forall i :: 0 <= i < |bs| ==> EntryIs(bs[i], sc, cfg, stats, es[i])
  {
    forall i | 0 <= i < |bs| ensures EntryIs(bs[i], sc, cfg, stats, es[i]) { EntryBack(bs[i], sc, cfg, stats, os[i]); }
    forall i | 0 < i < |bs| ensures es[i - 1].end <= es[i].start {
      EntryBack(bs[i - 1], sc, cfg, stats, os[i - 1]);
      EntryBack(bs[i], sc, cfg, stats, os[i]);
      assert After(bs[i - 1], bs[i], sc, stats);
    }
  }

  lemma OutcomesBack(bs: seq<Block>, sc: Scanner, cfg: Config, stats: bool, os: seq<Outcome>)
    requires |os| == |bs| && forall i :: 0 <= i < |bs| ==> CueOf(bs[i], sc, stats, os[i])
    requires forall i :: 0 < i < |bs| ==> After(bs[i - 1], bs[i], sc, stats)
    ensures var es := Correct(EntriesOf(os, cfg, stats));
            |es| == |bs| && forall i :: 0 <= i < |bs| ==> EntryIs(bs[i], sc, cfg, stats, es[i])
  {
    forall i | 0 <= i < |bs| ensures os[i].Accepted? { assert CueOf(bs[i], sc, stats, os[i]); }
    EntriesAt(os, cfg, stats);
    EntriesBack(bs, sc, cfg, stats, os, EntriesOf(os, cfg, stats));
    CorrectFixed(EntriesOf(os, cfg, stats));
  }

  /** And if no cue starts before the one in front of it has ended, those are the entries the
      parser returns. */
  lemma ParsesBack(bs: seq<Block>, sc: Scanner, cfg: Config, stats: bool)
    requires forall i :: 0 <= i < |bs| ==> BlockOk(bs[i], sc, stats)
    requires forall i :: 0 < i < |bs| ==> After(bs[i - 1], bs[i], sc, stats)
    ensures var es := Parsed(FileOf(bs), sc, cfg, stats);
            |es| == |bs| && forall i :: 0 <= i < |bs| ==> EntryIs(bs[i], sc, cfg, stats, es[i])
  {
    ReadsBack(bs, sc, stats);
    OutcomesBack(bs, sc, cfg, stats, Outcomes(FileOf(bs), sc, stats));
  }
}
