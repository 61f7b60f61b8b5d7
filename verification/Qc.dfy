/** The line and character count of qc_check_entry (src/qc.c:191-218).  The walk steps
    by the lead byte alone, so it trusts its text. */
module Qc {
  import opened Common
  import opened Utf8
  import opened Tags
  import opened Wrap
  import opened SrtParser

  function Stride(b: byte): (n: nat)
    ensures 1 <= n <= 4
  {
    if Announced(b) > 0 then Announced(b) else 1
  }

  /** Every step of the walk lands inside the text or on its terminator. */
  predicate WalkFits(s: seq<byte>) {
    s != [] ==> Stride(s[0]) <= |s| && WalkFits(s[Stride(s[0])..])
  }

  lemma {:induction false} ValidFits(s: seq<byte>)
    requires Valid(s)
    ensures WalkFits(s)
  {
    if s != [] { ValidFits(s[Unit(s)..]); }
  }

  /** The walk comes to stand at byte `b`. */
  predicate Visits(s: seq<byte>, b: nat) {
    b == 0 || (s != [] && Stride(s[0]) <= |s| && Stride(s[0]) <= b && Visits(s[Stride(s[0])..], b - Stride(s[0])))
  }

  ghost predicate LandsFrom(s: seq<byte>, b: nat)
    requires b < |s|
  {
    Visits(s, b) ==> b + Stride(s[b]) <= |s|
  }

  /** The walk stays inside exactly when no byte it visits among the last three announces
      more bytes than the text has left. */
  lemma {:induction false} FitsIff(s: seq<byte>)
    ensures WalkFits(s) <==> forall b :: 0 <= b < |s| && |s| - 3 <= b ==> LandsFrom(s, b)
  {
    if s != [] {
      var n := Stride(s[0]);
      if n <= |s| {
        FitsIff(s[n..]);
        forall b: nat | n <= b < |s| ensures LandsFrom(s, b) <==> LandsFrom(s[n..], b - n) {
          assert s[n..][b - n] == s[b];
        }
        ShiftLast(s, n);
      } else { assert !LandsFrom(s, 0); }
    }
  }

  lemma ShiftLast(s: seq<byte>, n: nat)
    requires s != [] && n == Stride(s[0]) <= |s|
    requires forall b: nat :: n <= b < |s| ==> (LandsFrom(s, b) <==> LandsFrom(s[n..], b - n))
    ensures (forall b :: 0 <= b < |s| && |s| - 3 <= b ==> LandsFrom(s, b))
            <==> (forall b :: 0 <= b < |s[n..]| && |s[n..]| - 3 <= b ==> LandsFrom(s[n..], b))
  {
    forall b: nat | b < |s[n..]| ensures LandsFrom(s[n..], b) <==> LandsFrom(s, b + n) { }
    forall b: nat | b < n && b < |s| ensures LandsFrom(s, b) { }
  }

  /** The largest character count over a sequence of lines. */
  function Longest(lines: seq<seq<byte>>): nat {
    if lines == [] then 0 else Max(Longest(lines[..|lines| - 1]), U8Len(lines[|lines| - 1]))
  }

  lemma {:induction false} LongestIs(lines: seq<seq<byte>>) returns (k: nat)
    requires lines != []
    ensures k < |lines| && U8Len(lines[k]) == Longest(lines)
    ensures forall i :: 0 <= i < |lines| ==> U8Len(lines[i]) <= Longest(lines)
  {
    k := |lines| - 1;
    if k > 0 {
      var m := LongestIs(lines[..k]);
      if Longest(lines) != U8Len(lines[k]) { k := m; }
    }
  }

  /** The longest line seen before the current one. */
  function LongestBefore(s: seq<byte>): nat { Longest(LinesOf(s)[..|LinesOf(s)| - 1]) }

  /** The counters behind a valid prefix of the text. */
  ghost predicate Counted(s: seq<byte>, maxlen: nat, curlen: nat, lines: nat) {
    && Valid(LastLine(s)) && curlen == U8Len(LastLine(s)) && maxlen == LongestBefore(s)
    && lines == |LinesOf(s)|
  }

  lemma CountedNewline(s: seq<byte>, maxlen: nat, curlen: nat, lines: nat)
    requires Counted(s, maxlen, curlen, lines)
    ensures Counted(s + [NL], Max(maxlen, curlen), 0, lines + 1)
  {
    LinesNewline(s);
    assert LinesOf(s + [NL])[..|LinesOf(s)|] == LinesOf(s);
  }

  lemma CountedUnit(s: seq<byte>, unit: seq<byte>, maxlen: nat, curlen: nat, lines: nat)
    requires Counted(s, maxlen, curlen, lines) && NL !in unit && Valid(unit) && U8Len(unit) == 1
    ensures Counted(s + unit, maxlen, curlen + 1, lines)
  {
    ValidAppend(LastLine(s), unit);
    LinesExtend(s, unit);
    assert LinesOf(s + unit)[..|LinesOf(s)| - 1] == LinesOf(s)[..|LinesOf(s)| - 1];
  }

  lemma NoNewlineInside(t: seq<byte>)
    requires t != [] && t[0] != NL && Unit(t) > 0
    ensures NL !in t[..Unit(t)]
  {
  }

  // ------------------------------------------------------------ the walk

  /** 1 once a newline that ends the text has been passed. */
  function Trailing(done: seq<byte>, rest: seq<byte>): nat { if rest == [] && EndsWith(done, NL) then 1 else 0 }

  /** Where the walk stands between `done` and `rest`. */
  ghost predicate Walking(text: seq<byte>, done: seq<byte>, rest: seq<byte>, maxlen: nat, curlen: nat, lines: nat) {
    && text == done + rest && (WalkFits(rest) <==> WalkFits(text))
    && (Valid(text) ==> Valid(rest) && Counted(done, maxlen, curlen, lines + Trailing(done, rest)))
  }

  lemma WalkEnds(text: seq<byte>, done: seq<byte>, maxlen: nat, curlen: nat, lines: nat)
    requires Walking(text, done, [], maxlen, curlen, lines)
    ensures WalkFits(text)
    ensures Valid(text) ==>
              && Max(maxlen, curlen) == Longest(LinesOf(text))
              && lines + (if EndsWith(text, NL) then 1 else 0) == |LinesOf(text)|
  {
    assert done + [] == done;
  }

  lemma WalkNewline(text: seq<byte>, done: seq<byte>, rest: seq<byte>, maxlen: nat, curlen: nat, lines: nat)
    requires Walking(text, done, rest, maxlen, curlen, lines) && rest != [] && rest[0] == NL
    ensures Walking(text, done + [NL], rest[1..], Max(maxlen, curlen), 0, if rest[1..] == [] then lines else lines + 1)
  {
    if Valid(text) { CountedNewline(done, maxlen, curlen, lines); }
    FitStep(rest, 1);
    Assoc(done, [NL], rest[1..]);
    assert [NL] + rest[1..] == rest;
  }

  lemma WalkUnit(text: seq<byte>, done: seq<byte>, rest: seq<byte>, n: nat, maxlen: nat, curlen: nat, lines: nat)
    requires Walking(text, done, rest, maxlen, curlen, lines) && rest != [] && rest[0] != NL
    requires n == Stride(rest[0]) <= |rest|
    ensures Walking(text, done + rest[..n], rest[n..], maxlen, curlen + 1, lines)
  {
    FitStep(rest, n);
    if Valid(text) {
      UnitIsValid(rest);
      NoNewlineInside(rest);
      CountedUnit(done, rest[..n], maxlen, curlen, lines);
      UnitEnd(done, rest, n);
    }
    Assoc(done, rest[..n], rest[n..]);
    Cut(rest, n);
  }

  lemma FitStep(rest: seq<byte>, n: nat)
    requires rest != [] && n == Stride(rest[0]) <= |rest|
    ensures WalkFits(rest) <==> WalkFits(rest[n..])
    ensures Valid(rest) ==> Valid(rest[n..]) && Unit(rest) == n
  {
  }

  lemma UnitEnd(done: seq<byte>, rest: seq<byte>, n: nat)
    requires rest != [] && rest[0] != NL && 0 < n == Unit(rest)
    ensures !EndsWith(done + rest[..n], NL)
  {
  }

  /** One step of the walk, which stays inside the text. */
  method Step(ghost text: seq<byte>, ghost done: seq<byte>, rest: seq<byte>, maxlen: nat, curlen: nat, lines: nat)
    returns (n: nat, m: nat, c: nat, l: nat)
    requires rest != [] && Stride(rest[0]) <= |rest| && Walking(text, done, rest, maxlen, curlen, lines)
    ensures 0 < n <= |rest| && Walking(text, done + rest[..n], rest[n..], m, c, l)
  {
    if rest[0] == NL {
      WalkNewline(text, done, rest, maxlen, curlen, lines);
      assert rest[..1] == [NL];
      m, c, l, n := Max(maxlen, curlen), 0, lines + 1, 1;
      if |rest| == 1 { l := lines; }
    } else {
      n := Stride(rest[0]);
      WalkUnit(text, done, rest, n, maxlen, curlen, lines);
      m, c, l := maxlen, curlen + 1, lines;
    }
  }

  /** The count over any text, None when the walk would pass the terminator.  On valid text
      it ends there, `maxlen` is the longest line in characters, and a trailing newline does
      not count as a line. */
  method CountLines(text: seq<byte>) returns (r: Option<(nat, nat)>)
    ensures r.Some? <==> WalkFits(text)
    ensures Valid(text) ==>
              r == Some((Longest(LinesOf(text)), |LinesOf(text)| - (if EndsWith(text, NL) then 1 else 0)))
  {
    var maxlen: nat, curlen: nat, lines: nat, rest := 0, 0, 1, text;
    ghost var done: seq<byte> := [];
    assert [] + text == text;
    while rest != []
      invariant Walking(text, done, rest, maxlen, curlen, lines)
      decreases |rest|
    {
      if Stride(rest[0]) > |rest| {
        if Valid(text) { ValidFits(text); }
        return None;
      }
      var n, m, c, l := Step(text, done, rest, maxlen, curlen, lines);
      done, rest := done + rest[..n], rest[n..];
      maxlen, curlen, lines := m, c, l;
    }
    WalkEnds(text, done, maxlen, curlen, lines);
    if curlen > maxlen { maxlen := curlen; }
    r := Some((maxlen, lines));
  }

  /** Repaired text stays valid through normalisation, `\h` removal or replacement, the
      trailing trim and tag stripping, so the walk over the stripped text stays inside. */
  lemma SanitizedTextIsSafe(start: int, end: int, raw: seq<byte>, cfg: Config)
    ensures var text := TextFor(Sanitize(raw), cfg);
            Valid(text) && Valid(StripTags(text)) && WalkFits(StripTags(text))
    ensures cfg.fixEncoding ==> WalkFits(StripTags(EntryOf(Accepted(start, end, raw), cfg, true).text))
  {
    var clean := Sanitize(raw);
    SanitizeRepairs(raw);
    NormalizeKeepsContent(clean, IsHd(cfg));
    EditsValid(clean);
    EditsValid(Normalize(clean, IsHd(cfg)));
    RstripValid(RemoveH(Normalize(clean, IsHd(cfg))));
    StripTagsValid(TextFor(clean, cfg));
    ValidFits(StripTags(TextFor(clean, cfg)));
  }

  const LONE_LEAD: seq<byte> := [0xE3]
  const LONE_LINE: seq<byte> := [0xE3, NL]

  /** The first parser repairs nothing, so its text need not fit: a cue whose only line is a
      lone three-byte lead makes the walk pass the terminator in every configuration. */
  lemma UnrepairedOverruns(start: int, end: int, cfg: Config)
    ensures !WalkFits(StripTags(EntryOf(Accepted(start, end, LONE_LINE), cfg, false).text))
  {
    LoneLeadStrips();
    LoneLeadEdits();
    if !cfg.useAss { LoneLeadText(IsHd(cfg)); }
  }

  lemma LoneLeadStrips()
    ensures StripTags(LONE_LINE) == LONE_LINE && StripTags(LONE_LEAD) == LONE_LEAD
    ensures !WalkFits(LONE_LINE) && !WalkFits(LONE_LEAD)
  {
    var end := LONE_LINE[1..];
    assert end == [NL] && end[1..] == [] && LONE_LEAD[1..] == [];
    assert StripTags(end) == end && StripTags(LONE_LEAD) == LONE_LEAD;
    assert StripTags(LONE_LINE) == [LONE_LINE[0]] + end;
  }

  lemma LoneLeadEdits()
    ensures ReplaceH(LONE_LINE) == LONE_LINE && RemoveH(LONE_LINE) == LONE_LINE && Rstrip(LONE_LINE) == LONE_LEAD
  {
    var end := LONE_LINE[1..];
    assert end == [NL] && end[1..] == [] && LONE_LINE[..1] == LONE_LEAD;
    assert ReplaceH(end) == end && RemoveH(end) == end;
    assert [LONE_LINE[0]] + end == LONE_LINE;
  }

  lemma LoneLeadText(hd: bool)
    ensures Rstrip(RemoveH(Normalize(LONE_LINE, hd))) == LONE_LEAD
  {
    LoneLeadCollapses();
    LoneLeadFills(WholeCueIsSymbol(LONE_LINE), MaxChars(hd));
    LoneLeadEdits();
  }

  lemma LoneLeadFills(symbol: bool, max: nat)
    requires max >= MAX_CHARS_SD
    ensures FillAll(Blank, LONE_LINE, symbol, max).out == LONE_LINE
  {
    LoneLeadPlaced(symbol, max);
    assert LONE_LINE[1..][0] == NL;
    assert Find(LONE_LINE, NL) == 1 && LONE_LINE[..1] == LONE_LEAD;
    var filled := FillLine(Blank, LONE_LEAD, symbol, max);
    assert LONE_LEAD[0] != SP && HasContent(LONE_LEAD);
    assert EndLine(filled, LONE_LEAD).out == LONE_LEAD + [NL] == LONE_LINE;
    var rest: seq<byte> := LONE_LINE[2..];
    assert rest == [];
    assert FillAll(EndLine(filled, LONE_LEAD), rest, symbol, max) == EndLine(filled, LONE_LEAD);
  }

  lemma LoneLeadCollapses()
    ensures Collapse(LONE_LINE) == LONE_LINE
  {
    CollapseSnoc([], 0xE3);
    assert [] + [0xE3] == LONE_LEAD && CollapseOne([], 0xE3) == LONE_LEAD;
    CollapseSnoc(LONE_LEAD, NL);
    assert LONE_LEAD + [NL] == LONE_LINE && !EndsWith(LONE_LEAD, SP);
  }

  lemma LoneLeadPlaced(symbol: bool, max: nat)
    requires max >= MAX_CHARS_SD
    ensures FillLine(Blank, LONE_LEAD, symbol, max).out == LONE_LEAD
  {
    assert LONE_LEAD[1..] == [] && VisibleLen(LONE_LEAD) == 1;
    assert !Breaks(LONE_LEAD, 0) && TokenEnd(LONE_LEAD, 0) == 1 && LONE_LEAD[..1] == LONE_LEAD;
    assert [] + LONE_LEAD == LONE_LEAD;
  }
}
