/** What normalize_cue_text keeps of the reading text: collapsing keeps the words of every
    line, wrapping keeps the sequence of visible words and the source's line breaks. */
module WrapWords {
  import opened Utf8
  import opened Tags
  import opened Wrap

  // ------------------------------------------------------------ words between whitespace

  /** The words of a line: those closed by whitespace, and the one still open. */
  datatype Split = Split(closed: seq<seq<byte>>, open: seq<byte>)

  function SplitOf(s: seq<byte>): Split {
    if s == [] then Split([], [])
    else
      var before, c := SplitOf(s[..|s| - 1]), s[|s| - 1];
      if !IsSpace(c) then before.(open := before.open + [c])
      else if before.open == [] then before else Split(before.closed + [before.open], [])
  }

  function PlainWords(s: seq<byte>): seq<seq<byte>> {
    var w := SplitOf(s);
    w.closed + if w.open == [] then [] else [w.open]
  }

  lemma SplitSnoc(s: seq<byte>, c: byte)
    ensures !IsSpace(c) ==> SplitOf(s + [c]) == SplitOf(s).(open := SplitOf(s).open + [c])
    ensures IsSpace(c) ==> SplitOf(s + [c]) == Split(PlainWords(s), [])
  {
    assert (s + [c])[..|s|] == s;
  }

  ghost predicate LineSame(x: seq<byte>, y: seq<byte>) { PlainWords(x) == PlainWords(y) }

  /** The words of every line. */
  function WordLines(lines: seq<seq<byte>>): seq<seq<seq<byte>>> {
    if lines == [] then [] else WordLines(lines[..|lines| - 1]) + [PlainWords(lines[|lines| - 1])]
  }

  /** The lines before the last have the same words, the last the same open word too. */
  ghost predicate SameWords(a: seq<seq<byte>>, b: seq<seq<byte>>) {
    && |a| == |b| > 0 && SplitOf(a[|a| - 1]) == SplitOf(b[|b| - 1])
    && WordLines(a[..|a| - 1]) == WordLines(b[..|b| - 1])
  }

  lemma SameWordsNewline(a: seq<seq<byte>>, b: seq<seq<byte>>, line: seq<byte>)
    requires SameWords(a, b) && LineSame(line, a[|a| - 1])
    ensures SameWords(a[|a| - 1 := line] + [[]], b + [[]])
  {
    var n := |a| - 1;
    var now := a[n := line];
    assert (now + [[]])[..n + 1] == now && now[..n] == a[..n] && (b + [[]])[..n + 1] == b;
  }

  lemma SameWordsExtend(a: seq<seq<byte>>, b: seq<seq<byte>>, x: seq<byte>, y: seq<byte>)
    requires SameWords(a, b) && SplitOf(x) == SplitOf(y)
    ensures SameWords(a[|a| - 1 := x], b[|b| - 1 := y])
  {
    var n := |a| - 1;
    assert a[n := x][..n] == a[..n] && b[n := y][..n] == b[..n];
  }

  /** Whitespace collapsing keeps the lines and, in each, the words. */
  lemma {:induction false} CollapseKeepsWords(s: seq<byte>)
    ensures SameWords(LinesOf(Collapse(s)), LinesOf(s))
  {
    if s == [] { assert LinesOf(s)[..0] == []; } else {
      var init, c := s[..|s| - 1], s[|s| - 1];
      CollapseKeepsWords(init);
      assert s == init + [c];
      var buf := Collapse(init);
      if c == NL { NewlineWords(buf, init); }
      else if IsSpace(c) && EndsWith(buf, SP) { MoreSpaceWords(buf, init, c); }
      else { AppendWords(buf, init, if IsSpace(c) then SP else c, c); }
    }
  }

  /** A byte appended to both, whitespace on both sides or the same on both. */
  lemma AppendWords(buf: seq<byte>, s: seq<byte>, d: byte, c: byte)
    requires SameWords(LinesOf(buf), LinesOf(s)) && c != NL && d != NL && (c == d || (IsSpace(c) && IsSpace(d)))
    ensures SameWords(LinesOf(buf + [d]), LinesOf(s + [c]))
  {
    LineSnoc(s, c);
    LineSnoc(buf, d);
    ExtendBoth(LinesOf(buf), LinesOf(s), LinesOf(buf + [d]), LinesOf(s + [c]), d, c);
  }

  lemma LineSnoc(s: seq<byte>, c: byte)
    requires c != NL
    ensures LinesOf(s + [c]) == LinesOf(s)[|LinesOf(s)| - 1 := LastLine(s) + [c]]
  {
    assert (s + [c])[..|s|] == s;
  }

  lemma ExtendBoth(a: seq<seq<byte>>, b: seq<seq<byte>>, a2: seq<seq<byte>>, b2: seq<seq<byte>>, d: byte, c: byte)
    requires SameWords(a, b) && (c == d || (IsSpace(c) && IsSpace(d)))
    requires a2 == a[|a| - 1 := a[|a| - 1] + [d]] && b2 == b[|b| - 1 := b[|b| - 1] + [c]]
    ensures SameWords(a2, b2)
  {
    SplitSame(a[|a| - 1], b[|b| - 1], d, c);
    SameWordsExtend(a, b, a[|a| - 1] + [d], b[|b| - 1] + [c]);
  }

  lemma SplitSame(x: seq<byte>, y: seq<byte>, d: byte, c: byte)
    requires SplitOf(x) == SplitOf(y) && (c == d || (IsSpace(c) && IsSpace(d)))
    ensures SplitOf(x + [d]) == SplitOf(y + [c])
  {
    SplitSnoc(x, d);
    SplitSnoc(y, c);
  }

  lemma MoreSpaceWords(buf: seq<byte>, s: seq<byte>, c: byte)
    requires SameWords(LinesOf(buf), LinesOf(s)) && EndsWith(buf, SP) && IsSpace(c) && c != NL
    ensures SameWords(LinesOf(buf), LinesOf(s + [c]))
  {
    LineSnoc(s, c);
    TrailingSpace(buf, buf[..|buf| - 1]);
    SpaceBehind(LinesOf(buf), LinesOf(s), LinesOf(s + [c]), c);
  }

  /** Whitespace behind a closed word changes nothing. */
  lemma SpaceBehind(a: seq<seq<byte>>, b: seq<seq<byte>>, b2: seq<seq<byte>>, c: byte)
    requires SameWords(a, b) && SplitOf(a[|a| - 1]).open == [] && IsSpace(c)
    requires b2 == b[|b| - 1 := b[|b| - 1] + [c]]
    ensures SameWords(a, b2)
  {
    SplitSnoc(b[|b| - 1], c);
    SameWordsExtend(a, b, a[|a| - 1], b[|b| - 1] + [c]);
    assert a[|a| - 1 := a[|a| - 1]] == a;
  }

  /** A space at the end of the text belongs to its last line and closes its last word. */
  lemma TrailingSpace(buf: seq<byte>, init: seq<byte>)
    requires EndsWith(buf, SP) && init == buf[..|buf| - 1]
    ensures LinesOf(init) == LinesOf(buf)[|LinesOf(buf)| - 1 := LastLine(init)]
    ensures SplitOf(LastLine(buf)).open == [] && LineSame(LastLine(init), LastLine(buf))
  {
    assert buf == init + [SP];
    LinesExtend(init, [SP]);
    SplitSnoc(LastLine(init), SP);
  }

  lemma NewlineWords(buf: seq<byte>, s: seq<byte>)
    requires SameWords(LinesOf(buf), LinesOf(s))
    ensures SameWords(LinesOf(CollapseOne(buf, NL)), LinesOf(s + [NL]))
  {
    var init := if EndsWith(buf, SP) then buf[..|buf| - 1] else buf;
    if EndsWith(buf, SP) { TrailingSpace(buf, init); } else {
      assert LinesOf(buf)[|LinesOf(buf)| - 1 := LastLine(buf)] == LinesOf(buf);
    }
    LinesNewline(s);
    LinesNewline(init);
    SameWordsNewline(LinesOf(buf), LinesOf(s), LastLine(init));
  }

  // ------------------------------------------------------------ visible words

  /** The tokens of a line that show something, without their tags. */
  function VisibleWords(line: seq<byte>): seq<seq<byte>>
    decreases |line|
  {
    if line == [] then []
    else if line[0] == SP then VisibleWords(line[1..])
    else
      TokenIsOneWord(line);
      var e := TokenEnd(line, 0);
      Shown(line[..e]) + VisibleWords(line[e..])
  }

  function Shown(tok: seq<byte>): seq<seq<byte>> {
    if VisibleLen(tok) > 0 then [StripTags(tok)] else []
  }

  lemma OneToken(tok: seq<byte>)
    requires NoBreak(tok) && tok != []
    ensures VisibleWords(tok) == Shown(tok)
  {
    assert !Breaks(tok, 0);
    assert tok[..0] == [] && Closed(tok[..0]);
    assert TokenEnd(tok, 0) == |tok|;
    assert tok[..|tok|] == tok && tok[|tok|..] == [];
  }

  lemma {:induction false} StripAppend(a: seq<byte>, b: seq<byte>)
    requires Closed(a)
    ensures StripTags(a + b) == StripTags(a) + StripTags(b)
  {
    if a == [] { assert a + b == b; } else {
      TagOfClosed(a, b);
      var n := if TagLen(a) > 0 then TagLen(a) else 1;
      assert (a + b)[n..] == a[n..] + b;
      ClosedSuffix(a, n);
      StripAppend(a[n..], b);
      if TagLen(a) == 0 { Assoc([a[0]], StripTags(a[1..]), StripTags(b)); }
    }
  }

  /** A text of tags alone: nothing is left of it, and no space breaks it. */
  lemma {:induction false} TagsOnly(a: seq<byte>)
    requires VisibleLen(a) == 0
    ensures StripTags(a) == [] && (a != [] ==> Ascii(a[0]))
  {
    if a != [] { TagsOnly(a[TagLen(a)..]); }
  }

  lemma TagsDoNotBreak(a: seq<byte>)
    requires Closed(a) && VisibleLen(a) == 0
    ensures NoBreak(a)
  {
    forall j | 0 <= j < |a| ensures !Breaks(a, j) { BreakShows(a, j); }
  }

  lemma BreakShows(a: seq<byte>, j: nat)
    requires j < |a|
    ensures Breaks(a, j) ==> VisibleLen(a) > 0
  {
    Cut(a, j);
    if Breaks(a, j) { SpaceShows(a[..j], a[j..]); }
  }

  lemma SpaceShows(a: seq<byte>, b: seq<byte>)
    requires Closed(a) && b != [] && b[0] == SP
    ensures VisibleLen(a + b) > 0
  {
    VisibleAppend(a, b);
    assert TagLen(b) == 0;
  }

  lemma {:induction false} TokenEndPrefix(a: seq<byte>, b: seq<byte>, k: nat)
    requires k <= |a| && (TokenEnd(a, k) < |a| || (b != [] && b[0] == SP && Closed(a)))
    ensures TokenEnd(a + b, k) == TokenEnd(a, k)
    decreases |a| - k
  {
    assert (a + b)[..k] == a[..k];
    if k < |a| && !Breaks(a, k) { TokenEndPrefix(a, b, k + 1); }
    if k == |a| { assert a[..k] == a; }
  }

  /** A space between two texts separates their words. */
  lemma {:induction false} WordsApart(a: seq<byte>, b: seq<byte>)
    requires Closed(a) && b != [] && b[0] == SP
    ensures VisibleWords(a + b) == VisibleWords(a) + VisibleWords(b)
    decreases |a|
  {
    if a == [] { assert a + b == b; } else if a[0] == SP {
      assert (a + b)[1..] == a[1..] + b;
      ClosedSuffix(a, 1);
      WordsApart(a[1..], b);
    } else {
      TokenIsOneWord(a);
      var e := TokenEnd(a, 0);
      TokenEndPrefix(a, b, 0);
      assert (a + b)[..e] == a[..e] && (a + b)[e..] == a[e..] + b;
      ClosedSuffix(a, e);
      WordsApart(a[e..], b);
    }
  }

  /** A line does not end in a space that separates words. */
  predicate Tight(a: seq<byte>) { a == [] || !Breaks(a, |a| - 1) }

  lemma TightSuffix(a: seq<byte>, n: nat)
    requires n <= |a| && Tight(a) && Closed(a[..n])
    ensures Tight(a[n..])
  {
    if n < |a| {
      assert a[n..][..|a| - n - 1] == a[n..|a| - 1];
      assert a[..|a| - 1] == a[..n] + a[n..|a| - 1];
      ClosedAppend(a[..n], a[n..|a| - 1]);
    }
  }

  lemma TightAppend(a: seq<byte>, tok: seq<byte>)
    requires Closed(a) && tok != [] && NoBreak(tok)
    ensures Tight(a + tok)
  {
    var m := |tok| - 1;
    assert !Breaks(tok, m);
    assert (a + tok)[..|a| + m] == a + tok[..m];
    ClosedAppend(a, tok[..m]);
  }

  /** Tags written behind a word become part of it and show nothing. */
  lemma {:induction false} WordsGlued(a: seq<byte>, b: seq<byte>)
    requires Closed(a) && Tight(a) && b != [] && NoBreak(b) && VisibleLen(b) == 0
    ensures VisibleWords(a + b) == VisibleWords(a)
    decreases |a|
  {
    if a == [] {
      assert a + b == b;
      OneToken(b);
    } else if a[0] == SP {
      assert (a + b)[1..] == a[1..] + b;
      ClosedSuffix(a, 1);
      assert a[..1] == [SP];
      ClosedSpace();
      TightSuffix(a, 1);
      WordsGlued(a[1..], b);
    } else {
      TokenIsOneWord(a);
      var e := TokenEnd(a, 0);
      if e == |a| { GluedToken(a, b); } else {
        TokenEndPrefix(a, b, 0);
        assert (a + b)[..e] == a[..e] && (a + b)[e..] == a[e..] + b;
        ClosedSuffix(a, e);
        TightSuffix(a, e);
        WordsGlued(a[e..], b);
      }
    }
  }

  lemma GluedToken(a: seq<byte>, b: seq<byte>)
    requires Closed(a) && a != [] && TokenEnd(a, 0) == |a| && b != [] && NoBreak(b) && VisibleLen(b) == 0
    ensures VisibleWords(a + b) == VisibleWords(a)
  {
    assert NoBreak(a) by { assert forall j :: 0 <= j < |a| ==> !Breaks(a, j); }
    NoBreakAppend(a, b);
    OneToken(a + b);
    OneToken(a);
    ShownGlued(a, b);
  }

  lemma ShownGlued(a: seq<byte>, b: seq<byte>)
    requires Closed(a) && VisibleLen(b) == 0
    ensures Shown(a + b) == Shown(a)
  {
    TagsOnly(b);
    VisibleAppend(a, b);
    StripAppend(a, b);
    assert StripTags(a) + [] == StripTags(a);
  }

  lemma ShownLed(a: seq<byte>, b: seq<byte>)
    requires Closed(a) && VisibleLen(a) == 0
    ensures Shown(a + b) == Shown(b)
  {
    TagsOnly(a);
    VisibleAppend(a, b);
    StripAppend(a, b);
    assert [] + StripTags(b) == StripTags(b);
  }

  /** A word written behind tags alone is the only word there. */
  lemma WordsLed(a: seq<byte>, tok: seq<byte>)
    requires Closed(a) && VisibleLen(a) == 0 && tok != [] && NoBreak(tok)
    ensures VisibleWords(a) == [] && VisibleWords(a + tok) == Shown(tok)
  {
    TagsDoNotBreak(a);
    if a != [] { OneToken(a); }
    NoBreakAppend(a, tok);
    OneToken(a + tok);
    ShownLed(a, tok);
  }

  // ------------------------------------------------------------ the wrap keeps them

  /** The visible words of a text, line after line. */
  function LineWords(lines: seq<seq<byte>>): seq<seq<byte>> {
    if lines == [] then [] else LineWords(lines[..|lines| - 1]) + VisibleWords(lines[|lines| - 1])
  }

  function WordsOf(s: seq<byte>): seq<seq<byte>> { LineWords(LinesOf(s)) }

  lemma WordsBelow(out: seq<byte>, tok: seq<byte>)
    requires NL !in tok
    ensures WordsOf(out + [NL] + tok) == WordsOf(out) + VisibleWords(tok)
  {
    OutBelow(out, tok);
    assert (LinesOf(out) + [tok])[..|LinesOf(out)|] == LinesOf(out);
  }

  lemma WordsBeside(out: seq<byte>, t: seq<byte>, more: seq<seq<byte>>)
    requires NL !in t && VisibleWords(LastLine(out) + t) == VisibleWords(LastLine(out)) + more
    ensures WordsOf(out + t) == WordsOf(out) + more
  {
    var lines := LinesOf(out);
    LinesExtend(out, t);
    var now := lines[|lines| - 1 := LastLine(out) + t];
    assert now[..|lines| - 1] == lines[..|lines| - 1];
  }

  /** Between tokens of a source line. */
  ghost predicate Between(st: Layout, max: nat) {
    LayoutOk(st, max) && Closed(LastLine(st.out)) && Tight(LastLine(st.out))
  }

  lemma PlaceSymbolWords(st: Layout, tok: seq<byte>, max: nat)
    requires Between(st, max) && NL !in tok && NoBreak(tok) && tok != []
    ensures WordsOf(PlaceSymbol(st, tok).out) == WordsOf(st.out) + Shown(tok)
    ensures Tight(LastLine(PlaceSymbol(st, tok).out))
  {
    if st.lineLen > 0 { BelowWords(st.out, tok); } else { BesideGlued(st.out, tok); }
  }

  lemma BelowWords(out: seq<byte>, tok: seq<byte>)
    requires NL !in tok && NoBreak(tok) && tok != []
    ensures WordsOf(out + [NL] + tok) == WordsOf(out) + Shown(tok) && Tight(LastLine(out + [NL] + tok))
  {
    WordsBelow(out, tok);
    OneToken(tok);
    OutBelow(out, tok);
    TightAppend([], tok);
    assert [] + tok == tok;
  }

  lemma PlaceBesideWords(st: Layout, tok: seq<byte>, max: nat)
    requires Between(st, max) && NL !in tok && NoBreak(tok) && tok != []
    ensures WordsOf(PlaceBeside(st, tok).out) == WordsOf(st.out) + Shown(tok)
    ensures Tight(LastLine(PlaceBeside(st, tok).out))
  {
    if VisibleLen(tok) > 0 && st.lineLen > 0 { BesideSpaced(st.out, tok); } else { BesideGlued(st.out, tok); }
  }

  lemma BesideSpaced(out: seq<byte>, tok: seq<byte>)
    requires Closed(LastLine(out)) && NL !in tok && NoBreak(tok) && tok != []
    ensures WordsOf(out + [SP] + tok) == WordsOf(out) + Shown(tok) && Tight(LastLine(out + [SP] + tok))
  {
    SpacedWords(LastLine(out), tok);
    Assoc(out, [SP], tok);
    WordsBeside(out, [SP] + tok, Shown(tok));
    LinesExtend(out, [SP] + tok);
  }

  lemma BesideGlued(out: seq<byte>, tok: seq<byte>)
    requires Closed(LastLine(out)) && Tight(LastLine(out)) && NL !in tok && NoBreak(tok) && tok != []
    requires VisibleLen(tok) == 0 || VisibleLen(LastLine(out)) == 0
    ensures WordsOf(out + tok) == WordsOf(out) + Shown(tok) && Tight(LastLine(out + tok))
  {
    var line := LastLine(out);
    if VisibleLen(tok) == 0 { WordsGlued(line, tok); } else { WordsLed(line, tok); }
    WordsBeside(out, tok, Shown(tok));
    LinesExtend(out, tok);
    TightAppend(line, tok);
  }

  lemma SpacedWords(line: seq<byte>, tok: seq<byte>)
    requires Closed(line) && NoBreak(tok) && tok != []
    ensures VisibleWords(line + ([SP] + tok)) == VisibleWords(line) + Shown(tok) && Tight(line + ([SP] + tok))
  {
    WordsApart(line, [SP] + tok);
    assert ([SP] + tok)[1..] == tok;
    OneToken(tok);
    ClosedSpace();
    ClosedAppend(line, [SP]);
    TightAppend(line + [SP], tok);
    Assoc(line, [SP], tok);
  }

  lemma PlaceWords(st: Layout, tok: seq<byte>, symbol: bool, max: nat)
    requires Between(st, max) && NL !in tok && NoBreak(tok) && tok != [] && 1 <= max
    ensures WordsOf(Place(st, tok, symbol, max).out) == WordsOf(st.out) + Shown(tok)
    ensures Closed(tok) ==> Between(Place(st, tok, symbol, max), max)
  {
    PlaceOk(st, tok, symbol, max);
    var w := VisibleLen(tok);
    if symbol && w == 1 { PlaceSymbolWords(st, tok, max); }
    else if Overflows(st, w, max) { BelowWords(st.out, tok); }
    else { PlaceBesideWords(st, tok, max); }
  }

  lemma {:induction false} FillLineWords(st: Layout, line: seq<byte>, symbol: bool, max: nat)
    requires Between(st, max) && NL !in line && 1 <= max
    ensures WordsOf(FillLine(st, line, symbol, max).out) == WordsOf(st.out) + VisibleWords(line)
    decreases |line|
  {
    if line != [] {
      if line[0] == SP { FillLineWords(st, line[1..], symbol, max); } else {
        TokenIsOneWord(line);
        var e := TokenEnd(line, 0);
        var next := Place(st, line[..e], symbol, max);
        PlaceWords(st, line[..e], symbol, max);
        if e < |line| { FillLineWords(next, line[e..], symbol, max); } else { assert line[e..] == []; }
        assert FillLine(st, line, symbol, max) == FillLine(next, line[e..], symbol, max);
        assert VisibleWords(line) == Shown(line[..e]) + VisibleWords(line[e..]);
        JoinWords(WordsOf(st.out), Shown(line[..e]), VisibleWords(line[e..]));
      }
    }
  }

  lemma {:induction false} LinesSplit(a: seq<byte>, b: seq<byte>)
    requires NL !in a
    ensures LinesOf(a + [NL] + b) == [a] + LinesOf(b)
  {
    var s := a + [NL] + b;
    if b == [] {
      LinesExtend([], a);
      assert [] + a == a && s == a + [NL];
      LinesNewline(a);
    } else {
      var m := |b| - 1;
      assert s[..|s| - 1] == a + [NL] + b[..m] && s[|s| - 1] == b[m];
      LinesSplit(a, b[..m]);
    }
  }

  lemma OnlyWords(line: seq<byte>)
    ensures LineWords([line]) == VisibleWords(line)
  {
    assert [line][..0] == [];
  }

  lemma WordsCons(line: seq<byte>, lines: seq<seq<byte>>)
    ensures LineWords([line] + lines) == VisibleWords(line) + LineWords(lines)
  {
    OnlyWords(line);
    LineWordsAppend([line], lines);
  }

  lemma EndLineWords(filled: Layout, line: seq<byte>, max: nat)
    requires LayoutOk(filled, max) && (HasContent(line) || LastLine(filled.out) == [])
    ensures WordsOf(EndLine(filled, line).out) == WordsOf(filled.out) && Between(EndLine(filled, line), max)
    ensures LastLine(EndLine(filled, line).out) == []
  {
    EndLineOk(filled, line, max);
    WordsBelow(filled.out, []);
    assert filled.out + [NL] + [] == filled.out + [NL];
  }

  lemma {:induction false} FillAllWords(st: Layout, buf: seq<byte>, symbol: bool, max: nat)
    requires Between(st, max) && LastLine(st.out) == [] && 1 <= max
    ensures WordsOf(FillAll(st, buf, symbol, max).out) == WordsOf(st.out) + WordsOf(buf)
    decreases |buf|
  {
    if buf == [] { NoWords(); } else {
      var e := Find(buf, NL);
      var filled := FillLine(st, buf[..e], symbol, max);
      FillLineWords(st, buf[..e], symbol, max);
      if e == |buf| {
        assert buf[..e] == buf;
        OneLine(buf);
      } else {
        LineFilled(st, buf[..e], symbol, max);
        FillAllWords(EndLine(filled, buf[..e]), buf[e + 1..], symbol, max);
        FirstLine(buf, e);
        JoinWords(WordsOf(st.out), VisibleWords(buf[..e]), WordsOf(buf[e + 1..]));
      }
    }
  }

  lemma JoinWords(a: seq<seq<byte>>, b: seq<seq<byte>>, c: seq<seq<byte>>)
    ensures a + b + c == a + (b + c)
  {
  }

  lemma LineFilled(st: Layout, line: seq<byte>, symbol: bool, max: nat)
    requires Between(st, max) && LastLine(st.out) == [] && NL !in line && 1 <= max
    ensures var next := EndLine(FillLine(st, line, symbol, max), line);
            && Between(next, max) && LastLine(next.out) == []
            && WordsOf(next.out) == WordsOf(FillLine(st, line, symbol, max).out)
  {
    FillLineOk(st, line, symbol, max);
    if !HasContent(line) { FillLineIdle(st, line, symbol, max); }
    EndLineWords(FillLine(st, line, symbol, max), line, max);
  }

  lemma NoWords()
    ensures WordsOf([]) == []
  {
    WordsCons([], []);
    assert LinesOf([]) == [[]] + [];
  }

  lemma OneLine(buf: seq<byte>)
    requires NL !in buf
    ensures WordsOf(buf) == VisibleWords(buf)
  {
    SingleLine(buf);
    WordsCons(buf, []);
    assert [buf] + [] == [buf];
  }

  lemma SingleLine(buf: seq<byte>)
    requires NL !in buf
    ensures LinesOf(buf) == [buf]
  {
    LinesExtend([], buf);
    assert [] + buf == buf;
  }

  lemma FirstLine(buf: seq<byte>, e: nat)
    requires e < |buf| && e == Find(buf, NL)
    ensures WordsOf(buf) == VisibleWords(buf[..e]) + WordsOf(buf[e + 1..])
  {
    SplitAt(buf, e);
    WordsCons(buf[..e], LinesOf(buf[e + 1..]));
  }

  lemma SplitAt(buf: seq<byte>, e: nat)
    requires e < |buf| && e == Find(buf, NL)
    ensures LinesOf(buf) == [buf[..e]] + LinesOf(buf[e + 1..])
  {
    LinesSplit(buf[..e], buf[e + 1..]);
    Around(buf, e);
  }

  lemma Around(buf: seq<byte>, e: nat)
    requires e < |buf|
    ensures buf[..e] + [buf[e]] + buf[e + 1..] == buf
  {
  }

  /** Wrapping keeps the visible words: none is lost, split, reordered or run together with
      its neighbour, whatever tags surround it. */
  lemma WordsKept(raw: seq<byte>, hd: bool)
    ensures WordsOf(Normalize(raw, hd)) == WordsOf(Collapse(raw))
  {
    NoWords();
    FillAllWords(Blank, Collapse(raw), WholeCueIsSymbol(raw), MaxChars(hd));
  }

  // ------------------------------------------------------------ source line breaks

  lemma {:induction false} FillLineExtends(st: Layout, line: seq<byte>, symbol: bool, max: nat)
    ensures st.out <= FillLine(st, line, symbol, max).out
    decreases |line|
  {
    if line != [] {
      if line[0] == SP { FillLineExtends(st, line[1..], symbol, max); } else {
        TokenIsOneWord(line);
        var e := TokenEnd(line, 0);
        FillLineExtends(Place(st, line[..e], symbol, max), line[e..], symbol, max);
      }
    }
  }

  lemma PrefixOf(a: seq<byte>, b: seq<byte>)
    requires a <= b
    ensures b == a + b[|a|..]
  {
  }

  /** The lines before the last are final once written. */
  function Front(s: seq<byte>): seq<seq<byte>> { LinesOf(s)[..|LinesOf(s)| - 1] }

  lemma {:induction false} LinesPrefix(a: seq<byte>, x: seq<byte>)
    ensures |LinesOf(a + x)| >= |LinesOf(a)| && LinesOf(a + x)[..|LinesOf(a)| - 1] == Front(a)
  {
    if x == [] { assert a + x == a; } else {
      var m := |x| - 1;
      LinesPrefix(a, x[..m]);
      assert (a + x)[..|a + x| - 1] == a + x[..m];
    }
  }

  lemma {:induction false} LineWordsAppend(a: seq<seq<byte>>, b: seq<seq<byte>>)
    ensures LineWords(a + b) == LineWords(a) + LineWords(b)
  {
    if b == [] { assert a + b == a; } else {
      var m := |b| - 1;
      assert (a + b)[..|a + b| - 1] == a + b[..m] && (a + b)[|a + b| - 1] == b[m];
      LineWordsAppend(a, b[..m]);
      JoinWords(LineWords(a), LineWords(b[..m]), VisibleWords(b[m]));
    }
  }

  /** The first `k` lines show the words of a source line. */
  ghost predicate HeadGroup(lines: seq<seq<byte>>, k: nat, source: seq<byte>) {
    1 <= k <= |lines| && LineWords(lines[..k]) == VisibleWords(source)
  }

  /** The lines fall into consecutive groups, one per source line with content, each with
      that line's visible words. */
  ghost predicate Grouped(lines: seq<seq<byte>>, sources: seq<seq<byte>>)
    decreases |sources|
  {
    if sources == [] then lines == []
    else if !HasContent(sources[0]) then Grouped(lines, sources[1..])
    else exists k: nat :: HeadGroup(lines, k, sources[0]) && Grouped(lines[k..], sources[1..])
  }

  lemma GroupedCons(group: seq<seq<byte>>, lines: seq<seq<byte>>, source: seq<byte>, sources: seq<seq<byte>>)
    requires HasContent(source) && group != [] && LineWords(group) == VisibleWords(source) && Grouped(lines, sources)
    ensures Grouped(group + lines, [source] + sources)
  {
    assert (group + lines)[..|group|] == group && (group + lines)[|group|..] == lines;
    assert ([source] + sources)[1..] == sources;
    assert HeadGroup(group + lines, |group|, source);
  }

  lemma GroupedSkip(lines: seq<seq<byte>>, source: seq<byte>, sources: seq<seq<byte>>)
    requires !HasContent(source) && Grouped(lines, sources)
    ensures Grouped(lines, [source] + sources)
  {
    assert ([source] + sources)[1..] == sources;
  }

  /** The lines a source line is laid out on, starting on an empty one. */
  lemma LineGroup(st: Layout, line: seq<byte>, symbol: bool, max: nat) returns (group: seq<seq<byte>>)
    requires Between(st, max) && LastLine(st.out) == [] && NL !in line && 1 <= max
    ensures LinesOf(FillLine(st, line, symbol, max).out) == Front(st.out) + group
    ensures group != [] && LineWords(group) == VisibleWords(line)
  {
    var out := FillLine(st, line, symbol, max).out;
    FillLineExtends(st, line, symbol, max);
    PrefixOf(st.out, out);
    LinesPrefix(st.out, out[|st.out|..]);
    var n := |LinesOf(st.out)| - 1;
    group := LinesOf(out)[n..];
    assert LinesOf(out) == LinesOf(out)[..n] + group;
    FillLineWords(st, line, symbol, max);
    GroupWords(Front(st.out), group, VisibleWords(line), LinesOf(st.out), LinesOf(out));
  }

  lemma GroupWords(front: seq<seq<byte>>, group: seq<seq<byte>>, words: seq<seq<byte>>,
                   before: seq<seq<byte>>, after: seq<seq<byte>>)
    requires before == front + [[]] && after == front + group && LineWords(after) == LineWords(before) + words
    ensures LineWords(group) == words
  {
    LineWordsAppend(front, group);
    assert before[..|before| - 1] == front && LineWords(before) == LineWords(front) + [];
    assert (LineWords(front) + LineWords(group))[|LineWords(front)|..] == LineWords(group);
    assert (LineWords(front) + words)[|LineWords(front)|..] == words;
  }

  lemma {:induction false} FillAllGroups(st: Layout, buf: seq<byte>, symbol: bool, max: nat)
    returns (body: seq<seq<byte>>, tail: seq<seq<byte>>)
    requires Between(st, max) && LastLine(st.out) == [] && 1 <= max
    ensures LinesOf(FillAll(st, buf, symbol, max).out) == Front(st.out) + (body + tail)
    ensures Grouped(body, LinesOf(buf)) && (tail == [] || tail == [[]])
    decreases |buf|
  {
    if buf == [] {
      body, tail := [], [[]];
      assert LinesOf(st.out) == Front(st.out) + [LastLine(st.out)];
      assert [[]] + [] == LinesOf(buf);
      GroupedSkip([], [], []);
    } else {
      var e := Find(buf, NL);
      var line := buf[..e];
      if e == |buf| {
        assert line == buf;
        body, tail := LastGroup(st, buf, symbol, max);
      } else {
        SplitAt(buf, e);
        LineFilled(st, line, symbol, max);
        var rest, t := FillAllGroups(EndLine(FillLine(st, line, symbol, max), line), buf[e + 1..], symbol, max);
        tail := t;
        body := JoinGroups(st, line, rest, t, LinesOf(buf[e + 1..]), symbol, max);
      }
    }
  }

  lemma LastGroup(st: Layout, line: seq<byte>, symbol: bool, max: nat)
    returns (body: seq<seq<byte>>, tail: seq<seq<byte>>)
    requires Between(st, max) && LastLine(st.out) == [] && NL !in line && 1 <= max
    ensures LinesOf(FillLine(st, line, symbol, max).out) == Front(st.out) + (body + tail)
    ensures Grouped(body, LinesOf(line)) && (tail == [] || tail == [[]])
  {
    SingleLine(line);
    assert [line] + [] == [line];
    if HasContent(line) {
      body := LineGroup(st, line, symbol, max);
      tail := [];
      GroupedCons(body, [], line, []);
      assert body + [] == body;
    } else {
      FillLineIdle(st, line, symbol, max);
      body, tail := [], [[]];
      assert LinesOf(st.out) == Front(st.out) + [LastLine(st.out)];
      GroupedSkip([], line, []);
    }
  }

  lemma FrontNewline(s: seq<byte>)
    ensures Front(s + [NL]) == LinesOf(s)
  {
    LinesNewline(s);
  }

  /** The groups of the lines behind a source line, with its own group in front. */
  lemma JoinGroups(st: Layout, line: seq<byte>, rest: seq<seq<byte>>, tail: seq<seq<byte>>,
                   sources: seq<seq<byte>>, symbol: bool, max: nat) returns (body: seq<seq<byte>>)
    requires Between(st, max) && LastLine(st.out) == [] && NL !in line && 1 <= max && Grouped(rest, sources)
    ensures Front(EndLine(FillLine(st, line, symbol, max), line).out) + (rest + tail) == Front(st.out) + (body + tail)
    ensures Grouped(body, [line] + sources)
  {
    var filled := FillLine(st, line, symbol, max);
    if HasContent(line) {
      var group := LineGroup(st, line, symbol, max);
      FrontNewline(filled.out);
      GroupedCons(group, rest, line, sources);
      body := group + rest;
      JoinWords(Front(st.out), group, rest + tail);
      JoinWords(group, rest, tail);
    } else {
      FillLineIdle(st, line, symbol, max);
      GroupedSkip(rest, line, sources);
      body := rest;
    }
  }

  /** Source line breaks survive: the output lines of a cue fall into consecutive groups, one
      per source line with content, each with that line's visible words; behind them at most
      one empty line. */
  lemma GroupsKept(raw: seq<byte>, hd: bool) returns (body: seq<seq<byte>>, tail: seq<seq<byte>>)
    ensures LinesOf(Normalize(raw, hd)) == body + tail && (tail == [] || tail == [[]])
    ensures Grouped(body, LinesOf(Collapse(raw)))
  {
    body, tail := FillAllGroups(Blank, Collapse(raw), WholeCueIsSymbol(raw), MaxChars(hd));
    assert Front([]) == [] && [] + (body + tail) == body + tail;
  }

  // ------------------------------------------------------------ the first line

  function LeadToken(line: seq<byte>): seq<byte> {
    if line == [] then [] else if line[0] == SP then LeadToken(line[1..]) else line[..TokenEnd(line, 0)]
  }

  /** The first token of the first source line that has one. */
  function FirstToken(buf: seq<byte>): seq<byte>
    decreases |buf|
  {
    if buf == [] then []
    else
      var e := Find(buf, NL);
      if HasContent(buf[..e]) then LeadToken(buf[..e])
      else if e == |buf| then [] else FirstToken(buf[e + 1..])
  }

  lemma {:induction false} EmptyFirst(s: seq<byte>)
    ensures LinesOf(s)[0] == [] <==> s == [] || s[0] == NL
  {
    if |s| == 1 { assert s[..0] == []; } else if |s| > 1 { EmptyFirst(s[..|s| - 1]); }
  }

  /** Before anything was written. */
  ghost predicate Pristine(st: Layout) { st.out == [] && st.lineLen == 0 && st.lines == 1 }

  predicate TooWide(tok: seq<byte>, max: nat) { VisibleLen(tok) >= max }

  /** The first token goes to the front of the output, behind a break only if too wide. */
  lemma {:induction false} LeadPlaced(st: Layout, line: seq<byte>, symbol: bool, max: nat)
    requires Pristine(st) && HasContent(line) && NL !in line && 2 <= max
    ensures var tok := LeadToken(line);
            tok != [] && NL !in tok && (if TooWide(tok, max) then [NL] else tok) <= FillLine(st, line, symbol, max).out
    decreases |line|
  {
    if line[0] == SP {
      SkipSpace(line);
      LeadPlaced(st, line[1..], symbol, max);
    } else {
      TokenIsOneWord(line);
      var e := TokenEnd(line, 0);
      var tok := line[..e];
      assert (if TooWide(tok, max) then [NL] else tok) <= Place(st, tok, symbol, max).out;
      FillLineExtends(Place(st, tok, symbol, max), line[e..], symbol, max);
    }
  }

  lemma SkipSpace(line: seq<byte>)
    requires HasContent(line) && line[0] == SP
    ensures HasContent(line[1..])
  {
    var i :| 0 <= i < |line| && line[i] != SP;
    assert line[1..][i - 1] != SP;
  }

  lemma {:induction false} FillAllExtends(st: Layout, buf: seq<byte>, symbol: bool, max: nat)
    ensures st.out <= FillAll(st, buf, symbol, max).out
    decreases |buf|
  {
    if buf != [] {
      var e := Find(buf, NL);
      FillLineExtends(st, buf[..e], symbol, max);
      if e < |buf| {
        FillAllExtends(EndLine(FillLine(st, buf[..e], symbol, max), buf[..e]), buf[e + 1..], symbol, max);
      }
    }
  }

  lemma {:induction false} FirstWritten(st: Layout, buf: seq<byte>, symbol: bool, max: nat)
    requires Pristine(st) && 2 <= max
    ensures var tok, out := FirstToken(buf), FillAll(st, buf, symbol, max).out;
            if tok == [] then out == [] else out != [] && (out[0] == NL <==> TooWide(tok, max))
    decreases |buf|
  {
    if buf != [] {
      var e := Find(buf, NL);
      var line := buf[..e];
      if HasContent(line) { FirstHere(st, buf, symbol, max); } else {
        FillLineIdle(st, line, symbol, max);
        if e < |buf| { FirstWritten(st, buf[e + 1..], symbol, max); }
      }
    }
  }

  lemma FirstHere(st: Layout, buf: seq<byte>, symbol: bool, max: nat)
    requires Pristine(st) && 2 <= max && buf != [] && HasContent(buf[..Find(buf, NL)])
    ensures var tok, out := LeadToken(buf[..Find(buf, NL)]), FillAll(st, buf, symbol, max).out;
            tok != [] && out != [] && (out[0] == NL <==> TooWide(tok, max))
  {
    var e := Find(buf, NL);
    var line := buf[..e];
    var filled := FillLine(st, line, symbol, max);
    LeadPlaced(st, line, symbol, max);
    if e < |buf| { FillAllExtends(EndLine(filled, line), buf[e + 1..], symbol, max); }
    assert LeadToken(line)[0] in LeadToken(line);
  }

  /** The first output line is empty exactly when the cue has no content, or when its first
      word is at least max_chars wide, although a word of exactly that width would fit. */
  lemma FirstLineEmptyIff(raw: seq<byte>, hd: bool)
    ensures var tok := FirstToken(Collapse(raw));
            LinesOf(Normalize(raw, hd))[0] == [] <==> tok == [] || VisibleLen(tok) >= if hd then 67 else 37
  {
    FirstWritten(Blank, Collapse(raw), WholeCueIsSymbol(raw), MaxChars(hd));
    EmptyFirst(Normalize(raw, hd));
  }
}
