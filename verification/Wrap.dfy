/** normalize_cue_text (src/srt_parser.c:188-448): whitespace collapsing, tag-aware
    tokens and the word wrap, as functions with their laws. */
module Wrap {
  import opened Utf8
  import opened Tags

  const MAX_LINES := 3
  const MAX_CHARS_SD := 37
  const MAX_CHARS_HD := 67

  /** isspace in the C locale. */
  predicate IsSpace(b: byte) { b == SP || 9 <= b <= 13 }

  /** What is left of a text when every space, tab and line break byte is removed. */
  function NonWs(s: seq<byte>): seq<byte> {
    if s == [] then [] else (if s[0] == 32 || 9 <= s[0] <= 13 then [] else [s[0]]) + NonWs(s[1..])
  }

  lemma {:induction false} NonWsAppend(a: seq<byte>, b: seq<byte>)
    ensures NonWs(a + b) == NonWs(a) + NonWs(b)
  {
    if a == [] { assert a + b == b; } else {
      assert (a + b)[1..] == a[1..] + b;
      NonWsAppend(a[1..], b);
    }
  }

  lemma NonWsOne(b: byte)
    ensures NonWs([b]) == if IsSpace(b) then [] else [b]
  {
    assert [b][1..] == [];
  }

  // ------------------------------------------------------------ whitespace collapsing

  predicate EndsWith(s: seq<byte>, b: byte) { s != [] && s[|s| - 1] == b }

  function CollapseOne(buf: seq<byte>, c: byte): seq<byte> {
    if c == NL then (if EndsWith(buf, SP) then buf[..|buf| - 1] else buf) + [NL]
    else if IsSpace(c) then (if EndsWith(buf, SP) then buf else buf + [SP])
    else buf + [c]
  }

  function Collapse(s: seq<byte>): seq<byte> {
    if s == [] then [] else CollapseOne(Collapse(s[..|s| - 1]), s[|s| - 1])
  }

  /** The only whitespace left is single spaces, none in front of a newline, and newlines. */
  predicate Tidy(s: seq<byte>) {
    && (forall i :: 0 <= i < |s| && 9 <= s[i] <= 13 ==> s[i] == 10)
    && (forall i :: 1 <= i < |s| && s[i - 1] == 32 ==> s[i] != 32 && s[i] != 10)
  }

  lemma {:induction false} CollapseTidy(s: seq<byte>)
    ensures Tidy(Collapse(s))
  {
    if s != [] {
      CollapseTidy(s[..|s| - 1]);
      CollapseOneTidy(Collapse(s[..|s| - 1]), s[|s| - 1]);
    }
  }

  lemma CollapseOneTidy(buf: seq<byte>, c: byte)
    requires Tidy(buf)
    ensures Tidy(CollapseOne(buf, c))
  {
  }

  lemma {:induction false} CollapseKeepsContent(s: seq<byte>)
    ensures NonWs(Collapse(s)) == NonWs(s)
    ensures Valid(s) ==> Valid(Collapse(s))
    decreases |s|
  {
    if s != [] {
      var init, c := s[..|s| - 1], s[|s| - 1];
      CollapseKeepsContent(init);
      CollapseOneContent(Collapse(init), c);
      assert s == init + [c];
      NonWsAppend(init, [c]);
      if Valid(s) { CollapseValid(s); }
    }
  }

  lemma CollapseOneContent(buf: seq<byte>, c: byte)
    ensures NonWs(CollapseOne(buf, c)) == NonWs(buf) + NonWs([c])
  {
    NonWsOne(c);
    if EndsWith(buf, SP) {
      var init := buf[..|buf| - 1];
      assert buf == init + [SP];
      NonWsAppend(init, [SP]);
      NonWsOne(SP);
      NonWsAppend(init, [NL]);
    }
    NonWsAppend(buf, [SP]);
    NonWsAppend(buf, [c]);
  }

  /** Collapsing a valid prefix and then a run of bytes that are no whitespace. */
  lemma {:induction false} CollapseRun(s: seq<byte>, t: seq<byte>)
    requires forall b :: b in t ==> !IsSpace(b)
    ensures Collapse(s + t) == Collapse(s) + t
  {
    if t == [] { assert s + t == s; } else {
      var m := |t| - 1;
      assert (s + t)[..|s + t| - 1] == s + t[..m];
      CollapseRun(s, t[..m]);
      assert (s + t)[|s + t| - 1] == t[m] && t[m] in t;
      assert Collapse(s) + t[..m] + [t[m]] == Collapse(s) + t;
    }
  }

  lemma {:induction false} CollapseValid(s: seq<byte>)
    requires Valid(s)
    ensures Valid(Collapse(s))
  {
    CollapseValidFrom([], s);
    assert [] + s == s;
  }

  lemma {:induction false} CollapseValidFrom(done: seq<byte>, s: seq<byte>)
    requires Valid(s) && Valid(Collapse(done))
    ensures Valid(Collapse(done + s))
    decreases |s|
  {
    if s == [] { assert done + s == done; } else {
      var unit, rest := s[..Unit(s)], s[Unit(s)..];
      CollapseUnit(done, unit, s);
      CollapseValidFrom(done + unit, rest);
      Rejoin(done, s, Unit(s));
    }
  }

  lemma Rejoin(done: seq<byte>, s: seq<byte>, u: nat)
    requires u <= |s|
    ensures done + s[..u] + s[u..] == done + s
  {
    assert s[..u] + s[u..] == s;
  }

  lemma CollapseUnit(done: seq<byte>, unit: seq<byte>, s: seq<byte>)
    requires s != [] && Unit(s) > 0 && unit == s[..Unit(s)] && Valid(Collapse(done))
    ensures Valid(Collapse(done + unit))
  {
    if IsSpace(s[0]) {
      assert unit == [s[0]];
      CollapseSnoc(done, s[0]);
      CollapseSpaceValid(Collapse(done), s[0]);
    } else {
      CollapseRun(done, unit);
      UnitIsValid(s);
      ValidAppend(Collapse(done), unit);
    }
  }

  lemma CollapseSnoc(done: seq<byte>, c: byte)
    ensures Collapse(done + [c]) == CollapseOne(Collapse(done), c)
  {
    assert (done + [c])[..|done|] == done;
  }

  lemma CollapseSpaceValid(buf: seq<byte>, c: byte)
    requires Valid(buf) && IsSpace(c)
    ensures Valid(CollapseOne(buf, c))
  {
    if EndsWith(buf, SP) {
      ValidDropAscii(buf, |buf| - 1);
      ValidAppend(buf[..|buf| - 1], [NL]);
    }
    ValidOne(NL);
    ValidOne(SP);
    ValidAppend(buf, [NL]);
    ValidAppend(buf, [SP]);
  }

  // ------------------------------------------------------------ tokens

  /** Whether a tag opened by `l` and closed by `r` is still open behind `s`. */
  predicate Open(s: seq<byte>, l: byte, r: byte) {
    s != [] && (s[|s| - 1] == l || (s[|s| - 1] != r && Open(s[..|s| - 1], l, r)))
  }

  predicate Closed(s: seq<byte>) { !Open(s, LT, GT) && !Open(s, LBRACE, RBRACE) }

  predicate Breaks(s: seq<byte>, j: nat)
    requires j < |s|
  {
    s[j] == SP && Closed(s[..j])
  }

  /** Where the token that starts a line ends: at the first space outside tags. */
  function TokenEnd(s: seq<byte>, k: nat): (e: nat)
    requires k <= |s|
    ensures k <= e <= |s| && (e < |s| ==> Breaks(s, e))
    ensures forall j :: k <= j < e ==> !Breaks(s, j)
    decreases |s| - k
  {
    if k == |s| || Breaks(s, k) then k else TokenEnd(s, k + 1)
  }

  /** Re-tokenising the line gives a single word. */
  predicate NoBreak(s: seq<byte>) { forall j :: 0 <= j < |s| ==> !Breaks(s, j) }

  lemma {:induction false} OpenSuffix(s: seq<byte>, n: nat, l: byte, r: byte)
    requires n <= |s| && Open(s[n..], l, r)
    ensures Open(s, l, r)
  {
    assert s[n..][|s| - n - 1] == s[|s| - 1];
    if s[|s| - 1] != l {
      assert s[n..][..|s| - n - 1] == s[..|s| - 1][n..];
      OpenSuffix(s[..|s| - 1], n, l, r);
    }
  }

  lemma {:induction false} OpenNeverClosed(s: seq<byte>, l: byte, r: byte)
    requires s != [] && s[0] == l && r !in s
    ensures Open(s, l, r)
  {
    if |s| > 1 { OpenNeverClosed(s[..|s| - 1], l, r); }
  }

  lemma {:induction false} OpenAppend(a: seq<byte>, b: seq<byte>, l: byte, r: byte)
    requires !Open(a, l, r)
    ensures Open(a + b, l, r) <==> Open(b, l, r)
  {
    if b == [] { assert a + b == a; } else {
      assert (a + b)[..|a + b| - 1] == a + b[..|b| - 1];
      OpenAppend(a, b[..|b| - 1], l, r);
    }
  }

  lemma ClosedAppend(a: seq<byte>, b: seq<byte>)
    requires Closed(a)
    ensures Closed(a + b) <==> Closed(b)
  {
    OpenAppend(a, b, LT, GT);
    OpenAppend(a, b, LBRACE, RBRACE);
  }

  lemma ClosedSuffix(s: seq<byte>, n: nat)
    requires n <= |s| && Closed(s)
    ensures Closed(s[n..])
  {
    if Open(s[n..], LT, GT) { OpenSuffix(s, n, LT, GT); }
    if Open(s[n..], LBRACE, RBRACE) { OpenSuffix(s, n, LBRACE, RBRACE); }
  }

  /** In a closed text an opener always starts a tag, and the same one in any context. */
  lemma TagOfClosed(a: seq<byte>, b: seq<byte>)
    requires a != [] && Closed(a)
    ensures TagLen(a + b) == TagLen(a) && (TagLen(a) > 0 <==> a[0] in [LT, LBRACE])
  {
    if a[0] in [LT, LBRACE] {
      var c := Closer(a);
      if c !in a { OpenNeverClosed(a, a[0], c); }
      FindPrefix(a, b, c);
    }
  }

  lemma {:induction false} FindPrefix(a: seq<byte>, b: seq<byte>, c: byte)
    requires c in a
    ensures Find(a + b, c) == Find(a, c)
  {
    if a[0] != c {
      assert (a + b)[1..] == a[1..] + b;
      FindPrefix(a[1..], b, c);
    }
  }

  lemma UnitAtSeam(a: seq<byte>, b: seq<byte>)
    requires a != [] && (b == [] || Ascii(b[0]))
    ensures Unit(a + b) == Unit(a)
  {
    var n := Announced(a[0]);
    assert forall i :: 0 <= i < |a| ==> (a + b)[i] == a[i];
    if |a| < n && b != [] { assert (a + b)[|a|] == b[0]; }
  }

  /** Visible width adds up across a seam that no tag and no character straddles. */
  lemma {:induction false} VisibleAppend(a: seq<byte>, b: seq<byte>)
    requires Closed(a) && (b == [] || Ascii(b[0]) || VisibleLen(a) == 0)
    ensures VisibleLen(a + b) == VisibleLen(a) + VisibleLen(b)
  {
    if a == [] { assert a + b == b; } else {
      TagOfClosed(a, b);
      if TagLen(a) == 0 { UnitAtSeam(a, b); }
      var n := if TagLen(a) > 0 then TagLen(a) else Advance(a);
      assert (a + b)[n..] == a[n..] + b;
      ClosedSuffix(a, n);
      VisibleAppend(a[n..], b);
    }
  }

  lemma NoBreakAppend(a: seq<byte>, b: seq<byte>)
    requires Closed(a) && NoBreak(a) && NoBreak(b)
    ensures NoBreak(a + b)
  {
    forall j | 0 <= j < |a + b| ensures !Breaks(a + b, j) {
      if j < |a| {
        assert (a + b)[..j] == a[..j];
        assert !Breaks(a, j);
      } else {
        assert (a + b)[..j] == a + b[..j - |a|];
        ClosedAppend(a, b[..j - |a|]);
        assert !Breaks(b, j - |a|);
      }
    }
  }

  lemma TokenIsOneWord(s: seq<byte>)
    ensures NoBreak(s[..TokenEnd(s, 0)])
    ensures s != [] && s[0] != SP ==> TokenEnd(s, 0) > 0
    ensures TokenEnd(s, 0) < |s| ==> Closed(s[..TokenEnd(s, 0)])
  {
    var e := TokenEnd(s, 0);
    forall j | 0 <= j < e ensures !Breaks(s[..e], j) {
      assert s[..e][..j] == s[..j];
      assert !Breaks(s, j);
    }
  }

  // ------------------------------------------------------------ output lines

  function LinesOf(s: seq<byte>): (r: seq<seq<byte>>)
    ensures |r| >= 1
  {
    if s == [] then [[]]
    else
      var r, c := LinesOf(s[..|s| - 1]), s[|s| - 1];
      if c == NL then r + [[]] else r[|r| - 1 := r[|r| - 1] + [c]]
  }

  function LastLine(s: seq<byte>): seq<byte> { LinesOf(s)[|LinesOf(s)| - 1] }

  lemma LinesNewline(s: seq<byte>)
    ensures LinesOf(s + [NL]) == LinesOf(s) + [[]]
  {
    assert (s + [NL])[..|s|] == s;
  }

  lemma {:induction false} LinesExtend(s: seq<byte>, t: seq<byte>)
    requires NL !in t
    ensures LinesOf(s + t) == LinesOf(s)[|LinesOf(s)| - 1 := LastLine(s) + t]
  {
    var r := LinesOf(s);
    if t == [] {
      assert s + t == s && LastLine(s) + t == LastLine(s);
    } else {
      var m := |t| - 1;
      LinesExtend(s, t[..m]);
      assert (s + t)[..|s + t| - 1] == s + t[..m] && (s + t)[|s + t| - 1] == t[m];
      assert LastLine(s) + t[..m] + [t[m]] == LastLine(s) + t;
      var q := r[|r| - 1 := LastLine(s) + t[..m]];
      assert q[|q| - 1 := q[|q| - 1] + [t[m]]] == r[|r| - 1 := LastLine(s) + t];
    }
  }

  // ------------------------------------------------------------ the wrap

  /** The wrap's variables; `breaks` is a history variable that counts the line breaks
      the width test caused. */
  datatype Layout = Layout(out: seq<byte>, lineLen: nat, lines: nat, breaks: nat)

  const Blank := Layout([], 0, 1, 0)

  function PlaceSymbol(st: Layout, tok: seq<byte>): Layout {
    if st.lineLen > 0 then Layout(st.out + [NL] + tok, VisibleLen(tok), st.lines + 1, st.breaks)
    else Layout(st.out + tok, VisibleLen(tok), st.lines, st.breaks)
  }

  function PlaceBelow(st: Layout, tok: seq<byte>): Layout {
    Layout(st.out + [NL] + tok, VisibleLen(tok), st.lines + 1, st.breaks + 1)
  }

  function PlaceBeside(st: Layout, tok: seq<byte>): Layout {
    if VisibleLen(tok) > 0 && st.lineLen > 0
    then Layout(st.out + [SP] + tok, st.lineLen + 1 + VisibleLen(tok), st.lines, st.breaks)
    else Layout(st.out + tok, st.lineLen + VisibleLen(tok), st.lines, st.breaks)
  }

  predicate Overflows(st: Layout, w: nat, max: nat) {
    w > 0 && st.lineLen + w + 1 > max && st.lines < MAX_LINES
  }

  function Place(st: Layout, tok: seq<byte>, symbol: bool, max: nat): Layout {
    var w := VisibleLen(tok);
    if symbol && w == 1 then PlaceSymbol(st, tok)
    else if Overflows(st, w, max) then PlaceBelow(st, tok)
    else PlaceBeside(st, tok)
  }

  function FillLine(st: Layout, line: seq<byte>, symbol: bool, max: nat): Layout
    decreases |line|
  {
    if line == [] then st
    else if line[0] == SP then FillLine(st, line[1..], symbol, max)
    else
      TokenIsOneWord(line);
      var e := TokenEnd(line, 0);
      FillLine(Place(st, line[..e], symbol, max), line[e..], symbol, max)
  }

  predicate HasContent(line: seq<byte>) { exists i :: 0 <= i < |line| && line[i] != SP }

  /** The newline written between source lines, only behind a line with content. */
  function EndLine(st: Layout, line: seq<byte>): Layout {
    if HasContent(line) then st.(out := st.out + [NL], lineLen := 0, lines := st.lines + 1) else st
  }

  function FillAll(st: Layout, buf: seq<byte>, symbol: bool, max: nat): Layout
    decreases |buf|
  {
    if buf == [] then st
    else
      var e := Find(buf, NL);
      var filled := FillLine(st, buf[..e], symbol, max);
      if e == |buf| then filled else FillAll(EndLine(filled, buf[..e]), buf[e + 1..], symbol, max)
  }

  predicate WholeCueIsSymbol(raw: seq<byte>) {
    var plain := StripTags(raw);
    U8Len(plain) == 1 && plain[0] >= 0x80
  }

  function MaxChars(hd: bool): nat { if hd then MAX_CHARS_HD else MAX_CHARS_SD }

  function Wrapped(raw: seq<byte>, hd: bool): Layout {
    FillAll(Blank, Collapse(raw), WholeCueIsSymbol(raw), MaxChars(hd))
  }

  function Normalize(raw: seq<byte>, hd: bool): seq<byte> { Wrapped(raw, hd).out }

  // ------------------------------------------------------------ what the wrap keeps

  predicate Fits(line: seq<byte>, max: nat) { VisibleLen(line) <= max || NoBreak(line) }

  predicate FirstLinesFit(lines: seq<seq<byte>>, max: nat) {
    forall i :: 0 <= i < |lines| && i < 2 ==> Fits(lines[i], max)
  }

  /** `lineLen` is the width of the current output line, `lines` counts the lines, at most
      two breaks came from the width test, and lines before the third fit. */
  ghost predicate LayoutOk(st: Layout, max: nat) {
    && st.lines == |LinesOf(st.out)| && st.lineLen == VisibleLen(LastLine(st.out))
    && st.breaks <= 2 && st.breaks < st.lines
    && FirstLinesFit(LinesOf(st.out), max)
  }

  lemma NextLineFits(lines: seq<seq<byte>>, line: seq<byte>, max: nat)
    requires FirstLinesFit(lines, max) && (|lines| >= MAX_LINES - 1 || Fits(line, max))
    ensures FirstLinesFit(lines + [line], max)
  {
  }

  lemma LastLineFits(lines: seq<seq<byte>>, line: seq<byte>, max: nat)
    requires lines != [] && FirstLinesFit(lines, max) && (|lines| >= MAX_LINES || Fits(line, max))
    ensures FirstLinesFit(lines[|lines| - 1 := line], max)
  {
  }

  lemma OutBelow(out: seq<byte>, tok: seq<byte>)
    requires NL !in tok
    ensures LinesOf(out + [NL] + tok) == LinesOf(out) + [tok]
  {
    LinesNewline(out);
    LinesExtend(out + [NL], tok);
    assert [] + tok == tok;
  }

  lemma PlaceBelowOk(st: Layout, tok: seq<byte>, max: nat)
    requires LayoutOk(st, max) && NL !in tok && NoBreak(tok) && st.lines < MAX_LINES
    ensures LayoutOk(PlaceBelow(st, tok), max) && LastLine(PlaceBelow(st, tok).out) == tok
  {
    OutBelow(st.out, tok);
    NextLineFits(LinesOf(st.out), tok, max);
  }

  lemma PlaceSymbolOk(st: Layout, tok: seq<byte>, max: nat)
    requires LayoutOk(st, max) && Closed(LastLine(st.out)) && NL !in tok && VisibleLen(tok) == 1 <= max
    ensures LayoutOk(PlaceSymbol(st, tok), max)
    ensures Closed(tok) ==> Closed(LastLine(PlaceSymbol(st, tok).out))
  {
    if st.lineLen > 0 {
      OutBelow(st.out, tok);
      NextLineFits(LinesOf(st.out), tok, max);
    } else {
      Extended(st, tok, max);
    }
  }

  lemma PlaceBesideOk(st: Layout, tok: seq<byte>, max: nat)
    requires LayoutOk(st, max) && Closed(LastLine(st.out)) && NL !in tok && NoBreak(tok) && tok != []
    requires !Overflows(st, VisibleLen(tok), max)
    ensures LayoutOk(PlaceBeside(st, tok), max)
    ensures Closed(tok) ==> Closed(LastLine(PlaceBeside(st, tok).out))
  {
    if VisibleLen(tok) > 0 && st.lineLen > 0 {
      VisibleSpace(tok);
      Extended(st, [SP] + tok, max);
      Assoc(st.out, [SP], tok);
    } else {
      if VisibleLen(tok) == 0 { TagsBeside(st, tok, max); }
      Extended(st, tok, max);
    }
  }

  /** A token of tags alone keeps a line that fits, or is one word, that way. */
  lemma TagsBeside(st: Layout, tok: seq<byte>, max: nat)
    requires LayoutOk(st, max) && Closed(LastLine(st.out)) && NoBreak(tok) && tok != [] && VisibleLen(tok) == 0
    ensures Ascii(tok[0])
    ensures st.lines >= MAX_LINES || st.lineLen <= max || NoBreak(LastLine(st.out) + tok)
  {
    if st.lines < MAX_LINES && st.lineLen > max {
      assert Fits(LinesOf(st.out)[st.lines - 1], max);
      NoBreakAppend(LastLine(st.out), tok);
    }
  }

  lemma VisibleSpace(tok: seq<byte>)
    ensures VisibleLen([SP] + tok) == 1 + VisibleLen(tok)
    ensures Closed([SP] + tok) <==> Closed(tok)
  {
    assert ([SP] + tok)[1..] == tok;
    ClosedSpace();
    ClosedAppend([SP], tok);
  }

  lemma ClosedSpace()
    ensures Closed([SP])
  {
    assert [SP][..0] == [];
  }

  lemma LastExtended(out: seq<byte>, t: seq<byte>)
    requires NL !in t
    ensures LastLine(out + t) == LastLine(out) + t && |LinesOf(out + t)| == |LinesOf(out)|
    ensures Closed(LastLine(out)) && Closed(t) ==> Closed(LastLine(out + t))
  {
    LinesExtend(out, t);
    if Closed(LastLine(out)) { ClosedAppend(LastLine(out), t); }
  }

  lemma LinesExtended(out: seq<byte>, t: seq<byte>, max: nat)
    requires NL !in t && FirstLinesFit(LinesOf(out), max)
    requires |LinesOf(out)| >= 3 || Fits(LastLine(out) + t, max)
    ensures FirstLinesFit(LinesOf(out + t), max)
  {
    LinesExtend(out, t);
    LastLineFits(LinesOf(out), LastLine(out) + t, max);
  }

  /** Appending `t` to the current line keeps the layout sound if the longer line fits. */
  lemma Extended(st: Layout, t: seq<byte>, max: nat)
    requires LayoutOk(st, max) && Closed(LastLine(st.out)) && NL !in t
    requires t == [] || Ascii(t[0]) || st.lineLen == 0
    requires st.lines >= MAX_LINES || st.lineLen + VisibleLen(t) <= max || NoBreak(LastLine(st.out) + t)
    ensures LayoutOk(st.(out := st.out + t, lineLen := st.lineLen + VisibleLen(t)), max)
    ensures Closed(t) ==> Closed(LastLine(st.out + t))
  {
    VisibleAppend(LastLine(st.out), t);
    LastExtended(st.out, t);
    LinesExtended(st.out, t, max);
  }

  lemma PlaceOk(st: Layout, tok: seq<byte>, symbol: bool, max: nat)
    requires LayoutOk(st, max) && Closed(LastLine(st.out)) && NL !in tok && NoBreak(tok) && tok != [] && 1 <= max
    ensures LayoutOk(Place(st, tok, symbol, max), max)
    ensures Closed(tok) ==> Closed(LastLine(Place(st, tok, symbol, max).out))
  {
    var w := VisibleLen(tok);
    if symbol && w == 1 { PlaceSymbolOk(st, tok, max); }
    else if Overflows(st, w, max) { PlaceBelowOk(st, tok, max); }
    else { PlaceBesideOk(st, tok, max); }
  }

  lemma {:induction false} FillLineOk(st: Layout, line: seq<byte>, symbol: bool, max: nat)
    requires LayoutOk(st, max) && Closed(LastLine(st.out)) && NL !in line && 1 <= max
    ensures LayoutOk(FillLine(st, line, symbol, max), max)
    decreases |line|
  {
    if line != [] {
      if line[0] == SP { FillLineOk(st, line[1..], symbol, max); } else {
        TokenIsOneWord(line);
        var e := TokenEnd(line, 0);
        PlaceOk(st, line[..e], symbol, max);
        if e < |line| { FillLineOk(Place(st, line[..e], symbol, max), line[e..], symbol, max); }
      }
    }
  }

  /** A line without content leaves the layout alone. */
  lemma {:induction false} FillLineIdle(st: Layout, line: seq<byte>, symbol: bool, max: nat)
    requires !HasContent(line)
    ensures FillLine(st, line, symbol, max) == st
    decreases |line|
  {
    if line != [] {
      assert line[0] == SP;
      forall i | 0 <= i < |line[1..]| ensures line[1..][i] == SP { assert line[i + 1] == SP; }
      FillLineIdle(st, line[1..], symbol, max);
    }
  }

  lemma EndLineOk(filled: Layout, line: seq<byte>, max: nat)
    requires LayoutOk(filled, max) && (HasContent(line) || LastLine(filled.out) == [])
    ensures LayoutOk(EndLine(filled, line), max) && LastLine(EndLine(filled, line).out) == []
  {
    LinesNewline(filled.out);
    var none: seq<byte> := [];
    assert VisibleLen(none) == 0;
    NextLineFits(LinesOf(filled.out), none, max);
  }

  lemma {:induction false} FillAllOk(st: Layout, buf: seq<byte>, symbol: bool, max: nat)
    requires LayoutOk(st, max) && LastLine(st.out) == [] && 1 <= max
    ensures LayoutOk(FillAll(st, buf, symbol, max), max)
    decreases |buf|
  {
    if buf != [] {
      var e := Find(buf, NL);
      var line := buf[..e];
      var filled := FillLine(st, line, symbol, max);
      FillLineOk(st, line, symbol, max);
      if e < |buf| {
        if !HasContent(line) { FillLineIdle(st, line, symbol, max); }
        EndLineOk(filled, line, max);
        FillAllOk(EndLine(filled, line), buf[e + 1..], symbol, max);
      }
    }
  }

  /** The wrap as a whole: its counters are exact, the width test breaks at most twice,
      and every output line before the third is at most max_chars wide or one word. */
  lemma WrapFits(raw: seq<byte>, hd: bool)
    ensures LayoutOk(Wrapped(raw, hd), if hd then 67 else 37)
  {
    FillAllOk(Blank, Collapse(raw), WholeCueIsSymbol(raw), MaxChars(hd));
  }

  // ------------------------------------------------------------ content and validity

  lemma PlaceContent(st: Layout, tok: seq<byte>, symbol: bool, max: nat)
    ensures NonWs(Place(st, tok, symbol, max).out) == NonWs(st.out) + NonWs(tok)
    ensures Valid(st.out) && Valid(tok) ==> Valid(Place(st, tok, symbol, max).out)
  {
    var gap := GapOf(st, tok, symbol, max);
    Separators();
    assert Place(st, tok, symbol, max).out == st.out + gap + tok by { assert st.out + [] == st.out; }
    Joined(st.out, gap, tok);
  }

  /** What Place puts in front of a token. */
  ghost function GapOf(st: Layout, tok: seq<byte>, symbol: bool, max: nat): seq<byte> {
    var w := VisibleLen(tok);
    if symbol && w == 1 then (if st.lineLen > 0 then [NL] else [])
    else if Overflows(st, w, max) then [NL]
    else if w > 0 && st.lineLen > 0 then [SP] else []
  }

  lemma Separators()
    ensures NonWs([SP]) == [] && NonWs([NL]) == [] && Valid([SP]) && Valid([NL])
  {
    NonWsOne(SP);
    NonWsOne(NL);
    ValidOne(SP);
    ValidOne(NL);
  }

  lemma Joined(out: seq<byte>, gap: seq<byte>, tok: seq<byte>)
    requires NonWs(gap) == [] && Valid(gap)
    ensures NonWs(out + gap + tok) == NonWs(out) + NonWs(tok)
    ensures Valid(out) ==> (Valid(out + gap + tok) <==> Valid(tok))
  {
    NonWsAppend(out, gap);
    NonWsAppend(out + gap, tok);
    if Valid(out) {
      ValidAppend(out, gap);
      ValidAppend(out + gap, tok);
    }
  }

  lemma Cut(s: seq<byte>, e: nat)
    requires e <= |s|
    ensures s == s[..e] + s[e..]
  {
  }

  lemma CutContent(s: seq<byte>, a: seq<byte>, b: seq<byte>)
    requires s == a + b
    ensures NonWs(s) == NonWs(a) + NonWs(b)
  {
    NonWsAppend(a, b);
  }

  lemma Headless(s: seq<byte>, e: nat)
    requires e < |s| && IsSpace(s[e])
    ensures NonWs(s[e..]) == NonWs(s[e + 1..])
  {
    assert s[e..][1..] == s[e + 1..];
  }

  lemma {:induction false} FillLineContent(st: Layout, line: seq<byte>, symbol: bool, max: nat)
    ensures NonWs(FillLine(st, line, symbol, max).out) == NonWs(st.out) + NonWs(line)
    decreases |line|
  {
    if line != [] {
      if line[0] == SP { FillLineContent(st, line[1..], symbol, max); } else {
        TokenIsOneWord(line);
        var e := TokenEnd(line, 0);
        PlaceContent(st, line[..e], symbol, max);
        FillLineContent(Place(st, line[..e], symbol, max), line[e..], symbol, max);
        Cut(line, e);
        CutContent(line, line[..e], line[e..]);
      }
    }
  }

  lemma {:induction false} FillLineValid(st: Layout, line: seq<byte>, symbol: bool, max: nat)
    requires Valid(st.out) && Valid(line)
    ensures Valid(FillLine(st, line, symbol, max).out)
    decreases |line|
  {
    if line != [] {
      if line[0] == SP { FillLineValid(st, line[1..], symbol, max); } else {
        TokenIsOneWord(line);
        var e := TokenEnd(line, 0);
        ValidCut(line, e);
        PlaceContent(st, line[..e], symbol, max);
        FillLineValid(Place(st, line[..e], symbol, max), line[e..], symbol, max);
      }
    }
  }

  lemma {:induction false} FillAllContent(st: Layout, buf: seq<byte>, symbol: bool, max: nat)
    ensures NonWs(FillAll(st, buf, symbol, max).out) == NonWs(st.out) + NonWs(buf)
    decreases |buf|
  {
    if buf != [] {
      var e := Find(buf, NL);
      var line := buf[..e];
      var filled := FillLine(st, line, symbol, max);
      FillLineContent(st, line, symbol, max);
      if e == |buf| { assert line == buf; } else {
        EndLineContent(filled, line);
        FillAllContent(EndLine(filled, line), buf[e + 1..], symbol, max);
        Cut(buf, e);
        CutContent(buf, line, buf[e..]);
        Headless(buf, e);
      }
    }
  }

  lemma {:induction false} FillAllValid(st: Layout, buf: seq<byte>, symbol: bool, max: nat)
    requires Valid(st.out) && Valid(buf)
    ensures Valid(FillAll(st, buf, symbol, max).out)
    decreases |buf|
  {
    if buf != [] {
      var e := Find(buf, NL);
      ValidCut(buf, e);
      FillLineValid(st, buf[..e], symbol, max);
      if e < |buf| {
        var filled := FillLine(st, buf[..e], symbol, max);
        EndLineContent(filled, buf[..e]);
        ValidDropAscii(buf, e);
        FillAllValid(EndLine(filled, buf[..e]), buf[e + 1..], symbol, max);
      }
    }
  }

  lemma EndLineContent(st: Layout, line: seq<byte>)
    ensures NonWs(EndLine(st, line).out) == NonWs(st.out)
    ensures Valid(st.out) ==> Valid(EndLine(st, line).out)
  {
    Separators();
    Joined(st.out, [NL], []);
    assert st.out + [NL] + [] == st.out + [NL];
  }

  /** Nothing but whitespace is lost, added or moved, and valid text stays valid. */
  lemma NormalizeKeepsContent(raw: seq<byte>, hd: bool)
    ensures NonWs(Normalize(raw, hd)) == NonWs(raw)
    ensures Valid(raw) ==> Valid(Normalize(raw, hd))
  {
    CollapseKeepsContent(raw);
    FillAllContent(Blank, Collapse(raw), WholeCueIsSymbol(raw), MaxChars(hd));
    if Valid(raw) { FillAllValid(Blank, Collapse(raw), WholeCueIsSymbol(raw), MaxChars(hd)); }
  }

  // ------------------------------------------------------------ no needless break

  /** The width of the first word of a line that is visible at all. */
  function LeadWidth(line: seq<byte>): nat
    decreases |line|
  {
    if line == [] then 0
    else if line[0] == SP then LeadWidth(line[1..])
    else
      TokenIsOneWord(line);
      var e := TokenEnd(line, 0);
      if VisibleLen(line[..e]) > 0 then VisibleLen(line[..e]) else LeadWidth(line[e..])
  }

  /** At most `max` wide, and not a single word of just that width. */
  predicate LineNarrow(line: seq<byte>, max: nat) { VisibleLen(line) <= max && LeadWidth(line) < max }

  /** Every source line is narrow. */
  predicate Narrow(buf: seq<byte>, max: nat)
    decreases |buf|
  {
    buf != [] ==>
      var e := Find(buf, NL);
      LineNarrow(buf[..e], max) && (e < |buf| ==> Narrow(buf[e + 1..], max))
  }

  /** The room a word that follows another one directly still needs for its space. */
  function Gap(lineLen: nat, line: seq<byte>): nat { if lineLen > 0 && line != [] && line[0] != SP then 1 else 0 }

  /** What is left of a source line has room behind what is written of it. */
  ghost predicate HasRoom(lineLen: nat, line: seq<byte>, max: nat) {
    if lineLen == 0 then LineNarrow(line, max) else lineLen + VisibleLen(line) + Gap(lineLen, line) <= max
  }

  lemma RoomAfterSpace(lineLen: nat, line: seq<byte>, max: nat)
    requires HasRoom(lineLen, line, max) && line != [] && line[0] == SP
    ensures HasRoom(lineLen, line[1..], max)
  {
  }

  lemma TokenWidth(line: seq<byte>)
    requires line != [] && line[0] != SP
    ensures var e := TokenEnd(line, 0);
            && 0 < e && (line[e..] == [] || line[e..][0] == SP)
            && VisibleLen(line) == VisibleLen(line[..e]) + VisibleLen(line[e..])
  {
    TokenIsOneWord(line);
    var e := TokenEnd(line, 0);
    assert line == line[..e] + line[e..];
    if e < |line| { VisibleAppend(line[..e], line[e..]); } else { assert line[..e] == line && line[e..] == []; }
  }

  lemma RoomAfterToken(lineLen: nat, line: seq<byte>, max: nat)
    requires HasRoom(lineLen, line, max) && line != [] && line[0] != SP
    ensures var e := TokenEnd(line, 0); var w := VisibleLen(line[..e]);
            && 0 < e && (w == 0 ==> HasRoom(lineLen, line[e..], max))
            && (w > 0 ==> lineLen + w + 1 <= max && HasRoom(w, line[e..], max)
                          && (lineLen > 0 ==> HasRoom(lineLen + 1 + w, line[e..], max)))
  {
    TokenWidth(line);
  }

  lemma {:induction false} NarrowLineStays(st: Layout, line: seq<byte>, symbol: bool, max: nat)
    requires HasRoom(st.lineLen, line, max)
    ensures FillLine(st, line, symbol, max).breaks == st.breaks
    decreases |line|
  {
    if line != [] {
      if line[0] == SP {
        RoomAfterSpace(st.lineLen, line, max);
        NarrowLineStays(st, line[1..], symbol, max);
      } else {
        RoomAfterToken(st.lineLen, line, max);
        var e := TokenEnd(line, 0);
        NarrowLineStays(Place(st, line[..e], symbol, max), line[e..], symbol, max);
      }
    }
  }

  lemma {:induction false} NarrowStays(st: Layout, buf: seq<byte>, symbol: bool, max: nat)
    requires Narrow(buf, max) && st.lineLen == 0
    ensures FillAll(st, buf, symbol, max).breaks == st.breaks
    decreases |buf|
  {
    if buf != [] {
      var e := Find(buf, NL);
      var line := buf[..e];
      NarrowLineStays(st, line, symbol, max);
      if e < |buf| {
        if !HasContent(line) { FillLineIdle(st, line, symbol, max); }
        NarrowStays(EndLine(FillLine(st, line, symbol, max), line), buf[e + 1..], symbol, max);
      }
    }
  }

  /** The width test breaks no cue whose source lines are at most max_chars wide, unless such
      a line is a single word of just that width. */
  lemma NoNeedlessBreak(raw: seq<byte>, hd: bool)
    requires Narrow(Collapse(raw), if hd then 67 else 37)
    ensures Wrapped(raw, hd).breaks == 0
  {
    NarrowStays(Blank, Collapse(raw), WholeCueIsSymbol(raw), MaxChars(hd));
  }

  // ------------------------------------------------------------ symbol cues

  /** For structurally valid text a symbol cue is, without its tags, one character of several bytes. */
  lemma SymbolIff(raw: seq<byte>)
    requires Valid(StripTags(raw))
    ensures var plain := StripTags(raw);
            WholeCueIsSymbol(raw) <==>
            plain != [] && plain[0] >= 0xC0 && forall i :: 1 <= i < |plain| ==> 0x80 <= plain[i] < 0xC0
  {
    var plain := StripTags(raw);
    if plain != [] { OneCharacter(plain); }
  }

  lemma OneCharacter(s: seq<byte>)
    requires Valid(s) && s != []
    ensures U8Len(s) == 1 <==> Unit(s) == |s|
    ensures Unit(s) == |s| <==> forall i :: 1 <= i < |s| ==> 0x80 <= s[i] < 0xC0
  {
    var n := Unit(s);
    if n < |s| { NextLeads(s[n..]); assert s[n..][0] == s[n]; }
  }

  lemma NextLeads(s: seq<byte>)
    requires Valid(s) && s != []
    ensures !Continuation(s[0]) && U8Len(s) >= 1
  {
  }

  lemma {:induction false} IdleLine(st: Layout, line: seq<byte>, max: nat)
    requires HasRoom(st.lineLen, line, 2) && 2 <= max
    ensures FillLine(st, line, true, max) == FillLine(st, line, false, max)
    decreases |line|
  {
    if line != [] {
      if line[0] == SP {
        RoomAfterSpace(st.lineLen, line, 2);
        IdleLine(st, line[1..], max);
      } else {
        RoomAfterToken(st.lineLen, line, 2);
        var e := TokenEnd(line, 0);
        assert Place(st, line[..e], true, max) == Place(st, line[..e], false, max);
        IdleLine(Place(st, line[..e], false, max), line[e..], max);
      }
    }
  }

  lemma {:induction false} IdleLines(st: Layout, buf: seq<byte>, max: nat)
    requires Narrow(buf, 2) && st.lineLen == 0 && 2 <= max
    ensures FillAll(st, buf, true, max) == FillAll(st, buf, false, max)
    decreases |buf|
  {
    if buf != [] {
      var e := Find(buf, NL);
      var line := buf[..e];
      IdleLine(st, line, max);
      if e < |buf| {
        if !HasContent(line) { FillLineIdle(st, line, false, max); }
        IdleLines(EndLine(FillLine(st, line, false, max), line), buf[e + 1..], max);
      }
    }
  }

  /** On a cue with one visible character per line the special treatment of symbols is idle. */
  lemma SymbolIdle(raw: seq<byte>, hd: bool)
    requires Narrow(Collapse(raw), 2)
    ensures Wrapped(raw, hd) == FillAll(Blank, Collapse(raw), false, if hd then 67 else 37)
  {
    IdleLines(Blank, Collapse(raw), MaxChars(hd));
  }
}
