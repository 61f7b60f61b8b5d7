/** normalize_cue_text as the program runs it: loops over a byte cursor with the
    variables out, line_len and lines, each proved to compute its function in Wrap. */
module WrapLoops {
  import opened Utf8
  import opened Tags
  import opened Wrap

  /** Step 1: collapse whitespace; the flag says the last byte written is a space. */
  method CollapseWhitespace(raw: seq<byte>) returns (buf: seq<byte>)
    ensures buf == Collapse(raw)
  {
    buf := [];
    var lastSpace := false;
    var p := 0;
    while p < |raw|
      invariant 0 <= p <= |raw| && buf == Collapse(raw[..p]) && lastSpace == EndsWith(buf, SP)
    {
      var ch := raw[p];
      assert raw[..p + 1][..p] == raw[..p];
      if ch == NL {
        if lastSpace { buf := buf[|buf| - 1 := NL]; } else { buf := buf + [NL]; }
        lastSpace := false;
      } else if IsSpace(ch) {
        if !lastSpace { buf, lastSpace := buf + [SP], true; }
      } else {
        buf, lastSpace := buf + [ch], false;
      }
      p := p + 1;
    }
    assert raw[..p] == raw;
  }

  /** The token scan with its two flags. */
  method ScanToken(line: seq<byte>) returns (e: nat)
    ensures e == TokenEnd(line, 0)
  {
    e := 0;
    var inAngle, inBrace := false, false;
    while e < |line| && !(!inAngle && !inBrace && line[e] == SP)
      invariant e <= |line| && TokenEnd(line, e) == TokenEnd(line, 0)
      invariant inAngle == Open(line[..e], LT, GT) && inBrace == Open(line[..e], LBRACE, RBRACE)
    {
      assert line[..e + 1][..e] == line[..e];
      if line[e] == LT { inAngle := true; }
      else if line[e] == GT && inAngle { inAngle := false; }
      else if line[e] == LBRACE { inBrace := true; }
      else if line[e] == RBRACE && inBrace { inBrace := false; }
      e := e + 1;
    }
  }

  method PlaceToken(out: seq<byte>, lineLen: nat, lines: nat, ghost breaks: nat,
                    tok: seq<byte>, symbol: bool, max: nat)
    returns (o: seq<byte>, len: nat, n: nat, ghost b: nat)
    ensures var r := Place(Layout(out, lineLen, lines, breaks), tok, symbol, max);
            o == r.out && len == r.lineLen && n == r.lines
    ensures b == Place(Layout(out, lineLen, lines, breaks), tok, symbol, max).breaks
  {
    o, len, n, b := out, lineLen, lines, breaks;
    var w := MeasureVisible(tok);
    if symbol && w == 1 {
      if len > 0 { o, n := o + [NL], n + 1; }
      o, len := o + tok, w;
    } else if w > 0 && len + w + 1 > max && n < MAX_LINES {
      o, len, n, b := o + [NL], 0, n + 1, b + 1;
      o, len := o + tok, w;
    } else {
      if w > 0 && len > 0 { o, len := o + [SP], len + 1; }
      o, len := o + tok, len + w;
    }
  }

  /** The tokens of one source line. */
  method FillFrom(out: seq<byte>, lineLen: nat, lines: nat, ghost breaks: nat,
                  line: seq<byte>, symbol: bool, max: nat)
    returns (o: seq<byte>, len: nat, n: nat, ghost b: nat, hasContent: bool)
    ensures Layout(o, len, n, b) == FillLine(Layout(out, lineLen, lines, breaks), line, symbol, max)
    ensures hasContent == HasContent(line)
  {
    o, len, n, b, hasContent := out, lineLen, lines, breaks, false;
    var rest := line;
    ghost var goal := FillLine(Layout(out, lineLen, lines, breaks), line, symbol, max);
    while rest != []
      invariant FillLine(Layout(o, len, n, b), rest, symbol, max) == goal
      invariant (hasContent || HasContent(rest)) == HasContent(line)
      decreases |rest|
    {
      if rest[0] == SP {
        assert rest == [SP] + rest[1..];
        rest := rest[1..];
      } else {
        var e := ScanToken(rest);
        TokenIsOneWord(rest);
        o, len, n, b := PlaceToken(o, len, n, b, rest[..e], symbol, max);
        rest, hasContent := rest[e..], true;
      }
    }
  }

  method IsSymbolCue(raw: seq<byte>) returns (symbol: bool)
    ensures symbol == WholeCueIsSymbol(raw)
  {
    var plain := StripTagsLoop(raw);
    var count := CountCodepoints(plain);
    symbol := count == 1 && plain[0] >= 0x80;
  }

  /** One source line and the newline behind it; `left` is what is still to be laid out. */
  method FillSourceLine(out: seq<byte>, lineLen: nat, lines: nat, ghost breaks: nat,
                        rest: seq<byte>, symbol: bool, max: nat)
    returns (o: seq<byte>, len: nat, n: nat, ghost b: nat, left: seq<byte>)
    requires rest != []
    ensures var e := Find(rest, NL);
            var filled := FillLine(Layout(out, lineLen, lines, breaks), rest[..e], symbol, max);
            if e == |rest| then left == [] && Layout(o, len, n, b) == filled
            else left == rest[e + 1..] && Layout(o, len, n, b) == EndLine(filled, rest[..e])
  {
    var e := FindByte(rest, 0, NL);
    assert rest[0..] == rest;
    var hasContent;
    o, len, n, b, hasContent := FillFrom(out, lineLen, lines, breaks, rest[..e], symbol, max);
    if e == |rest| { return o, len, n, b, []; }
    if hasContent { o, n, len := o + [NL], n + 1, 0; }
    left := rest[e + 1..];
  }

  method NormalizeCueText(raw: seq<byte>, hd: bool) returns (out: seq<byte>)
    ensures out == Normalize(raw, hd)
  {
    var rest := CollapseWhitespace(raw);
    var symbol := IsSymbolCue(raw);
    var max := MaxChars(hd);
    ghost var goal, breaks := Wrapped(raw, hd), 0;
    var lineLen, lines := 0, 1;
    out := [];
    while rest != []
      invariant FillAll(Layout(out, lineLen, lines, breaks), rest, symbol, max) == goal
      decreases |rest|
    {
      out, lineLen, lines, breaks, rest := FillSourceLine(out, lineLen, lines, breaks, rest, symbol, max);
    }
  }
}
