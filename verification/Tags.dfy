/** Inline markup in cue text: skipping, stripping and measuring around `<...>` and
    `{...}`, and the small in-place edits of src/srt_parser.c. */
module Tags {
  import opened Utf8

  const NL: byte := 10
  const CR: byte := 13
  const SP: byte := 32
  const BACKSLASH: byte := 92
  const SMALL_H: byte := 104
  const LT: byte := 60
  const GT: byte := 62
  const LBRACE: byte := 123
  const RBRACE: byte := 125

  /** strchr: the first position of `c`, `|s|` when it does not occur. */
  function Find(s: seq<byte>, c: byte): (k: nat)
    ensures k <= |s| && c !in s[..k] && (k < |s| ==> s[k] == c) && (k < |s| <==> c in s)
  {
    if s == [] || s[0] == c then 0 else
      var k := 1 + Find(s[1..], c);
      assert s[..k] == [s[0]] + s[1..][..k - 1];
      assert s == [s[0]] + s[1..];
      k
  }

  /** The byte that closes the tag `s` would open, if it starts with an opener. */
  function Closer(s: seq<byte>): (c: byte)
    requires s != []
  {
    if s[0] == LT then GT else RBRACE
  }

  /** The length of the closed tag `s` starts with; 0 when it starts with none. */
  function TagLen(s: seq<byte>): (n: nat)
    requires s != []
    ensures n <= |s|
    ensures n > 0 <==> s[0] in [LT, LBRACE] && Closer(s) in s
    ensures n > 0 ==> n >= 2 && s[n - 1] == Closer(s)
  {
    if s[0] in [LT, LBRACE] && Closer(s) in s then Find(s, Closer(s)) + 1 else 0
  }

  function StripTags(s: seq<byte>): seq<byte> {
    if s == [] then []
    else if TagLen(s) > 0 then StripTags(s[TagLen(s)..])
    else [s[0]] + StripTags(s[1..])
  }

  /** visible_len: characters outside closed tags. */
  function VisibleLen(s: seq<byte>): nat {
    if s == [] then 0
    else if TagLen(s) > 0 then VisibleLen(s[TagLen(s)..])
    else 1 + VisibleLen(s[Advance(s)..])
  }

  /** No position starts a closed tag. */
  predicate TagFree(s: seq<byte>) {
    s != [] ==> TagLen(s) == 0 && TagFree(s[1..])
  }

  lemma {:induction false} StripSubset(s: seq<byte>)
    ensures forall c :: c in StripTags(s) ==> c in s
    ensures |StripTags(s)| <= |s|
  {
    if s != [] {
      if TagLen(s) > 0 { StripSubset(s[TagLen(s)..]); } else { StripSubset(s[1..]); }
    }
  }

  /** Stripping removes every closed tag, is the identity exactly where there is none,
      and so is idempotent. */
  lemma {:induction false} StripTagsIdempotent(s: seq<byte>)
    ensures TagFree(StripTags(s))
    ensures StripTags(s) == s <==> TagFree(s)
    ensures StripTags(StripTags(s)) == StripTags(s)
  {
    StripLeavesNoTag(s);
    StripIdentity(StripTags(s));
    if TagFree(s) { StripIdentity(s); }
  }

  lemma {:induction false} StripLeavesNoTag(s: seq<byte>)
    ensures TagFree(StripTags(s))
  {
    if s != [] {
      if TagLen(s) > 0 { StripLeavesNoTag(s[TagLen(s)..]); } else {
        StripLeavesNoTag(s[1..]);
        StripSubset(s[1..]);
        assert StripTags(s)[1..] == StripTags(s[1..]);
      }
    }
  }

  lemma {:induction false} StripIdentity(s: seq<byte>)
    requires TagFree(s)
    ensures StripTags(s) == s
  {
    if s != [] { StripIdentity(s[1..]); }
  }

  /** Bytes that cannot open a tag are copied one by one. */
  lemma {:induction false} StripPlain(a: seq<byte>, b: seq<byte>)
    requires forall c :: c in a ==> Continuation(c)
    ensures StripTags(a + b) == a + StripTags(b)
  {
    if a == [] { assert a + b == b; } else {
      assert Continuation(a[0]);
      assert (a + b)[1..] == a[1..] + b;
      StripPlain(a[1..], b);
      Assoc([a[0]], a[1..], StripTags(b));
      assert [a[0]] + a[1..] == a;
    }
  }

  lemma StripCopies(a: seq<byte>, b: seq<byte>)
    requires a != [] && TagLen(a + b) == 0 && forall i :: 1 <= i < |a| ==> Continuation(a[i])
    ensures StripTags(a + b) == a + StripTags(b)
  {
    assert (a + b)[1..] == a[1..] + b;
    StripPlain(a[1..], b);
    Assoc([a[0]], a[1..], StripTags(b));
    assert [a[0]] + a[1..] == a;
  }

  lemma {:induction false} StripTagsValid(s: seq<byte>)
    requires Valid(s)
    ensures Valid(StripTags(s)) && U8Len(StripTags(s)) == VisibleLen(s)
  {
    if s != [] {
      var n := TagLen(s);
      if n > 0 {
        ValidAfterTag(s);
        StripTagsValid(s[n..]);
      } else {
        StripTagsValid(s[Unit(s)..]);
        ValidBeforeUnit(s);
      }
    }
  }

  lemma ValidAfterTag(s: seq<byte>)
    requires Valid(s) && s != [] && TagLen(s) > 0
    ensures Valid(s[TagLen(s)..])
  {
    ValidDropAscii(s, TagLen(s) - 1);
  }

  lemma ValidBeforeUnit(s: seq<byte>)
    requires s != [] && Unit(s) > 0 && TagLen(s) == 0 && Valid(StripTags(s[Unit(s)..]))
    ensures Valid(StripTags(s)) && U8Len(StripTags(s)) == 1 + U8Len(StripTags(s[Unit(s)..]))
  {
    var a, b := s[..Unit(s)], s[Unit(s)..];
    assert a + b == s;
    StripCopies(a, b);
    UnitIsValid(s);
    ValidAppend(a, StripTags(b));
  }

  lemma UnitIsValid(s: seq<byte>)
    requires s != [] && Unit(s) > 0
    ensures Valid(s[..Unit(s)]) && U8Len(s[..Unit(s)]) == 1
  {
    UnitOfPrefixOnly(s, Unit(s));
    assert s[..Unit(s)][Unit(s)..] == [];
  }

  /** Putting one byte in front adds at most one character, whatever it joins up with. */
  lemma OneMoreByte(b: byte, s: seq<byte>)
    ensures U8Len([b] + s) <= 1 + U8Len(s)
  {
    var n := Advance([b] + s);
    assert ([b] + s)[n..] == s[n - 1..];
    forall i | 0 <= i < n - 1 ensures Continuation(s[i]) { assert ([b] + s)[i + 1] == s[i]; }
    StrayCount(s, n - 1);
  }

  lemma {:induction false} StrayCount(s: seq<byte>, k: nat)
    requires k <= |s| && forall i :: 0 <= i < k ==> Continuation(s[i])
    ensures U8Len(s[k..]) <= U8Len(s)
  {
    if k > 0 {
      assert Continuation(s[0]) && Unit(s) == 0;
      StrayCount(s[1..], k - 1);
      assert s[1..][k - 1..] == s[k..];
    } else { assert s[0..] == s; }
  }

  lemma StrippedHead(s: seq<byte>)
    requires s != [] && TagLen(s) == 0
    ensures U8Len(StripTags(s)) <= 1 + U8Len(StripTags(s[Advance(s)..]))
  {
    if Unit(s) > 0 {
      var a, b := s[..Unit(s)], s[Unit(s)..];
      assert a + b == s;
      StripCopies(a, b);
      UnitIsValid(s);
      ValidAppend(a, StripTags(b));
    } else { OneMoreByte(s[0], StripTags(s[1..])); }
  }

  /** On any bytes the visible length is at least the character count of the stripped
      text; stripping can only join a truncated sequence with its continuation. */
  lemma {:induction false} VisibleAtLeastStripped(s: seq<byte>)
    ensures VisibleLen(s) >= U8Len(StripTags(s))
  {
    if s != [] {
      if TagLen(s) > 0 { VisibleAtLeastStripped(s[TagLen(s)..]); } else {
        var n := Advance(s);
        VisibleAtLeastStripped(s[n..]);
        StrippedHead(s);
      }
    }
  }

  /** The inequality can be strict: stripping joins the two halves of a character. */
  lemma StrippingCanJoin()
    ensures exists s: seq<byte> :: VisibleLen(s) > U8Len(StripTags(s))
  {
    var end: seq<byte> := [0xA9];
    assert end[1..] == [] && VisibleLen(end) == 1 && StripTags(end) == end;
    var tag: seq<byte> := [LT, GT, 0xA9];
    assert tag[1..][0] == GT && Find(tag, GT) == 1 && tag[2..] == end;
    assert VisibleLen(tag) == 1 && StripTags(tag) == end;
    var s: seq<byte> := [0xC3, LT, GT, 0xA9];
    assert s[1..] == tag && VisibleLen(s) == 2;
    var joined: seq<byte> := [0xC3, 0xA9];
    assert StripTags(s) == joined && joined[2..] == [] && U8Len(joined) == 1;
  }

  // ------------------------------------------------------------ in-place edits

  predicate StartsWithEscape(s: seq<byte>) { |s| >= 2 && s[0] == BACKSLASH && s[1] == SMALL_H }

  /** remove_ass_h: drop each `\h`, resuming at the byte behind it. */
  function RemoveH(s: seq<byte>): seq<byte> {
    if s == [] then [] else if StartsWithEscape(s) then RemoveH(s[2..]) else [s[0]] + RemoveH(s[1..])
  }

  /** replace_ass_h: each `\h` becomes a space. */
  function ReplaceH(s: seq<byte>): seq<byte> {
    if s == [] then [] else if StartsWithEscape(s) then [SP] + ReplaceH(s[2..]) else [s[0]] + ReplaceH(s[1..])
  }

  function Rstrip(s: seq<byte>): seq<byte> {
    if s != [] && s[|s| - 1] in [NL, CR] then Rstrip(s[..|s| - 1]) else s
  }

  lemma {:induction false} EditsPlain(a: seq<byte>, b: seq<byte>)
    requires forall c :: c in a ==> Continuation(c)
    ensures RemoveH(a + b) == a + RemoveH(b) && ReplaceH(a + b) == a + ReplaceH(b)
  {
    if a == [] { assert a + b == b; } else {
      assert Continuation(a[0]);
      assert (a + b)[1..] == a[1..] + b;
      EditsPlain(a[1..], b);
      Assoc([a[0]], a[1..], RemoveH(b));
      Assoc([a[0]], a[1..], ReplaceH(b));
      assert [a[0]] + a[1..] == a;
    }
  }

  lemma EditsCopy(a: seq<byte>, b: seq<byte>)
    requires a != [] && !StartsWithEscape(a + b) && forall i :: 1 <= i < |a| ==> Continuation(a[i])
    ensures RemoveH(a + b) == a + RemoveH(b) && ReplaceH(a + b) == a + ReplaceH(b)
  {
    assert (a + b)[1..] == a[1..] + b;
    EditsPlain(a[1..], b);
    Assoc([a[0]], a[1..], RemoveH(b));
    Assoc([a[0]], a[1..], ReplaceH(b));
    assert [a[0]] + a[1..] == a;
  }

  /** The `\h` edits and the trailing trim keep structural validity. */
  lemma {:induction false} EditsValid(s: seq<byte>)
    requires Valid(s)
    ensures Valid(RemoveH(s)) && Valid(ReplaceH(s))
  {
    if s != [] {
      if StartsWithEscape(s) {
        ValidDropAscii(s, 1);
        EditsValid(s[2..]);
        ValidOne(SP);
        ValidAppend([SP], ReplaceH(s[2..]));
      } else {
        var a, b := s[..Unit(s)], s[Unit(s)..];
        assert a + b == s;
        EditsCopy(a, b);
        EditsValid(b);
        UnitIsValid(s);
        ValidAppend(a, RemoveH(b));
        ValidAppend(a, ReplaceH(b));
      }
    }
  }

  lemma {:induction false} RstripValid(s: seq<byte>)
    requires Valid(s)
    ensures Valid(Rstrip(s))
  {
    if s != [] && s[|s| - 1] in [NL, CR] {
      ValidDropAscii(s, |s| - 1);
      RstripValid(s[..|s| - 1]);
    }
  }

  // ------------------------------------------------------------ what the edits leave

  predicate NoEscape(s: seq<byte>) { forall i :: 0 <= i < |s| - 1 ==> !(s[i] == 92 && s[i + 1] == 104) }

  /** Text without `\h` stays as it is. */
  lemma {:induction false} EditsIdle(s: seq<byte>)
    requires NoEscape(s)
    ensures RemoveH(s) == s && ReplaceH(s) == s
  {
    if s != [] {
      forall i | 0 <= i < |s[1..]| - 1 ensures !(s[1..][i] == 92 && s[1..][i + 1] == 104) {
        assert s[1..][i] == s[i + 1] && s[1..][i + 1] == s[i + 2];
      }
      EditsIdle(s[1..]);
    }
  }

  /** The first `\h` goes, or becomes a space; the text before it stays, and the rest is
      edited on its own. */
  lemma {:induction false} EditsFirst(a: seq<byte>, b: seq<byte>)
    requires NoEscape(a)
    ensures RemoveH(a + ([92, 104] + b)) == a + RemoveH(b)
    ensures ReplaceH(a + ([92, 104] + b)) == a + ([32] + ReplaceH(b))
  {
    var s := a + ([92, 104] + b);
    if a == [] {
      assert s == [92, 104] + b && s[2..] == b;
    } else {
      assert s[1..] == a[1..] + ([92, 104] + b);
      forall i | 0 <= i < |a[1..]| - 1 ensures !(a[1..][i] == 92 && a[1..][i + 1] == 104) {
        assert a[1..][i] == a[i + 1] && a[1..][i + 1] == a[i + 2];
      }
      EditsFirst(a[1..], b);
      assert a == [a[0]] + a[1..];
    }
  }

  /** The trim takes exactly the line break bytes at the end, so `\r\n` too. */
  lemma {:induction false} RstripIs(s: seq<byte>)
    ensures Rstrip(s) <= s && (forall i :: |Rstrip(s)| <= i < |s| ==> s[i] == 10 || s[i] == 13)
    ensures Rstrip(s) != [] ==> Rstrip(s)[|Rstrip(s)| - 1] != 10 && Rstrip(s)[|Rstrip(s)| - 1] != 13
  {
    if s != [] && s[|s| - 1] in [NL, CR] { RstripIs(s[..|s| - 1]); }
  }

  /** Text in front of the first opener is copied. */
  lemma {:induction false} StripFront(a: seq<byte>, s: seq<byte>)
    requires 60 !in a && 123 !in a
    ensures StripTags(a + s) == a + StripTags(s)
  {
    if a == [] { assert a + s == s; } else {
      assert a[0] in a && (a + s)[0] == a[0] && TagLen(a + s) == 0;
      assert (a + s)[1..] == a[1..] + s;
      StripFront(a[1..], s);
      Assoc([a[0]], a[1..], StripTags(s));
      assert a == [a[0]] + a[1..];
    }
  }

  predicate Brackets(l: byte, r: byte) { (l == 60 && r == 62) || (l == 123 && r == 125) }

  /** `<` goes with everything up to the next `>`, `{` up to the next `}`. */
  lemma StripClosed(s: seq<byte>, r: byte, k: nat)
    requires 0 < k < |s| && Brackets(s[0], r) && s[k] == r && forall i :: 0 < i < k ==> s[i] != r
    ensures StripTags(s) == StripTags(s[k + 1..])
  {
    FindIs(s, r, k);
  }

  /** An opener without its closer is text. */
  lemma StripUnclosed(s: seq<byte>, r: byte)
    requires s != [] && Brackets(s[0], r) && r !in s
    ensures StripTags(s) == [s[0]] + StripTags(s[1..])
  {
  }

  lemma {:induction false} FindIs(s: seq<byte>, c: byte, k: nat)
    requires k < |s| && s[k] == c && forall i :: 0 <= i < k ==> s[i] != c
    ensures Find(s, c) == k
  {
    if k > 0 { FindIs(s[1..], c, k - 1); }
  }

  // ---------------------------------------------------------------- the loops

  method FindByte(s: seq<byte>, from: nat, c: byte) returns (q: nat)
    requires from <= |s|
    ensures q == from + Find(s[from..], c)
  {
    q := from;
    while q < |s| && s[q] != c
      invariant from <= q <= |s| && q + Find(s[q..], c) == from + Find(s[from..], c)
    {
      assert s[q..][1..] == s[q + 1..];
      q := q + 1;
    }
  }

  /** The tag at byte `p`, found by searching for its closer. */
  method TagAt(s: seq<byte>, p: nat) returns (n: nat)
    requires p < |s|
    ensures n == TagLen(s[p..])
  {
    n := 0;
    if s[p] in [LT, LBRACE] {
      var q := FindByte(s, p, if s[p] == LT then GT else RBRACE);
      if q < |s| { n := q - p + 1; }
    }
  }

  method StripTagsLoop(s: seq<byte>) returns (out: seq<byte>)
    ensures out == StripTags(s)
  {
    out := [];
    var i := 0;
    ghost var rest, all := s, StripTags(s);
    while i < |s|
      invariant 0 <= i <= |s| && rest == s[i..] && out + StripTags(rest) == all
    {
      var n := TagAt(s, i);
      if n == 0 { out, n := out + [s[i]], 1; }
      rest, i := rest[n..], i + n;
    }
  }

  method MeasureVisible(s: seq<byte>) returns (count: nat)
    ensures count == VisibleLen(s)
  {
    count := 0;
    var p := 0;
    ghost var rest, all := s, VisibleLen(s);
    while p < |s|
      invariant 0 <= p <= |s| && rest == s[p..] && count + VisibleLen(rest) == all
    {
      var n := TagAt(s, p);
      if n == 0 { n, count := Advance(s[p..]), count + 1; }
      rest, p := rest[n..], p + n;
    }
  }

  /** remove_ass_h on the text itself: the tail moves left over each escape found. */
  method RemoveEscapes(s: seq<byte>) returns (text: seq<byte>)
    ensures text == RemoveH(s)
  {
    text := s;
    var p := 0;
    while p < |text|
      invariant 0 <= p <= |text| && text[..p] + RemoveH(text[p..]) == RemoveH(s)
      decreases |text| - p
    {
      ghost var t := text[p..];
      if p + 1 < |text| && text[p] == BACKSLASH && text[p + 1] == SMALL_H {
        assert t[2..] == text[p + 2..];
        text := text[..p] + text[p + 2..];
        assert text[p..] == t[2..];
      } else {
        assert t[1..] == text[p + 1..];
        assert text[..p + 1] == text[..p] + [t[0]];
        p := p + 1;
      }
    }
  }

  /** replace_ass_h: a space takes the place of each escape found. */
  method ReplaceEscapes(s: seq<byte>) returns (text: seq<byte>)
    ensures text == ReplaceH(s)
  {
    text := s;
    var p := 0;
    while p < |text|
      invariant 0 <= p <= |text| && text[..p] + ReplaceH(text[p..]) == ReplaceH(s)
      decreases |text| - p
    {
      ghost var t, done := text[p..], text[..p];
      if p + 1 < |text| && text[p] == BACKSLASH && text[p + 1] == SMALL_H {
        assert t[2..] == text[p + 2..];
        text := text[..p] + [SP] + text[p + 2..];
        assert text[p + 1..] == t[2..] && text[..p + 1] == done + [SP];
        Assoc(done, [SP], ReplaceH(t[2..]));
      } else {
        assert t[1..] == text[p + 1..] && text[..p + 1] == done + [t[0]];
        Assoc(done, [t[0]], ReplaceH(t[1..]));
      }
      p := p + 1;
    }
  }

  method TrimEnd(s: seq<byte>) returns (text: seq<byte>)
    ensures text == Rstrip(s)
  {
    text := s;
    while |text| > 0 && text[|text| - 1] in [NL, CR]
      invariant Rstrip(text) == Rstrip(s)
    {
      text := text[..|text| - 1];
    }
  }
}
