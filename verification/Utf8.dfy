/** UTF-8 stepping, validation and repair as src/srt_parser.c does them.  A C
    string is the sequence of its bytes before the terminator.  The validity test
    is structural: lead byte and continuation bytes, nothing else. */
module Utf8 {
  type byte = b: int | 0 < b < 256 witness 1

  const QUESTION: byte := 63

  predicate Ascii(b: byte) { b < 0x80 }

  predicate Continuation(b: byte) { 0x80 <= b < 0xC0 }

  /** The length a lead byte announces, 0 for a byte that cannot lead. */
  function Announced(b: byte): nat {
    if b < 0x80 then 1 else if b < 0xC0 then 0 else if b < 0xE0 then 2
    else if b < 0xF0 then 3 else if b < 0xF8 then 4 else 0
  }

  /** validate_utf8_sequence: the length of the sequence `s` starts with, or 0. */
  function Unit(s: seq<byte>): (n: nat)
    requires s != []
    ensures n <= |s| && n <= 4 && (n > 0 ==> n == Announced(s[0]))
    ensures forall i :: 1 <= i < n ==> Continuation(s[i])
    ensures Ascii(s[0]) ==> n == 1
  {
    var n := Announced(s[0]);
    if n <= |s| && (n < 2 || Continuation(s[1])) && (n < 3 || Continuation(s[2])) && (n < 4 || Continuation(s[3]))
    then n else 0
  }

  /** How far every walk steps: a whole sequence, or one stray byte. */
  function Advance(s: seq<byte>): (n: nat)
    requires s != []
    ensures 1 <= n <= |s|
    ensures forall i :: 1 <= i < n ==> Continuation(s[i])
  {
    if Unit(s) > 0 then Unit(s) else 1
  }

  function U8Len(s: seq<byte>): nat {
    if s == [] then 0 else 1 + U8Len(s[Advance(s)..])
  }

  predicate Valid(s: seq<byte>) {
    s != [] ==> Unit(s) > 0 && Valid(s[Unit(s)..])
  }

  function Sanitize(s: seq<byte>): seq<byte> {
    if s == [] then []
    else if Unit(s) > 0 then s[..Unit(s)] + Sanitize(s[Unit(s)..])
    else [QUESTION] + Sanitize(s[1..])
  }

  /** Lead and continuation bytes by their bits. */
  lemma ByMask(v: bv8)
    requires v != 0
    ensures var b: byte := v as int;
            && (Continuation(b) <==> v & 0xC0 == 0x80)
            && Announced(b) == if v & 0x80 == 0 then 1 else if v & 0xE0 == 0xC0 then 2
                               else if v & 0xF0 == 0xE0 then 3 else if v & 0xF8 == 0xF0 then 4 else 0
  {
    MaskRanges(v);
  }

  lemma MaskRanges(v: bv8)
    ensures v & 0x80 == 0 <==> v < 0x80
    ensures v & 0xC0 == 0x80 <==> 0x80 <= v < 0xC0
    ensures v & 0xE0 == 0xC0 <==> 0xC0 <= v < 0xE0
    ensures v & 0xF0 == 0xE0 <==> 0xE0 <= v < 0xF0
    ensures v & 0xF8 == 0xF0 <==> 0xF0 <= v < 0xF8
  {
  }

  /** The first `n` bytes are one sequence: a lead byte that announces them all. */
  ghost predicate StartsCharacter(s: seq<byte>, n: nat) {
    1 <= n <= |s| && Announced(s[0]) == n && forall i :: 1 <= i < n ==> 0x80 <= s[i] < 0xC0
  }

  /** Valid text is a sequence of such sequences. */
  lemma ValidIff(s: seq<byte>)
    requires s != []
    ensures Valid(s) <==> exists n: nat :: StartsCharacter(s, n) && Valid(s[n..])
  {
    forall n: nat | StartsCharacter(s, n) ensures Unit(s) == n { }
    if Unit(s) > 0 { assert StartsCharacter(s, Unit(s)); }
  }

  /** The bytes that are no continuation bytes. */
  function Leads(s: seq<byte>): nat {
    if s == [] then 0 else (if 0x80 <= s[0] < 0xC0 then 0 else 1) + Leads(s[1..])
  }

  lemma {:induction false} LeadsAppend(a: seq<byte>, b: seq<byte>)
    ensures Leads(a + b) == Leads(a) + Leads(b)
  {
    if a == [] { assert a + b == b; } else {
      assert (a + b)[1..] == a[1..] + b;
      LeadsAppend(a[1..], b);
    }
  }

  lemma {:induction false} NoLeads(s: seq<byte>)
    requires forall i :: 0 <= i < |s| ==> Continuation(s[i])
    ensures Leads(s) == 0
  {
    if s != [] { NoLeads(s[1..]); }
  }

  /** On valid text the character count is the number of lead bytes. */
  lemma {:induction false} CountsLeads(s: seq<byte>)
    requires Valid(s)
    ensures U8Len(s) == Leads(s)
  {
    if s != [] {
      var n := Unit(s);
      CountsLeads(s[n..]);
      assert s == s[..n] + s[n..] && s[..n][1..] == s[1..n];
      LeadsAppend(s[..n], s[n..]);
      NoLeads(s[1..n]);
    }
  }

  /** A sequence is recognised by its own bytes, whatever follows. */
  lemma UnitOfPrefix(a: seq<byte>, b: seq<byte>)
    requires a != [] && Unit(a) > 0
    ensures Unit(a + b) == Unit(a)
  {
    var n := Unit(a);
    assert forall i :: 0 <= i < n ==> (a + b)[i] == a[i];
  }

  lemma {:induction false} ValidAppend(a: seq<byte>, b: seq<byte>)
    requires Valid(a)
    ensures Valid(a + b) <==> Valid(b)
    ensures U8Len(a + b) == U8Len(a) + U8Len(b)
  {
    if a == [] { assert a + b == b; } else {
      var n := Unit(a);
      UnitOfPrefix(a, b);
      assert (a + b)[n..] == a[n..] + b;
      ValidAppend(a[n..], b);
    }
  }

  /** A valid string can be cut in front of any ASCII byte. */
  lemma {:induction false} ValidCut(s: seq<byte>, k: nat)
    requires Valid(s) && k <= |s| && (k < |s| ==> Ascii(s[k]))
    ensures Valid(s[..k]) && Valid(s[k..])
  {
    if k > 0 {
      var n := Unit(s);
      ValidCut(s[n..], k - n);
      assert s[n..][..k - n] == s[n..k] && s[n..][k - n..] == s[k..];
      UnitOfPrefixOnly(s, k);
      assert s[..k][n..] == s[n..k];
    }
  }

  lemma UnitOfPrefixOnly(s: seq<byte>, k: nat)
    requires s != [] && 0 < Unit(s) <= k <= |s|
    ensures Unit(s[..k]) == Unit(s)
  {
    assert forall i :: 0 <= i < Unit(s) ==> s[..k][i] == s[i];
  }

  lemma ValidDropAscii(s: seq<byte>, k: nat)
    requires Valid(s) && k < |s| && Ascii(s[k])
    ensures Valid(s[..k]) && Valid(s[k + 1..]) && Valid(s[..k + 1])
  {
    ValidCut(s, k);
    assert s[k..][1..] == s[k + 1..];
    assert s[..k + 1] == s[..k] + [s[k]];
    ValidOne(s[k]);
    ValidAppend(s[..k], [s[k]]);
  }

  lemma ValidOne(b: byte)
    requires Ascii(b)
    ensures Valid([b]) && U8Len([b]) == 1
  {
    assert [b][1..] == [];
  }

  /** Repair keeps the byte count and the character count, and repairs. */
  lemma {:induction false} SanitizeRepairs(s: seq<byte>)
    ensures |Sanitize(s)| == |s| && U8Len(Sanitize(s)) == U8Len(s) && Valid(Sanitize(s))
  {
    if s != [] {
      var n := Advance(s);
      var rest := Sanitize(s[n..]);
      SanitizeRepairs(s[n..]);
      if Unit(s) > 0 {
        UnitOfPrefixOnly(s, n);
        assert s[..n][n..] == [];
        ValidAppend(s[..n], rest);
      } else {
        ValidOne(QUESTION);
        ValidAppend([QUESTION], rest);
      }
    }
  }

  /** Repair, byte by byte: behind valid text a byte that starts no sequence becomes a
      question mark, and the walk goes on right behind it. */
  lemma {:induction false} SanitizeAt(a: seq<byte>, b: byte, c: seq<byte>)
    requires Valid(a) && Unit([b] + c) == 0
    ensures Sanitize(a + ([b] + c)) == a + ([63] + Sanitize(c))
  {
    if a == [] {
      assert a + ([b] + c) == [b] + c && ([b] + c)[1..] == c;
    } else {
      var n := Unit(a);
      UnitOfPrefix(a, [b] + c);
      assert (a + ([b] + c))[n..] == a[n..] + ([b] + c) && (a + ([b] + c))[..n] == a[..n];
      SanitizeAt(a[n..], b, c);
      assert a == a[..n] + a[n..];
      Assoc(a[..n], a[n..], [63] + Sanitize(c));
    }
  }

  /** Repair is the identity exactly on valid text; so repairing twice is repairing once. */
  lemma SanitizeFixed(s: seq<byte>)
    ensures Sanitize(s) == s <==> Valid(s)
    ensures Sanitize(Sanitize(s)) == Sanitize(s)
  {
    SanitizeRepairs(s);
    SanitizeIdentity(Sanitize(s));
    if Valid(s) { SanitizeIdentity(s); }
  }

  lemma {:induction false} SanitizeIdentity(s: seq<byte>)
    requires Valid(s)
    ensures Sanitize(s) == s
  {
    if s != [] {
      SanitizeIdentity(s[Unit(s)..]);
      assert s == s[..Unit(s)] + s[Unit(s)..];
    }
  }

  // ---------------------------------------------------------------- the loops

  method CountCodepoints(s: seq<byte>) returns (count: nat)
    ensures count == U8Len(s)
  {
    count := 0;
    var p := 0;
    ghost var rest, all := s, U8Len(s);
    while p < |s|
      invariant 0 <= p <= |s| && rest == s[p..] && count + U8Len(rest) == all
    {
      var n := Advance(s[p..]);
      rest, p, count := rest[n..], p + n, count + 1;
    }
  }

  /** Where the repair stands at byte `i`, a boundary of the walk. */
  ghost predicate Repairing(s: seq<byte>, work: seq<byte>, i: nat, errors: nat) {
    && i <= |s| == |work|
    && work[i..] == s[i..] && work[..i] + Sanitize(s[i..]) == Sanitize(s)
    && (if errors == 0 then Valid(s[i..]) <==> Valid(s) else !Valid(s))
  }

  lemma ValidStep(t: seq<byte>)
    requires t != []
    ensures if Unit(t) > 0 then Valid(t) <==> Valid(t[Unit(t)..]) else !Valid(t)
    ensures Sanitize(t) == (if Unit(t) > 0 then t[..Unit(t)] else [QUESTION]) + Sanitize(t[Advance(t)..])
  {
  }

  /** A whole sequence is left alone; a stray byte is replaced. */
  lemma RepairKeeps(s: seq<byte>, work: seq<byte>, i: nat, errors: nat)
    requires Repairing(s, work, i, errors) && i < |s| && Unit(s[i..]) > 0
    ensures Repairing(s, work, i + Unit(s[i..]), errors)
  {
    var t, n := s[i..], Unit(s[i..]);
    ValidStep(t);
    Slices(s, work, work, i, n, t[..n]);
    Assoc(work[..i], t[..n], Sanitize(t[n..]));
  }

  lemma RepairReplaces(s: seq<byte>, work: seq<byte>, i: nat, errors: nat)
    requires Repairing(s, work, i, errors) && i < |s| && Unit(s[i..]) == 0
    ensures Repairing(s, work[i := QUESTION], i + 1, errors + 1)
  {
    var t := s[i..];
    ValidStep(t);
    Slices(s, work, work[i := QUESTION], i, 1, [QUESTION]);
    Assoc(work[..i], [QUESTION], Sanitize(t[1..]));
  }

  lemma Slices(s: seq<byte>, work: seq<byte>, next: seq<byte>, i: nat, n: nat, head: seq<byte>)
    requires i + n <= |s| == |work| && work[i..] == s[i..]
    requires (next == work && head == s[i..][..n]) || (n == 1 && next == work[i := QUESTION] && head == [QUESTION])
    ensures s[i..][n..] == s[i + n..] && next[i + n..] == s[i + n..] && next[..i + n] == work[..i] + head
  {
    assert forall k :: 0 <= k < |s| - i ==> work[i..][k] == s[i..][k];
  }

  lemma Assoc(a: seq<byte>, b: seq<byte>, c: seq<byte>)
    ensures a + (b + c) == a + b + c
  {
  }

  /** sanitize_utf8 on its working copy; `errors` counts the replaced bytes. */
  method SanitizeInPlace(s: seq<byte>) returns (work: array<byte>, errors: nat)
    ensures fresh(work) && work[..] == Sanitize(s)
    ensures errors == 0 <==> Valid(s)
  {
    work := new byte[|s|](i requires 0 <= i < |s| => s[i]);
    errors := 0;
    var i := 0;
    assert work[..] == s;
    Repaired(s, s, 0, 0);
    while i < |s|
      invariant 0 <= i <= |s| && Repairing(s, work[..], i, errors)
    {
      i, errors := RepairAt(s, work, i, errors);
    }
    Repaired(s, work[..], i, errors);
  }

  lemma Repaired(s: seq<byte>, work: seq<byte>, i: nat, errors: nat)
    ensures work == s && i == 0 && errors == 0 ==> Repairing(s, work, i, errors)
    ensures Repairing(s, work, i, errors) && i == |s| ==> work == Sanitize(s) && (errors == 0 <==> Valid(s))
  {
    if i == |s| == |work| { assert s[i..] == [] && work[..i] + [] == work; }
  }

  method RepairAt(ghost s: seq<byte>, work: array<byte>, i: nat, errors: nat) returns (j: nat, found: nat)
    requires Repairing(s, work[..], i, errors) && i < work.Length
    modifies work
    ensures i < j && Repairing(s, work[..], j, found)
  {
    var n := Unit(work[i..]);
    assert work[i..] == work[..][i..] == s[i..];
    ghost var was := work[..];
    if n > 0 {
      RepairKeeps(s, was, i, errors);
      j, found := i + n, errors;
    } else {
      RepairReplaces(s, was, i, errors);
      work[i] := QUESTION;
      assert work[..] == was[i := QUESTION];
      j, found := i + 1, errors + 1;
    }
  }
}
