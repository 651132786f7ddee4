/**
  UTF-8 (valid_utf8 in src/ui_bundle.cpp, bounded_text in
  src/presentation_model.cpp): the validator against the encoding of section 3
  of RFC 3629, and the truncation that keeps text valid.
*/
module Utf8s {
  import opened Basics

  // ---------------------------------------------------------------- the encoding

  predicate Scalar(cp: int) { 0 <= cp <= 0x10ffff && !(0xd800 <= cp <= 0xdfff) }

  function Size(cp: int): nat {
    if cp < 0x80 then 1 else if cp < 0x800 then 2 else if cp < 0x1_0000 then 3 else 4
  }

  function Encode(cp: int): (bytes: seq<Byte>)
    requires Scalar(cp)
    ensures |bytes| == Size(cp)
  {
    if cp < 0x80 then [cp]
    else if cp < 0x800 then [0xc0 + cp / 64, 0x80 + cp % 64]
    else if cp < 0x1_0000 then [0xe0 + cp / 64 / 64, 0x80 + cp / 64 % 64, 0x80 + cp % 64]
    else [0xf0 + cp / 64 / 64 / 64, 0x80 + cp / 64 / 64 % 64, 0x80 + cp / 64 % 64, 0x80 + cp % 64]
  }

  predicate AllScalar(cps: seq<int>) { forall i :: 0 <= i < |cps| ==> Scalar(cps[i]) }

  function EncodeAll(cps: seq<int>): seq<Byte>
    requires AllScalar(cps)
  {
    if cps == [] then [] else Encode(cps[0]) + EncodeAll(cps[1..])
  }

  // ---------------------------------------------------------------- the validator

  predicate Continuation(b: Byte) { 0x80 <= b < 0xc0 }

  /** Continuation bytes announced by a lead byte. */
  function Follow(lead: Byte): Option<nat> {
    if 0xc2 <= lead <= 0xdf then Some(1)
    else if 0xe0 <= lead <= 0xef then Some(2)
    else if 0xf0 <= lead <= 0xf4 then Some(3)
    else None
  }

  /** The bits of a lead byte below its length mark. */
  function LeadBits(lead: Byte): int {
    if lead < 0xe0 then lead - 0xc0 else if lead < 0xf0 then lead - 0xe0 else lead - 0xf0
  }

  /** The low six bits. */
  function SixBits(b: Byte): int { b % 64 }

  function Minimum(count: nat): int { if count == 1 then 0x80 else if count == 2 then 0x800 else 0x1_0000 }

  /** The scalar value at the start of `b`, if there is one. */
  function DecodeOne(b: seq<Byte>): Option<int> {
    if b == [] then None
    else if b[0] < 0x80 then Some(b[0])
    else if Follow(b[0]).None? then None
    else
      var count := Follow(b[0]).value;
      if |b| <= count || (exists j :: 1 <= j <= count && !Continuation(b[j])) then None
      else
        var cp := Partial(b, count);
        if Minimum(count) <= cp && Scalar(cp) then Some(cp) else None
  }

  /** Six more bits with every byte after the lead. */
  function Partial(b: seq<Byte>, count: nat): int
    requires count < |b|
  {
    if count == 0 then LeadBits(b[0]) else Partial(b, count - 1) * 64 + SixBits(b[count])
  }

  predicate Utf8(b: seq<Byte>)
    decreases |b|
  {
    b == [] || (DecodeOne(b).Some? && Size(DecodeOne(b).value) <= |b| && Utf8(b[Size(DecodeOne(b).value)..]))
  }

  /** Dividing by 64 undoes appending six bits. */
  lemma SixMore(high: int, low: int)
    requires 0 <= low < 64
    ensures (high * 64 + low) / 64 == high && (high * 64 + low) % 64 == low
  {
  }

  lemma Continues(b: seq<Byte>, count: nat)
    requires 0 < count < |b| && Continuation(b[count])
    ensures Partial(b, count) / 64 == Partial(b, count - 1)
    ensures b[count] == 0x80 + Partial(b, count) % 64
  {
    SixMore(Partial(b, count - 1), SixBits(b[count]));
  }

  /** What is decoded is what was encoded. */
  lemma DecodeSound(b: seq<Byte>)
    requires DecodeOne(b).Some?
    ensures var cp := DecodeOne(b).value; Scalar(cp) && Size(cp) <= |b| && Encode(cp) == b[..Size(cp)]
    ensures 0x80 <= b[0] ==> Size(DecodeOne(b).value) == Follow(b[0]).value + 1
  {
    if 0x80 <= b[0] {
      var count := Follow(b[0]).value;
      Continues(b, 1);
      assert Partial(b, 0) == LeadBits(b[0]);
      if 2 <= count { Continues(b, 2); }
      if 3 <= count { Continues(b, 3); }
    }
  }

  lemma Appends(b: seq<Byte>, count: nat, value: int)
    requires 0 < count < |b| && b[count] == 0x80 + value % 64 && Partial(b, count - 1) == value / 64
    ensures Partial(b, count) == value && Continuation(b[count])
  {
  }

  lemma DecodeComplete(cp: int, rest: seq<Byte>)
    requires Scalar(cp)
    ensures DecodeOne(Encode(cp) + rest) == Some(cp)
  {
    var b := Encode(cp) + rest;
    if 0x80 <= cp {
      assert Partial(b, 0) == LeadBits(b[0]);
      if cp < 0x800 {
        Appends(b, 1, cp);
      } else if cp < 0x1_0000 {
        Appends(b, 1, cp / 64);
        Appends(b, 2, cp);
      } else {
        Appends(b, 1, cp / 64 / 64);
        Appends(b, 2, cp / 64);
        Appends(b, 3, cp);
      }
    }
  }

  /** The validator's language is exactly the encodings of scalar sequences. */
  lemma {:induction false} Utf8Sound(b: seq<Byte>) returns (cps: seq<int>)
    requires Utf8(b)
    ensures AllScalar(cps) && EncodeAll(cps) == b
    decreases |b|
  {
    if b == [] { return []; }
    var cp := DecodeOne(b).value;
    DecodeSound(b);
    var rest := Utf8Sound(b[Size(cp)..]);
    cps := [cp] + rest;
    assert cps[1..] == rest;
  }

  lemma {:induction false} Utf8Complete(cps: seq<int>)
    requires AllScalar(cps)
    ensures Utf8(EncodeAll(cps))
  {
    if cps != [] {
      Utf8Complete(cps[1..]);
      DecodeComplete(cps[0], EncodeAll(cps[1..]));
      assert EncodeAll(cps)[Size(cps[0])..] == EncodeAll(cps[1..]);
    }
  }

  /** No text has two readings. */
  lemma {:induction false} EncodingUnique(a: seq<int>, b: seq<int>)
    requires AllScalar(a) && AllScalar(b) && EncodeAll(a) == EncodeAll(b)
    ensures a == b
  {
    if a != [] && b != [] {
      DecodeComplete(a[0], EncodeAll(a[1..]));
      DecodeComplete(b[0], EncodeAll(b[1..]));
      assert EncodeAll(a[1..]) == EncodeAll(a)[Size(a[0])..];
      assert EncodeAll(b[1..]) == EncodeAll(b)[Size(b[0])..];
      EncodingUnique(a[1..], b[1..]);
    }
  }

  ghost predicate EncodesSomething(b: seq<Byte>) {
    exists cps :: AllScalar(cps) && EncodeAll(cps) == b
  }

  lemma Utf8Iff(b: seq<Byte>)
    ensures Utf8(b) <==> EncodesSomething(b)
  {
    if Utf8(b) {
      var cps := Utf8Sound(b);
    }
    if EncodesSomething(b) {
      var cps :| AllScalar(cps) && EncodeAll(cps) == b;
      Utf8Complete(cps);
    }
  }

  /** The scalar at `i`: how many bytes it takes, or nothing. */
  method Next(text: seq<Byte>, i: nat) returns (size: nat)
    requires i < |text|
    ensures size == if DecodeOne(text[i..]).Some? then Size(DecodeOne(text[i..]).value) else 0
    ensures i + size <= |text|
  {
    ghost var here := text[i..];
    var c := text[i];
    if c < 0x80 { return 1; }
    if Follow(c).None? { return 0; }
    var count := Follow(c).value;
    if |text| <= i + count { return 0; }
    var codepoint := LeadBits(c);
    for j := 1 to count + 1
      invariant forall k :: 1 <= k < j ==> Continuation(here[k])
      invariant codepoint == Partial(here, j - 1)
    {
      var continuation := text[i + j];
      assert continuation == here[j];
      if !Continuation(continuation) { return 0; }
      codepoint := codepoint * 64 + SixBits(continuation);
    }
    if codepoint < Minimum(count) || !Scalar(codepoint) { return 0; }
    DecodeSound(here);
    size := count + 1;
  }

  /** Accepts exactly the texts that encode some sequence of scalar values. */
  method ValidUtf8(text: seq<Byte>) returns (valid: bool)
    ensures valid <==> EncodesSomething(text)
  {
    Utf8Iff(text);
    var i := 0;
    assert text[0..] == text;
    while i < |text|
      invariant 0 <= i <= |text| && (Utf8(text) <==> Utf8(text[i..]))
    {
      var size := Next(text, i);
      if size == 0 { return false; }
      assert text[i..][size..] == text[i + size..];
      i := i + size;
    }
    valid := true;
  }

  // ---------------------------------------------------------------- truncation

  lemma {:induction false} Utf8Concat(a: seq<Byte>, b: seq<Byte>)
    requires Utf8(a) && Utf8(b)
    ensures Utf8(a + b)
    decreases |a|
  {
    if a == [] {
      assert a + b == b;
    } else {
      Peel(a);
      var cp := DecodeOne(a).value;
      var rest := a[Size(cp)..];
      Utf8Concat(rest, b);
      Split(a, Size(cp), b);
      PrependCharacter(cp, rest + b);
    }
  }

  lemma Split(a: seq<Byte>, size: nat, b: seq<Byte>)
    requires size <= |a|
    ensures a + b == a[..size] + (a[size..] + b)
  {
  }

  lemma PrependCharacter(cp: int, rest: seq<Byte>)
    requires Scalar(cp) && Utf8(rest)
    ensures Utf8(Encode(cp) + rest)
  {
    DecodeComplete(cp, rest);
    assert (Encode(cp) + rest)[Size(cp)..] == rest;
  }

  /** The first scalar of a valid text: only its first byte is no continuation. */
  lemma Peel(b: seq<Byte>)
    requires Utf8(b) && b != []
    ensures var size := Size(DecodeOne(b).value);
            && 1 <= size <= 4 && size <= |b| && Scalar(DecodeOne(b).value) && Utf8(b[size..])
            && b[..size] == Encode(DecodeOne(b).value) && Utf8(b[..size])
            && !Continuation(b[0]) && (forall j :: 1 <= j < size ==> Continuation(b[j]))
            && (b[0] < 0x80 <==> size == 1)
  {
    DecodeSound(b);
    var cp := DecodeOne(b).value;
    CharacterShape(cp);
    SameBytes(b, b[..Size(cp)]);
  }

  lemma SameBytes(b: seq<Byte>, front: seq<Byte>)
    requires front <= b
    ensures forall j :: 0 <= j < |front| ==> b[j] == front[j]
  {
  }

  /** One character is a valid text: a lead byte, then continuations. */
  lemma CharacterShape(cp: int)
    requires Scalar(cp)
    ensures Utf8(Encode(cp)) && !Continuation(Encode(cp)[0])
    ensures forall j :: 1 <= j < Size(cp) ==> Continuation(Encode(cp)[j])
    ensures Encode(cp)[0] < 0x80 <==> Size(cp) == 1
  {
    DecodeComplete(cp, []);
    var e := Encode(cp);
    assert e + [] == e && e[Size(cp)..] == [];
  }

  lemma Slices(b: seq<Byte>, size: nat, p: nat)
    requires size <= p < |b|
    ensures b[..p] == b[..size] + b[size..][..p - size]
    ensures b[p..] == b[size..][p - size..] && b[p] == b[size..][p - size]
  {
  }

  /** A text may be cut in front of any byte that is no continuation. */
  lemma {:induction false} CutBefore(b: seq<Byte>, p: nat)
    requires Utf8(b) && p < |b| && !Continuation(b[p])
    ensures Utf8(b[..p]) && Utf8(b[p..])
    decreases p
  {
    if p == 0 {
      assert b[0..] == b;
    } else {
      Peel(b);
      var size := Size(DecodeOne(b).value);
      Slices(b, size, p);
      CutBefore(b[size..], p - size);
      Utf8Concat(b[..size], b[size..][..p - size]);
    }
  }

  /** And behind any byte below 0x80. */
  lemma CutBehindAscii(b: seq<Byte>, p: nat)
    requires Utf8(b) && p < |b| && b[p] < 0x80
    ensures Utf8(b[..p + 1])
  {
    CutBefore(b, p);
    Peel(b[p..]);
    assert b[p..][..1] == [b[p]];
    Utf8Concat(b[..p], [b[p]]);
    assert b[..p + 1] == b[..p] + [b[p]];
  }

  /** Of four bytes in a row, one is no continuation. */
  lemma {:induction false} FourBytes(b: seq<Byte>, p: nat)
    requires Utf8(b) && p + 4 <= |b|
    ensures exists j :: p <= j < p + 4 && !Continuation(b[j])
    decreases p
  {
    Peel(b);
    var size := Size(DecodeOne(b).value);
    if p == 0 {
      assert !Continuation(b[0]);
    } else if size <= p {
      var rest := b[size..];
      FourBytes(rest, p - size);
      var j :| p - size <= j < p - size + 4 && !Continuation(rest[j]);
      assert !Continuation(b[j + size]);
    } else {
      Peel(b[size..]);
      assert b[size..][0] == b[size];
    }
  }

  const MAXIMUM_BYTES: nat := 256

  /** The end of a text without the continuation bytes it ends with. */
  function Stripped(value: seq<Byte>, end: nat): (e: nat)
    requires end <= |value|
    ensures e <= end && (0 < e ==> !Continuation(value[e - 1]))
    ensures forall j :: e <= j < end ==> Continuation(value[j])
  {
    if 0 < end && Continuation(value[end - 1]) then Stripped(value, end - 1) else end
  }

  /** Where the source cuts. */
  function CutEnd(value: seq<Byte>): (end: nat)
    ensures end <= |value| && end <= MAXIMUM_BYTES
  {
    if |value| <= MAXIMUM_BYTES then |value|
    else
      var e := Stripped(value, MAXIMUM_BYTES);
      if 0 < e && 0xc0 <= value[e - 1] then e - 1 else e
  }

  /** A valid text is cut to a valid prefix of at most 256 bytes, losing at most four of them. */
  method BoundedText(value: seq<Byte>) returns (r: Option<seq<Byte>>)
    ensures r == if CutEnd(value) == 0 then None else Some(value[..CutEnd(value)])
    ensures Utf8(value) ==> (r.None? <==> value == [])
    ensures r.Some? && Utf8(value) ==> Utf8(r.value)
    ensures r.Some? && |value| <= MAXIMUM_BYTES ==> r.value == value
    ensures r.Some? && Utf8(value) && MAXIMUM_BYTES < |value| ==> MAXIMUM_BYTES - 4 <= |r.value| <= MAXIMUM_BYTES
  {
    if Utf8(value) { CutIsValid(value); }
    if value == [] { return None; }
    assert value[..|value|] == value;
    if |value| <= MAXIMUM_BYTES { return Some(value); }
    var end := MAXIMUM_BYTES;
    while 0 < end && Continuation(value[end - 1])
      invariant 0 <= end <= MAXIMUM_BYTES && Stripped(value, end) == Stripped(value, MAXIMUM_BYTES)
    {
      end := end - 1;
    }
    if 0 < end && 0xc0 <= value[end - 1] { end := end - 1; }
    r := if end == 0 then None else Some(value[..end]);
  }

  lemma CutIsValid(value: seq<Byte>)
    requires Utf8(value)
    ensures Utf8(value[..CutEnd(value)])
    ensures MAXIMUM_BYTES < |value| ==> MAXIMUM_BYTES - 4 <= CutEnd(value)
  {
    if |value| <= MAXIMUM_BYTES {
      assert value[..|value|] == value;
    } else {
      FourBytes(value, MAXIMUM_BYTES - 4);
      CutStripped(value, Stripped(value, MAXIMUM_BYTES), CutEnd(value));
    }
  }

  lemma CutStripped(value: seq<Byte>, stripped: nat, end: nat)
    requires Utf8(value) && 0 < stripped <= |value| && !Continuation(value[stripped - 1])
    requires end == if 0xc0 <= value[stripped - 1] then stripped - 1 else stripped
    ensures Utf8(value[..end])
  {
    if end < stripped { CutBefore(value, end); } else { CutBehindAscii(value, end - 1); }
  }

  /** A valid prefix of a valid text ends where a character ends. */
  lemma {:induction false} PrefixEndsCharacter(b: seq<Byte>, p: nat)
    requires Utf8(b) && p < |b| && Utf8(b[..p])
    ensures !Continuation(b[p])
    decreases p
  {
    if p == 0 {
      Peel(b);
    } else {
      PeelBoth(b, p);
      var size := Size(DecodeOne(b).value);
      PrefixEndsCharacter(b[size..], p - size);
    }
  }

  /** Both the text and its prefix go on after the same first character. */
  lemma PeelBoth(b: seq<Byte>, p: nat)
    requires Utf8(b) && 0 < p < |b| && Utf8(b[..p])
    ensures var size := Size(DecodeOne(b).value);
            && 1 <= size <= p && Utf8(b[size..]) && Utf8(b[size..][..p - size]) && b[size..][p - size] == b[p]
  {
    SameFirst(b, p);
    var size := Size(DecodeOne(b).value);
    assert b[..p][size..] == b[size..][..p - size];
  }

  /** A prefix that decodes begins with the same character. */
  lemma SameFirst(b: seq<Byte>, p: nat)
    requires DecodeOne(b).Some? && p <= |b| && DecodeOne(b[..p]).Some?
    ensures DecodeOne(b[..p]) == DecodeOne(b) && Size(DecodeOne(b).value) <= p
  {
    DecodeSound(b[..p]);
    var cp := DecodeOne(b[..p]).value;
    DecodeComplete(cp, b[Size(cp)..]);
    assert b[..p][..Size(cp)] == b[..Size(cp)];
    assert Encode(cp) + b[Size(cp)..] == b;
  }

  /** No valid prefix of at most 256 bytes is longer than the cut. */
  ghost predicate Longest(value: seq<Byte>) {
    forall p {:trigger value[..p]} :: CutEnd(value) < p <= MAXIMUM_BYTES && p <= |value| ==> !Utf8(value[..p])
  }

  /**
    The cut of a valid text is the longest possible exactly when byte 255 is a character of its own or belongs to one
    that does not fit. A longer character that ends just there is dropped although it would have fitted.
  */
  lemma CutIsLongestIff(value: seq<Byte>)
    requires Utf8(value) && MAXIMUM_BYTES < |value|
    ensures Longest(value) <==> value[MAXIMUM_BYTES - 1] < 0x80 || Continuation(value[MAXIMUM_BYTES])
  {
    if value[MAXIMUM_BYTES - 1] < 0x80 {
      assert CutEnd(value) == MAXIMUM_BYTES;
    } else if Continuation(value[MAXIMUM_BYTES]) {
      forall p | CutEnd(value) < p <= MAXIMUM_BYTES ensures !Utf8(value[..p]) {
        assert Continuation(value[p]);
        if Utf8(value[..p]) { PrefixEndsCharacter(value, p); }
      }
    } else {
      CutBefore(value, MAXIMUM_BYTES);
      assert CutEnd(value) < MAXIMUM_BYTES && Utf8(value[..MAXIMUM_BYTES]);
    }
  }

  /** One such text: 254 letters, a two-byte character that ends at byte 256, and more; the cut keeps 254 bytes. */
  lemma CutMayDropFittingCharacter() returns (value: seq<Byte>)
    ensures Utf8(value) && MAXIMUM_BYTES < |value| && Utf8(value[..MAXIMUM_BYTES])
    ensures CutEnd(value) == MAXIMUM_BYTES - 2
  {
    var head := seq(MAXIMUM_BYTES - 2, _ => 0x61);
    AsciiIsValid(head);
    DecodeComplete(0xe9, []);
    var e: seq<Byte> := Encode(0xe9);
    assert e + [] == e && e[2..] == [];
    AsciiIsValid([0x61]);
    Utf8Concat(head, e);
    Utf8Concat(head + e, [0x61]);
    value := head + e + [0x61];
    assert value[..MAXIMUM_BYTES] == head + e;
    assert Stripped(value, MAXIMUM_BYTES) == Stripped(value, MAXIMUM_BYTES - 1) == MAXIMUM_BYTES - 1;
  }

  lemma {:induction false} AsciiIsValid(b: seq<Byte>)
    requires forall j :: 0 <= j < |b| ==> b[j] < 0x80
    ensures Utf8(b)
    decreases |b|
  {
    if b != [] { AsciiIsValid(b[1..]); }
  }
}
