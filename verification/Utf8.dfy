/** UTF-8 validation against the encoding of section 4 of RFC 3629. */
module Utf8 {
  import opened Bytes

  /** A Unicode scalar value: a code point that is not a surrogate. */
  predicate Scalar(c: int) {
    0 <= c < 0xd800 || 0xe000 <= c <= 0x10ffff
  }

  predicate Scalars(s: seq<int>) {
    forall c | c in s :: Scalar(c)
  }

  function EncodeScalar(c: int): (r: seq<byte>)
    requires Scalar(c)
    ensures 1 <= |r| <= 4
  {
    if c < 0x80 then [c]
    else if c < 0x800 then [0xc0 + c / 64, 0x80 + c % 64]
    else if c < 0x10000 then [0xe0 + c / 64 / 64, 0x80 + c / 64 % 64, 0x80 + c % 64]
    else [0xf0 + c / 64 / 64 / 64, 0x80 + c / 64 / 64 % 64, 0x80 + c / 64 % 64, 0x80 + c % 64]
  }

  function Encode(s: seq<int>): seq<byte>
    requires Scalars(s)
  {
    if s == [] then [] else EncodeScalar(s[0]) + Encode(s[1..])
  }

  /** The bytes are the concatenated encodings of some scalar values. */
  ghost predicate IsUtf8(b: seq<byte>) {
    exists s :: Encodes(s, b)
  }

  ghost predicate Encodes(s: seq<int>, b: seq<byte>) {
    Scalars(s) && Encode(s) == b
  }

  predicate Tail(b: byte) {
    0x80 <= b <= 0xbf
  }

  function Width(first: byte): nat {
    if first < 0x80 then 1
    else if 0xc2 <= first <= 0xdf then 2
    else if 0xe0 <= first <= 0xef then 3
    else if 0xf0 <= first <= 0xf4 then 4
    else 0
  }

  predicate SecondAllowed(first: byte, second: byte) {
    && Tail(second) && (first == 0xe0 ==> second >= 0xa0) && (first == 0xed ==> second <= 0x9f)
    && (first == 0xf0 ==> second >= 0x90) && (first == 0xf4 ==> second <= 0x8f)
  }

  /** The first character of `b` passes the checks. */
  predicate StartsWell(b: seq<byte>) {
    && b != [] && 0 < Width(b[0]) <= |b|
    && (Width(b[0]) > 1 ==> SecondAllowed(b[0], b[1]))
    && forall j | 2 <= j < Width(b[0]) :: Tail(b[j])
  }

  function Bits(b: byte, base: int): int {
    b as int - base
  }

  function FirstScalar(b: seq<byte>): (c: int)
    requires StartsWell(b)
    ensures Scalar(c)
  {
    var w := Width(b[0]);
    assert forall j | 2 <= j < w :: Tail(b[j]);
    if w == 1 then b[0]
    else if w == 2 then Bits(b[0], 0xc0) * 64 + Bits(b[1], 0x80)
    else if w == 3 then (Bits(b[0], 0xe0) * 64 + Bits(b[1], 0x80)) * 64 + Bits(b[2], 0x80)
    else ((Bits(b[0], 0xf0) * 64 + Bits(b[1], 0x80)) * 64 + Bits(b[2], 0x80)) * 64 + Bits(b[3], 0x80)
  }

  lemma Split(high: int, low: int)
    requires 0 <= low < 64
    ensures (high * 64 + low) / 64 == high && (high * 64 + low) % 64 == low
  {
  }

  /** What passes the checks is the encoding of a scalar value. */
  lemma CharacterSound(b: seq<byte>)
    requires StartsWell(b)
    ensures EncodeScalar(FirstScalar(b)) == b[..Width(b[0])]
  {
    var w := Width(b[0]);
    assert forall j | 2 <= j < w :: Tail(b[j]);
    if w == 2 {
      Split(Bits(b[0], 0xc0), Bits(b[1], 0x80));
    } else if w == 3 {
      Sound3(b);
    } else if w == 4 {
      Sound4(b);
    }
  }

  lemma Sound3(b: seq<byte>)
    requires StartsWell(b) && Width(b[0]) == 3
    ensures EncodeScalar(FirstScalar(b)) == b[..3]
  {
    assert Tail(b[2]);
    var high := Bits(b[0], 0xe0) * 64 + Bits(b[1], 0x80);
    Split(Bits(b[0], 0xe0), Bits(b[1], 0x80));
    Split(high, Bits(b[2], 0x80));
    var c := FirstScalar(b);
    assert c / 64 == high && 0x800 <= c < 0x10000;
  }

  lemma Sound4(b: seq<byte>)
    requires StartsWell(b) && Width(b[0]) == 4
    ensures EncodeScalar(FirstScalar(b)) == b[..4]
  {
    assert Tail(b[2]) && Tail(b[3]);
    var top := Bits(b[0], 0xf0) * 64 + Bits(b[1], 0x80);
    var high := top * 64 + Bits(b[2], 0x80);
    Split(Bits(b[0], 0xf0), Bits(b[1], 0x80));
    Split(top, Bits(b[2], 0x80));
    Split(high, Bits(b[3], 0x80));
    var c := FirstScalar(b);
    assert c / 64 == high && high / 64 == top && 0x10000 <= c;
  }

  /** The encoding of a scalar value passes the checks and is decoded again. */
  lemma Complete(c: int)
    requires Scalar(c)
    ensures var e := EncodeScalar(c); StartsWell(e) && Width(e[0]) == |e| && FirstScalar(e) == c
  {
    if 0x800 <= c < 0x10000 {
      Complete3(c);
    } else if 0x10000 <= c {
      Complete4(c);
    }
  }

  lemma Complete3(c: int)
    requires Scalar(c) && 0x800 <= c < 0x10000
    ensures var e := EncodeScalar(c); StartsWell(e) && Width(e[0]) == 3 && FirstScalar(e) == c
  {
    var (e, high) := (EncodeScalar(c), c / 64);
    assert c == high * 64 + c % 64 && high == high / 64 * 64 + high % 64;
    assert e[0] == 0xe0 + high / 64 && e[1] == 0x80 + high % 64 && e[2] == 0x80 + c % 64;
  }

  lemma Complete4(c: int)
    requires Scalar(c) && 0x10000 <= c
    ensures var e := EncodeScalar(c); StartsWell(e) && Width(e[0]) == 4 && FirstScalar(e) == c
  {
    var (e, high) := (EncodeScalar(c), c / 64);
    var top := high / 64;
    assert c == high * 64 + c % 64 && high == top * 64 + high % 64 && top == top / 64 * 64 + top % 64;
    assert e[0] == 0xf0 + top / 64 && e[1] == 0x80 + top % 64 && e[2] == 0x80 + high % 64 && e[3] == 0x80 + c % 64;
  }

  /** The checks look at the first character only. */
  lemma CharacterComplete(c: int, rest: seq<byte>)
    requires Scalar(c)
    ensures var b := EncodeScalar(c) + rest;
            StartsWell(b) && Width(b[0]) == |EncodeScalar(c)| && FirstScalar(b) == c && b[Width(b[0])..] == rest
  {
    hide EncodeScalar, Width, SecondAllowed;
    Complete(c);
    var e := EncodeScalar(c);
    var b := e + rest;
    assert forall j | 0 <= j < |e| :: b[j] == e[j];
    assert b[|e|..] == rest;
  }

  /** Peeling one character. */
  lemma Peel(b: seq<byte>)
    requires b != []
    ensures IsUtf8(b) <==> StartsWell(b) && IsUtf8(b[Width(b[0])..])
  {
    hide EncodeScalar, FirstScalar, Width, SecondAllowed;
    if IsUtf8(b) {
      var s :| Encodes(s, b);
      CharacterComplete(s[0], Encode(s[1..]));
      assert Encodes(s[1..], b[Width(b[0])..]);
    }
    if StartsWell(b) && IsUtf8(b[Width(b[0])..]) {
      var s :| Encodes(s, b[Width(b[0])..]);
      CharacterSound(b);
      var c := FirstScalar(b);
      assert ([c] + s)[1..] == s;
      assert b == b[..Width(b[0])] + b[Width(b[0])..];
      assert Encodes([c] + s, b);
    }
  }

  lemma EmptyIsUtf8()
    ensures IsUtf8([])
  {
    assert Encodes([], []);
  }

  /** The scalar values are determined by the bytes. */
  lemma {:induction false} ScalarsUnique(a: seq<int>, b: seq<int>)
    requires Scalars(a) && Scalars(b) && Encode(a) == Encode(b)
    ensures a == b
    decreases |a|
  {
    hide EncodeScalar, FirstScalar, StartsWell, Width;
    if a != [] && b != [] {
      CharacterComplete(a[0], Encode(a[1..]));
      CharacterComplete(b[0], Encode(b[1..]));
      ScalarsUnique(a[1..], b[1..]);
      assert a == [a[0]] + a[1..] && b == [b[0]] + b[1..];
    }
  }

  method ValidUtf8(value: seq<byte>) returns (ok: bool)
    ensures ok <==> IsUtf8(value)
  {
    hide IsUtf8;
    EmptyIsUtf8();
    var i := 0;
    while i < |value|
      invariant 0 <= i <= |value|
      invariant IsUtf8(value) <==> IsUtf8(value[i..])
    {
      Peel(value[i..]);
      var first := value[i];
      if first < 0x80 {
        assert value[i..][1..] == value[i + 1..];
        i := i + 1;
        continue;
      }
      var width := Width(first);
      if width == 0 || width > |value| - i {
        return false;
      }
      var second := value[i + 1];
      if !SecondAllowed(first, second) {
        return false;
      }
      for j := 2 to width
        invariant forall k | i + 2 <= k < i + j :: Tail(value[k])
      {
        var next := value[i + j];
        if next < 0x80 || next > 0xbf {
          assert !Tail(value[i..][j]);
          return false;
        }
      }
      forall k | 2 <= k < width ensures Tail(value[i..][k]) {
        assert value[i..][k] == value[i + k];
      }
      assert value[i..][width..] == value[i + width..];
      i := i + width;
    }
    assert value[i..] == [];
    ok := true;
  }
}
