/** Fixed-width integers and big-endian fields, as the wire format uses them. */
module Bytes {

  type byte = x: int | 0 <= x < 256
  type u32 = x: int | 0 <= x < 0x1_0000_0000
  type u64 = x: int | 0 <= x < 0x1_0000_0000_0000_0000
  type i64 = x: int | -0x8000_0000_0000_0000 <= x < 0x8000_0000_0000_0000

  const INT64_MAX: int := 0x7FFF_FFFF_FFFF_FFFF
  const UINT64_MAX: int := 0xFFFF_FFFF_FFFF_FFFF

  datatype Option<+T> = None | Some(value: T)

  function Max(a: nat, b: nat): nat {
    if a < b then b else a
  }

  lemma Assoc<T>(x: seq<T>, y: seq<T>, z: seq<T>)
    ensures x + (y + z) == x + y + z
  {
  }

  function Pow256(n: nat): (p: nat)
    ensures p > 0
  {
    if n == 0 then 1 else 256 * Pow256(n - 1)
  }

  /** The low `n` bytes of `v`, most significant byte first. */
  function BigEndian(v: nat, n: nat): (s: seq<byte>)
    ensures |s| == n
  {
    if n == 0 then [] else BigEndian(v / 256, n - 1) + [v % 256]
  }

  /** The number that a big-endian byte string denotes. */
  function Value(s: seq<byte>): nat {
    if s == [] then 0 else 256 * Value(s[..|s| - 1]) + s[|s| - 1]
  }

  /** The `n`-byte field of `s` that starts at `at`. */
  function Field(s: seq<byte>, at: nat, n: nat): nat
    requires at + n <= |s|
  {
    Value(s[at..at + n])
  }

  lemma Powers()
    ensures Pow256(1) == 0x100
    ensures Pow256(2) == 0x1_0000
    ensures Pow256(4) == 0x1_0000_0000
    ensures Pow256(8) == 0x1_0000_0000_0000_0000
  {
    assert Pow256(2) == 256 * Pow256(1);
    assert Pow256(4) == 256 * Pow256(3) && Pow256(3) == 256 * Pow256(2);
    assert Pow256(8) == 256 * Pow256(7) && Pow256(7) == 256 * Pow256(6);
    assert Pow256(6) == 256 * Pow256(5) && Pow256(5) == 256 * Pow256(4);
  }

  /** Reading back a field that was wide enough gives the number written. */
  lemma {:induction false} ValueOfBigEndian(v: nat, n: nat)
    requires v < Pow256(n)
    ensures Value(BigEndian(v, n)) == v
  {
    if n == 0 {
    } else {
      ValueOfBigEndian(v / 256, n - 1);
      var s := BigEndian(v, n);
      assert s[..|s| - 1] == BigEndian(v / 256, n - 1);
    }
  }

  /** Every byte string is the big-endian form of its value. */
  lemma {:induction false} BigEndianOfValue(s: seq<byte>)
    ensures Value(s) < Pow256(|s|)
    ensures BigEndian(Value(s), |s|) == s
  {
    if s == [] {
    } else {
      BigEndianOfValue(s[..|s| - 1]);
      assert s == s[..|s| - 1] + [s[|s| - 1]];
    }
  }

  /** A field's value always fits the field's width. */
  lemma FieldRange(s: seq<byte>, at: nat, n: nat)
    requires at + n <= |s|
    ensures Field(s, at, n) < Pow256(n)
    ensures BigEndian(Field(s, at, n), n) == s[at..at + n]
  {
    BigEndianOfValue(s[at..at + n]);
  }

  /** A signed 64-bit number as the cast to `uint64_t` gives it. */
  function ToUnsigned(x: i64): u64 {
    if x < 0 then x + 0x1_0000_0000_0000_0000 else x
  }

  function ToSigned(x: u64): i64 {
    if x > INT64_MAX then x - 0x1_0000_0000_0000_0000 else x
  }

  /** A growing byte string, as `std::string` is used by the encoder. */
  class ByteBuffer {
    var data: seq<byte>

    constructor ()
      ensures data == []
    {
      data := [];
    }

    /** Appends the low `size` bytes of `value`, most significant first. */
    method Put(value: u64, size: nat)
      requires size <= 8
      modifies this
      ensures data == old(data) + BigEndian(value, size)
    {
      var i := size;
      ghost var start := data;
      while i > 0
        invariant 0 <= i <= size
        invariant data == start + BigEndian(value, size)[..size - i]
      {
        BigEndianDigit(value, size, size - i);
        data := data + [ShiftRight(value, i - 1) % 256];
        i := i - 1;
      }
    }

    method Append(bytes: seq<byte>)
      modifies this
      ensures data == old(data) + bytes
    {
      data := data + bytes;
    }
  }

  /** `v` shifted right by `k` whole bytes. */
  function ShiftRight(v: nat, k: nat): nat {
    if k == 0 then v else ShiftRight(v / 256, k - 1)
  }

  /** Digit `k` of a big-endian field is what shifting and truncating gives. */
  lemma {:induction false} BigEndianDigit(v: nat, n: nat, k: nat)
    requires k < n
    ensures BigEndian(v, n)[k] == ShiftRight(v, n - 1 - k) % 256
  {
    if k < n - 1 {
      BigEndianDigit(v / 256, n - 1, k);
    }
  }

  lemma ValueSnoc(s: seq<byte>, at: nat, n: nat)
    requires at + n < |s| && n < 8
    ensures Field(s, at, n + 1) == 256 * Field(s, at, n) + s[at + n]
    ensures Field(s, at, n + 1) < Pow256(n + 1) <= Pow256(8)
  {
    hide BigEndian, Pow256;
    var next := s[at..at + n + 1];
    assert next[..|next| - 1] == s[at..at + n];
    BigEndianOfValue(next);
    Pow256Mono(n + 1, 8);
  }

  /** Reads a big-endian field by shifting each byte in. */
  method Get(bytes: seq<byte>, at: nat, size: nat) returns (value: u64)
    requires at + size <= |bytes| && size <= 8
    ensures value == Field(bytes, at, size)
    ensures value < Pow256(size)
  {
    value := 0;
    Powers();
    assert Field(bytes, at, 0) == 0;
    hide Field, Pow256;
    var i := 0;
    while i < size
      invariant 0 <= i <= size
      invariant value == Field(bytes, at, i) && (i > 0 ==> value < Pow256(i)) && (i == 0 ==> value == 0)
    {
      ValueSnoc(bytes, at, i);
      value := value * 256 + bytes[at + i];
      i := i + 1;
    }
  }

  lemma {:induction false} Pow256Mono(m: nat, n: nat)
    requires m <= n
    ensures Pow256(m) <= Pow256(n)
  {
    if m < n {
      Pow256Mono(m, n - 1);
    }
  }
}
