/**
 * Fixed-width integers and their byte images: the `Write` trait with its
 * `write_u8` ... `write_i64` family, the implementation of that trait for a
 * growable byte vector, and the decoding that `Read::read::<T>` performs on
 * the bytes it consumes. The byte order is fixed as little-endian (the
 * writers emit `to_ne_bytes`, and the machines of interest are
 * little-endian).
 */
module Util {

  type uint8 = x: int | 0 <= x < 0x100
  type uint16 = x: int | 0 <= x < 0x1_0000
  type uint32 = x: int | 0 <= x < 0x1_0000_0000
  type uint64 = x: int | 0 <= x < 0x1_0000_0000_0000_0000
  type int8 = x: int | -0x80 <= x < 0x80
  type int16 = x: int | -0x8000 <= x < 0x8000
  type int32 = x: int | -0x8000_0000 <= x < 0x8000_0000
  type int64 = x: int | -0x8000_0000_0000_0000 <= x < 0x8000_0000_0000_0000

  /** 256 to the power `n`: the number of distinct values `n` bytes can hold. */
  function Pow256(n: nat): (r: nat)
    ensures r >= 1
  {
    if n == 0 then 1 else 256 * Pow256(n - 1)
  }

  /** The integer types that have a writer in the `Write` trait. */
  datatype NumType = U8 | U16 | U32 | U64 | I8 | I16 | I32 | I64 {

    /** `size_of` the type, in bytes. */
    function Width(): nat {
      match this
      case U8 | I8 => 1
      case U16 | I16 => 2
      case U32 | I32 => 4
      case U64 | I64 => 8
    }

    /** The number of distinct values of the type. */
    function Modulus(): nat {
      match this
      case U8 | I8 => 0x100
      case U16 | I16 => 0x1_0000
      case U32 | I32 => 0x1_0000_0000
      case U64 | I64 => 0x1_0000_0000_0000_0000
    }

    /** Half the modulus: the bound of a signed type's range. */
    function Half(): nat {
      match this
      case U8 | I8 => 0x80
      case U16 | I16 => 0x8000
      case U32 | I32 => 0x8000_0000
      case U64 | I64 => 0x8000_0000_0000_0000
    }

    predicate Signed() {
      I8? || I16? || I32? || I64?
    }

    /** The range of the type: two's complement when signed. */
    predicate Fits(x: int) {
      if Signed() then -(Half() as int) <= x < Half() else 0 <= x < Modulus()
    }

    lemma ModulusIsPow()
      ensures Modulus() == Pow256(Width())
    {
      assert Pow256(1) == 0x100;
      assert Pow256(2) == 0x1_0000;
      assert Pow256(4) == 0x1_0000_0000 by {
        assert Pow256(3) == 0x100_0000;
      }
      assert Pow256(8) == 0x1_0000_0000_0000_0000 by {
        assert Pow256(4) == 0x1_0000_0000 by {
          assert Pow256(3) == 0x100_0000;
        }
        assert Pow256(6) == 0x1_0000_0000_0000;
      }
    }
  }

  /**
   * The bit pattern of `x` truncated to the width of `t`, read as an unsigned
   * number: the two's complement image when `x` is in the range of `t`.
   */
  function Image(t: NumType, x: int): (u: nat)
    ensures u < t.Modulus()
    ensures (u - x) % t.Modulus() == 0
    ensures t.Fits(x) ==> u == if x < 0 then x + t.Modulus() else x
  {
    var m := t.Modulus();
    var u := x % m;
    assert x == m * (x / m) + u;
    assert u - x == m * (-(x / m));
    u
  }

  /** The value of type `t` whose bit pattern is the unsigned number `u`. */
  function Interpret(t: NumType, u: nat): (x: int)
    requires u < t.Modulus()
    ensures t.Fits(x)
    ensures (u - x) % t.Modulus() == 0
  {
    if t.Signed() && u >= t.Half() then u - t.Modulus() else u
  }

  /** The `w` little-endian bytes of `n`. */
  function LeBytes(n: nat, w: nat): (bs: seq<uint8>)
    requires n < Pow256(w)
    ensures |bs| == w
  {
    if w == 0 then [] else [n % 256] + LeBytes(n / 256, w - 1)
  }

  /** The number whose little-endian bytes are `bs`. */
  function LeValue(bs: seq<uint8>): nat {
    LeValueFrom(bs, 0)
  }

  /** The number whose little-endian bytes are `bs[k..]`, read by index. */
  function LeValueFrom(bs: seq<uint8>, k: nat): nat
    decreases |bs| - k
  {
    if k < |bs| then bs[k] + 256 * LeValueFrom(bs, k + 1) else 0
  }

  /** Reading from index `k` ignores the bytes before it. */
  lemma {:induction false} LeValueFromTail(bs: seq<uint8>, k: nat)
    requires 1 <= k <= |bs|
    ensures LeValueFrom(bs, k) == LeValueFrom(bs[1..], k - 1)
    decreases |bs| - k
  {
    if k < |bs| {
      assert bs[1..][k - 1] == bs[k];
      LeValueFromTail(bs, k + 1);
    }
  }

  /** The first byte is the lowest digit; the rest are the number divided by 256. */
  lemma LeValueCons(bs: seq<uint8>)
    requires bs != []
    ensures LeValue(bs) == bs[0] + 256 * LeValue(bs[1..])
  {
    LeValueFromTail(bs, 1);
  }

  /** `to_ne_bytes` on a little-endian machine: what every `write_*` emits. */
  function ToBytes(t: NumType, x: int): (bs: seq<uint8>)
  {
    t.ModulusIsPow();
    LeBytes(Image(t, x), t.Width())
  }

  /** What `Read::read::<T>` yields from the `size_of::<T>()` bytes it consumes. */
  function FromBytes(t: NumType, bs: seq<uint8>): (x: int)
    requires |bs| == t.Width()
    ensures t.Fits(x)
  {
    LeValueBound(bs);
    t.ModulusIsPow();
    Interpret(t, LeValue(bs))
  }

  /** The number whose little-endian bytes are the `n` bytes of `code` starting at `w`. */
  function LeValueAt(code: seq<uint8>, w: nat, n: nat): nat
    requires w + n <= |code|
    decreases n
  {
    if n == 0 then 0 else code[w] + 256 * LeValueAt(code, w + 1, n - 1)
  }

  /** Reading the bytes in place agrees with reading them cut out of the code. */
  lemma {:induction false} LeValueAtSlice(code: seq<uint8>, w: nat, n: nat, j: nat)
    requires j <= n && w + n <= |code|
    ensures LeValueAt(code, w + j, n - j) == LeValueFrom(code[w..w + n], j)
    decreases n - j
  {
    if j < n {
      assert code[w..w + n][j] == code[w + j];
      LeValueAtSlice(code, w, n, j + 1);
    }
  }

  /** `Read::read::<T>` on the `size_of::<T>()` bytes of `code` at `w`, read in place. */
  function FromCode(t: NumType, code: seq<uint8>, w: nat): (x: int)
    requires w + t.Width() <= |code|
    ensures t.Fits(x)
  {
    LeValueAtSlice(code, w, t.Width(), 0);
    LeValueBound(code[w..w + t.Width()]);
    t.ModulusIsPow();
    Interpret(t, LeValueAt(code, w, t.Width()))
  }

  /** Reading in place is reading the bytes cut out of the code. */
  lemma FromCodeSlice(t: NumType, code: seq<uint8>, w: nat)
    requires w + t.Width() <= |code|
    ensures FromCode(t, code, w) == FromBytes(t, code[w..w + t.Width()])
  {
    LeValueAtSlice(code, w, t.Width(), 0);
  }

  lemma {:induction false} LeValueBound(bs: seq<uint8>)
    ensures LeValue(bs) < Pow256(|bs|)
  {
    if bs != [] {
      LeValueCons(bs);
      LeValueBound(bs[1..]);
    }
  }

  /** Decoding the little-endian bytes of `n` gives back `n`. */
  lemma {:induction false} LeRoundTrip(n: nat, w: nat)
    requires n < Pow256(w)
    ensures LeValue(LeBytes(n, w)) == n
  {
    if w > 0 {
      var bs := LeBytes(n, w);
      assert bs[1..] == LeBytes(n / 256, w - 1);
      LeValueCons(bs);
      LeRoundTrip(n / 256, w - 1);
    }
  }

  /** Bytes are determined by their value: encoding the decoded value of `bs` gives back `bs`. */
  lemma {:induction false} LeBytesOfValue(bs: seq<uint8>)
    ensures LeValue(bs) < Pow256(|bs|) && LeBytes(LeValue(bs), |bs|) == bs
  {
    LeValueBound(bs);
    if bs != [] {
      LeValueBound(bs[1..]);
      LeBytesOfValue(bs[1..]);
      LeValueCons(bs);
      var n := LeValue(bs);
      assert n % 256 == bs[0] && n / 256 == LeValue(bs[1..]);
    }
  }

  /** Every writer emits exactly the width of its type. */
  lemma LeLength(t: NumType, x: int)
    ensures |ToBytes(t, x)| == t.Width()
  {
  }

  /** Reading back a written number of the same type yields that number. */
  lemma ToBytesRoundTrip(t: NumType, x: int)
    requires t.Fits(x)
    ensures |ToBytes(t, x)| == t.Width()
    ensures FromBytes(t, ToBytes(t, x)) == x
  {
    t.ModulusIsPow();
    LeRoundTrip(Image(t, x), t.Width());
  }

  /** Writing back a read number reproduces the bytes that were read. */
  lemma FromBytesRoundTrip(t: NumType, bs: seq<uint8>)
    requires |bs| == t.Width()
    ensures ToBytes(t, FromBytes(t, bs)) == bs
  {
    t.ModulusIsPow();
    LeValueBound(bs);
    LeBytesOfValue(bs);
  }

  /** A `u8` is read as the byte itself. */
  lemma ByteValue(bs: seq<uint8>)
    requires |bs| == 1
    ensures FromBytes(U8, bs) == bs[0]
  {
    LeValueCons(bs);
    assert bs[1..] == [];
  }

  /**
   * A signed writer and the unsigned writer of the same width emit the same
   * bytes for two numbers with the same two's complement bit pattern.
   */
  lemma SameBitsSameBytes(s: NumType, u: NumType, x: int, y: int)
    requires s.Signed() && !u.Signed() && s.Width() == u.Width()
    requires s.Fits(x) && u.Fits(y)
    requires (x - y) % s.Modulus() == 0
    ensures ToBytes(s, x) == ToBytes(u, y)
  {
    assert s.Modulus() == u.Modulus();
    var m := s.Modulus();
    var a := Image(s, x);
    assert (a - y) % m == 0 by {
      assert (a - x) % m == 0;
      assert a - y == (a - x) + (x - y);
    }
    assert a == y by {
      assert 0 <= a < m && 0 <= y < m;
    }
  }

  /** A growable byte vector with the methods of the `Write` trait (`impl Write for Vec<u8>`). */
  class ByteVec {
    var bytes: seq<uint8>

    constructor ()
      ensures bytes == []
    {
      bytes := [];
    }

    /** Appends `bs` after the existing contents (`extend_from_slice`). */
    method Write(bs: seq<uint8>)
      modifies this
      ensures bytes == old(bytes) + bs
    {
      bytes := bytes + bs;
    }

    method WriteU8(num: uint8)
      modifies this
      ensures bytes == old(bytes) + ToBytes(U8, num) && |bytes| == |old(bytes)| + 1
    {
      Write(ToBytes(U8, num));
    }

    method WriteI8(num: int8)
      modifies this
      ensures bytes == old(bytes) + ToBytes(I8, num) && |bytes| == |old(bytes)| + 1
    {
      Write(ToBytes(I8, num));
    }

    method WriteU16(num: uint16)
      modifies this
      ensures bytes == old(bytes) + ToBytes(U16, num) && |bytes| == |old(bytes)| + 2
    {
      Write(ToBytes(U16, num));
    }

    method WriteI16(num: int16)
      modifies this
      ensures bytes == old(bytes) + ToBytes(I16, num) && |bytes| == |old(bytes)| + 2
    {
      Write(ToBytes(I16, num));
    }

    method WriteU32(num: uint32)
      modifies this
      ensures bytes == old(bytes) + ToBytes(U32, num) && |bytes| == |old(bytes)| + 4
    {
      Write(ToBytes(U32, num));
    }

    method WriteI32(num: int32)
      modifies this
      ensures bytes == old(bytes) + ToBytes(I32, num) && |bytes| == |old(bytes)| + 4
    {
      Write(ToBytes(I32, num));
    }

    method WriteU64(num: uint64)
      modifies this
      ensures bytes == old(bytes) + ToBytes(U64, num) && |bytes| == |old(bytes)| + 8
    {
      Write(ToBytes(U64, num));
    }

    method WriteI64(num: int64)
      modifies this
      ensures bytes == old(bytes) + ToBytes(I64, num) && |bytes| == |old(bytes)| + 8
    {
      Write(ToBytes(I64, num));
    }
  }
}
