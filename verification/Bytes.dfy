/** Bytes, the unsigned integer widths of the program, and their little-endian images.
    An integer field copied by `memcpy` on the program's platform is exactly such an image. */
module Bytes {

  type byte = b: int | 0 <= b < 0x100
  type uint16 = n: int | 0 <= n < 0x1_0000
  type uint64 = n: int | 0 <= n < 0x1_0000_0000_0000_0000

  /** The number of values that fit in `width` bytes. */
  function Radix(width: nat): (r: nat)
    ensures 0 < r
  {
    if width == 0 then 1 else 0x100 * Radix(width - 1)
  }

  /** The `width` low bytes of n, least significant first. */
  function LittleEndian(n: nat, width: nat): (s: seq<byte>)
    ensures |s| == width
    decreases n, width
  {
    if width == 0 then [] else [n % 0x100] + LittleEndian(n / 0x100, width - 1)
  }

  /** The number a little-endian image stands for. */
  function Value(s: seq<byte>): (n: nat) {
    if s == [] then 0 else s[0] + 0x100 * Value(s[1..])
  }

  function U16(n: uint16): (s: seq<byte>)
    ensures |s| == 2
  {
    LittleEndian(n, 2)
  }

  function U64(n: uint64): (s: seq<byte>)
    ensures |s| == 8
  {
    LittleEndian(n, 8)
  }

  lemma RadixValues()
    ensures Radix(2) == 0x1_0000
    ensures Radix(8) == 0x1_0000_0000_0000_0000
  {
  }

  /** The byte at a place of an image counts that power of 256. */
  lemma {:induction false} ByteOfImage(n: nat, width: nat, k: nat)
    requires k < width
    ensures LittleEndian(n, width)[k] == n / Radix(k) % 0x100
    decreases k
  {
    if k != 0 {
      ByteOfImage(n / 0x100, width - 1, k - 1);
      NestedQuotient(n, Radix(k - 1));
    }
  }

  lemma NestedQuotient(n: nat, d: nat)
    requires 0 < d
    ensures n / 0x100 / d == n / (0x100 * d)
  {
    var q, r := n / 0x100, n % 0x100;
    var p, t := q / d, q % d;
    assert n == (0x100 * d) * p + (0x100 * t + r) by {
      assert q == d * p + t;
    }
    assert 0x100 * t + r < 0x100 * d;
    QuotientIs(n, 0x100 * d, p, 0x100 * t + r);
  }

  lemma QuotientIs(n: nat, d: nat, q: nat, r: nat)
    requires n == d * q + r && r < d
    ensures n / d == q
  {
    var p := n / d;
    assert d * p <= n < d * (p + 1);
    assert p < q ==> d * (p + 1) <= d * q;
    assert q < p ==> d * (q + 1) <= d * p;
  }

  /** Reading back an image gives the number, reduced to what fits. */
  lemma {:induction false} ValueOfImage(n: nat, width: nat)
    requires n < Radix(width)
    ensures Value(LittleEndian(n, width)) == n
    decreases width
  {
    if width != 0 {
      ValueOfImage(n / 0x100, width - 1);
      assert LittleEndian(n, width)[1..] == LittleEndian(n / 0x100, width - 1);
    }
  }

  lemma LowByte(b: byte, high: nat)
    ensures (b + 0x100 * high) % 0x100 == b && (b + 0x100 * high) / 0x100 == high
  {
  }

  /** Every byte string is the image of the number it stands for. */
  lemma {:induction false} ImageOfValue(s: seq<byte>)
    ensures Value(s) < Radix(|s|)
    ensures LittleEndian(Value(s), |s|) == s
  {
    if s != [] {
      ImageOfValue(s[1..]);
      LowByte(s[0], Value(s[1..]));
      assert s == [s[0]] + s[1..];
    }
  }

  function Read16(s: seq<byte>): (n: uint16)
    requires |s| == 2
    ensures U16(n) == s
  {
    RadixValues();
    ImageOfValue(s);
    Value(s)
  }

  function Read64(s: seq<byte>): (n: uint64)
    requires |s| == 8
    ensures U64(n) == s
  {
    RadixValues();
    ImageOfValue(s);
    Value(s)
  }

  lemma Read16OfU16(n: uint16)
    ensures Read16(U16(n)) == n
  {
    RadixValues();
    ValueOfImage(n, 2);
  }

  lemma Read64OfU64(n: uint64)
    ensures Read64(U64(n)) == n
  {
    RadixValues();
    ValueOfImage(n, 8);
  }

  lemma ConcatIsAssociative(a: seq<byte>, b: seq<byte>, c: seq<byte>, d: seq<byte>, e: seq<byte>)
    ensures a + b + c + d + e == a + (b + c + d + e)
  {
  }

  /** What a `memcpy` out of a buffer reads. */
  function BytesAt(buffer: array<byte>, at: nat, n: nat): (s: seq<byte>)
    requires at + n <= buffer.Length
    reads buffer
    ensures |s| == n
  {
    buffer[..][at..at + n]
  }

  /** `memcpy` of the bytes src to offset `at` of a buffer. */
  method CopyInto(dst: array<byte>, at: nat, src: seq<byte>)
    requires at + |src| <= dst.Length
    modifies dst
    ensures dst[..at + |src|] == old(dst[..at]) + src
    ensures dst[at + |src|..] == old(dst[at + |src|..])
    ensures at == 0 && |src| == dst.Length ==> dst[..] == src
  {
    forall i | 0 <= i < |src| {
      dst[at + i] := src[i];
    }
  }
}

module Options {
  datatype Option<+T> = None | Some(value: T)
}
