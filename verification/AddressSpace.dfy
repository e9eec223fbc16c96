/** Byte-addressed memory. A pointer is the 64-bit little-endian image of an address. */
module AddressSpace {
  import opened Bytes

  /** The bytes of an address space. */
  type Memory = m: seq<byte> | |m| <= 0x1_0000_0000_0000_0000

  /** A stretch of memory. */
  datatype Area = Area(at: nat, size: nat) {
    predicate In(m: Memory) {
      at + size <= |m|
    }

    predicate Apart(other: Area) {
      at + size <= other.at || other.at + other.size <= at
    }

    predicate Inside(other: Area) {
      other.at <= at && at + size <= other.at + other.size
    }
  }

  function BytesOf(m: Memory, a: Area): (s: seq<byte>)
    requires a.In(m)
    ensures |s| == a.size
  {
    m[a.at..a.at + a.size]
  }

  function Pointer(m: Memory, at: nat): uint64
    requires at + 8 <= |m|
  {
    Read64(BytesOf(m, Area(at, 8)))
  }

  function Splice(m: Memory, at: nat, s: seq<byte>): (t: Memory)
    requires at + |s| <= |m|
    ensures |t| == |m|
  {
    m[..at] + s + m[at + |s|..]
  }

  lemma SpliceAt(m: Memory, at: nat, s: seq<byte>, k: nat)
    requires at + |s| <= |m| && k < |m|
    ensures Splice(m, at, s)[k] == if at <= k < at + |s| then s[k - at] else m[k]
  {
  }

  lemma SpliceApart(m: Memory, at: nat, s: seq<byte>, a: Area)
    requires at + |s| <= |m| && a.In(m) && a.Apart(Area(at, |s|))
    ensures BytesOf(Splice(m, at, s), a) == BytesOf(m, a)
  {
    forall k | 0 <= k < a.size
      ensures BytesOf(Splice(m, at, s), a)[k] == BytesOf(m, a)[k]
    {
      SpliceAt(m, at, s, a.at + k);
    }
  }

  lemma SpliceInside(m: Memory, at: nat, s: seq<byte>)
    requires at + |s| <= |m|
    ensures BytesOf(Splice(m, at, s), Area(at, |s|)) == s
  {
    forall k | 0 <= k < |s|
      ensures BytesOf(Splice(m, at, s), Area(at, |s|))[k] == s[k]
    {
      SpliceAt(m, at, s, at + k);
    }
  }

  /** Equal areas have equal parts. */
  lemma EqualParts(m: Memory, a: Area, n: Memory, b: Area, offset: nat, k: nat)
    requires a.In(m) && b.In(n) && a.size == b.size && BytesOf(m, a) == BytesOf(n, b) && offset + k <= a.size
    ensures BytesOf(m, Area(a.at + offset, k)) == BytesOf(n, Area(b.at + offset, k))
  {
    var x, y := BytesOf(m, Area(a.at + offset, k)), BytesOf(n, Area(b.at + offset, k));
    forall i | 0 <= i < k
      ensures x[i] == y[i]
    {
      assert x[i] == BytesOf(m, a)[offset + i] == BytesOf(n, b)[offset + i] == y[i];
    }
  }

  /** memcpy inside the memory. */
  function Copied(m: Memory, dst: nat, a: Area): (t: Memory)
    requires a.In(m) && dst + a.size <= |m|
    ensures |t| == |m|
  {
    Splice(m, dst, BytesOf(m, a))
  }

  function Stored(m: Memory, at: nat, p: uint64): (t: Memory)
    requires at + 8 <= |m|
    ensures |t| == |m|
  {
    Splice(m, at, U64(p))
  }

  /** What the pointer in a slot leads to is copied, and the pointer changed to the copy. */
  function Moved(m: Memory, slot: nat, copy: uint64, size: nat): (t: Memory)
    requires slot + 8 <= |m| && Pointer(m, slot) + size <= |m| && copy + size <= |m|
    ensures |t| == |m|
  {
    Stored(Copied(m, copy, Area(Pointer(m, slot), size)), slot, copy)
  }

  /** Everything about a copy. */
  lemma CopiedBytes(m: Memory, dst: nat, src: Area, a: Area)
    requires src.In(m) && dst + src.size <= |m| && a.In(m)
    ensures BytesOf(Copied(m, dst, src), Area(dst, src.size)) == BytesOf(m, src)
    ensures a.Apart(Area(dst, src.size)) ==> BytesOf(Copied(m, dst, src), a) == BytesOf(m, a)
  {
    SpliceInside(m, dst, BytesOf(m, src));
    if a.Apart(Area(dst, src.size)) {
      SpliceApart(m, dst, BytesOf(m, src), a);
    }
  }

  /** Everything about a move whose slot is not in the place of the copy. */
  lemma MovedBytes(m: Memory, slot: nat, copy: uint64, size: nat, a: Area)
    requires slot + 8 <= |m| && Pointer(m, slot) + size <= |m| && copy + size <= |m| && a.In(m)
    requires Area(slot, 8).Apart(Area(copy, size))
    ensures var t := Moved(m, slot, copy, size);
      && Pointer(t, slot) == copy
      && BytesOf(t, Area(copy, size)) == BytesOf(m, Area(Pointer(m, slot), size))
      && (a.Apart(Area(copy, size)) && a.Apart(Area(slot, 8)) ==> BytesOf(t, a) == BytesOf(m, a))
  {
    var src := Area(Pointer(m, slot), size);
    var c := Copied(m, copy, src);
    CopiedBytes(m, copy, src, a);
    if a.Apart(Area(slot, 8)) {
      SpliceApart(c, slot, U64(copy), a);
    }
    SpliceApart(c, slot, U64(copy), Area(copy, size));
    SpliceInside(c, slot, U64(copy));
    Read64OfU64(copy);
  }

  /** Parts of areas that are apart are apart. */
  lemma PartsApart(a: Area, b: Area, x: Area, y: Area)
    requires a.Apart(b) && x.Inside(a) && y.Inside(b)
    ensures x.Apart(y)
  {
  }
}
