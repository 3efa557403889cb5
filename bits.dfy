// A fixed-capacity array of bits in the DSDL bit order: bit `i` lives in byte
// `i / 8`, at position `i % 8` counted from the least significant bit.
module Bits {
  import opened Wrappers

  //
  // Bit addressing on plain byte sequences
  //

  /** `1 << k` for a bit position `k` within a byte. */
  function Mask(k: nat): (m: byte)
    requires k < 8
    ensures m == 1 << (k as bv8)
  {
    if k == 0 then 0x01 else if k == 1 then 0x02 else if k == 2 then 0x04 else if k == 3 then 0x08
    else if k == 4 then 0x10 else if k == 5 then 0x20 else if k == 6 then 0x40 else 0x80
  }

  /** Bit `k` of `b`, counted from the least significant bit: `(b >> k) & 1 == 1`. */
  function ByteBit(b: byte, k: nat): bool
    requires k < 8
  {
    b & Mask(k) != 0
  }

  /** `b` with bit `k` set to `v`: `b | mask` or `b & !mask` with `mask = 1 << k`. */
  function SetByteBit(b: byte, k: nat, v: bool): byte
    requires k < 8
  {
    if v then b | Mask(k) else b & !Mask(k)
  }

  /** After setting bit `k` of a byte, bit `k` reads `v` and every other bit is unchanged. */
  lemma SetByteBitReads(b: byte, k: nat, v: bool, j: nat)
    requires k < 8 && j < 8
    ensures ByteBit(SetByteBit(b, k, v), j) == if j == k then v else ByteBit(b, j)
  {
    // Two distinct positions have disjoint masks.
    assert j != k ==> Mask(j) & Mask(k) == 0;
  }

  /** The value of bit `i` of a byte buffer in DSDL order. */
  function BitAt(bytes: seq<byte>, i: nat): bool
    requires i / 8 < |bytes|
  {
    ByteBit(bytes[i / 8], i % 8)
  }

  /** The first `n` bits of a byte buffer, as the sequence of values `get` reads. */
  function BitsOf(bytes: seq<byte>, n: nat): (r: seq<bool>)
    requires n <= 8 * |bytes|
    ensures |r| == n
  {
    if n == 0 then [] else BitsOf(bytes, n - 1) + [BitAt(bytes, n - 1)]
  }

  /** Element `i` of `BitsOf` is the bit `get` reads at `i`. */
  lemma {:induction false} BitsOfIndex(bytes: seq<byte>, n: nat, i: nat)
    requires i < n <= 8 * |bytes|
    ensures BitsOf(bytes, n)[i] == BitAt(bytes, i)
  {
    if i < n - 1 {
      BitsOfIndex(bytes, n - 1, i);
    }
  }

  /** Two buffers with the same first `n` bits have the same `BitsOf`. */
  lemma BitsOfExt(bytes: seq<byte>, other: seq<byte>, n: nat)
    requires n <= 8 * |bytes| && n <= 8 * |other|
    requires forall i :: 0 <= i < n ==> BitAt(bytes, i) == BitAt(other, i)
    ensures BitsOf(bytes, n) == BitsOf(other, n)
  {
    forall i | 0 <= i < n
      ensures BitsOf(bytes, n)[i] == BitsOf(other, n)[i]
    {
      BitsOfIndex(bytes, n, i);
      BitsOfIndex(other, n, i);
    }
  }

  /** `split_index`: the byte index and the bit-in-byte index of bit `i`. */
  function SplitIndex(i: nat, bitLength: nat): (r: (nat, nat))
    requires i < bitLength
    ensures r.1 < 8 && 8 * r.0 + r.1 == i
  {
    (i / 8, i % 8)
  }

  /** Setting bit `k` of byte `j` changes exactly bit `8 * j + k` of the buffer's bits. */
  lemma BitsOfSetByteBit(bytes: seq<byte>, n: nat, j: nat, k: nat, v: bool)
    requires n <= 8 * |bytes| && j < |bytes| && k < 8 && 8 * j + k < n
    ensures BitsOf(bytes[j := SetByteBit(bytes[j], k, v)], n) == BitsOf(bytes, n)[8 * j + k := v]
  {
    var after := bytes[j := SetByteBit(bytes[j], k, v)];
    forall i | 0 <= i < n
      ensures BitsOf(after, n)[i] == BitsOf(bytes, n)[8 * j + k := v][i]
    {
      BitsOfIndex(after, n, i);
      BitsOfIndex(bytes, n, i);
      if i / 8 == j {
        SetByteBitReads(bytes[j], k, v, i % 8);
        assert i == 8 * j + k <==> i % 8 == k;
      } else {
        assert i != 8 * j + k;
      }
    }
  }

  /** A buffer whose every byte is `0xff` (or `0x00`) reads `true` (or `false`) at every bit. */
  lemma BitsOfUniform(bytes: seq<byte>, n: nat, v: bool)
    requires n <= 8 * |bytes|
    requires forall j :: 0 <= j < |bytes| ==> bytes[j] == if v then 0xff else 0x00
    ensures BitsOf(bytes, n) == seq(n, _ => v)
  {
    forall i | 0 <= i < n
      ensures BitsOf(bytes, n)[i] == v
    {
      BitsOfIndex(bytes, n, i);
      var b, k := bytes[i / 8], i % 8;
      assert b == if v then 0xff else 0x00;
      assert ByteBit(b, k) == v;
    }
  }

  /** Storage beyond the bit length does not contribute to the bits: equality of two arrays
      of the same length is decided by `get` alone. */
  lemma BitsIgnoreUnusedBytes(bytes: seq<byte>, n: nat, j: nat, x: byte)
    requires n <= 8 * |bytes| && j < |bytes| && n <= 8 * j
    ensures BitsOf(bytes[j := x], n) == BitsOf(bytes, n)
  {
    forall i | 0 <= i < n
      ensures BitAt(bytes[j := x], i) == BitAt(bytes, i)
    {
      assert i / 8 < j;
    }
    BitsOfExt(bytes[j := x], bytes, n);
  }

  //
  // The order of `compare`
  //

  /** Bit-by-bit comparison of two bit sequences of equal length: the first index where they
      differ decides, and `true` is greater than `false`. */
  function Lex(a: seq<bool>, b: seq<bool>): Ordering
    requires |a| == |b|
    decreases |a|
  {
    if |a| == 0 then Equal
    else if a[0] && !b[0] then Greater
    else if !a[0] && b[0] then Less
    else Lex(a[1..], b[1..])
  }

  /** `compare`: by length first, then bit by bit. */
  function CompareBits(a: seq<bool>, b: seq<bool>): Ordering
  {
    if |a| < |b| then Less
    else if |a| > |b| then Greater
    else Lex(a, b)
  }

  /** The first index at which two bit sequences of equal length differ decides `compare`. */
  lemma {:induction false} FirstDifferenceDecides(a: seq<bool>, b: seq<bool>, k: nat)
    requires |a| == |b| && k < |a| && a[k] != b[k]
    requires forall m :: 0 <= m < k ==> a[m] == b[m]
    ensures CompareBits(a, b) == if a[k] then Greater else Less
    decreases k
  {
    if k > 0 {
      assert a[0] == b[0];
      FirstDifferenceDecides(a[1..], b[1..], k - 1);
    }
  }

  /** `compare` returns `Equal` exactly when the arrays are equal (same length, same bits). */
  lemma {:induction false} CompareEqualIff(a: seq<bool>, b: seq<bool>)
    ensures CompareBits(a, b) == Equal <==> a == b
    decreases |a|
  {
    if |a| == |b| && |a| > 0 && a[0] == b[0] {
      CompareEqualIff(a[1..], b[1..]);
      if a[1..] == b[1..] {
        assert a == [a[0]] + a[1..] && b == [b[0]] + b[1..];
      }
    }
  }

  /** Swapping the operands reverses the result. */
  lemma {:induction false} CompareAntisymmetric(a: seq<bool>, b: seq<bool>)
    ensures CompareBits(b, a) == CompareBits(a, b).Reverse()
    decreases |a|
  {
    if |a| == |b| && |a| > 0 && a[0] == b[0] {
      CompareAntisymmetric(a[1..], b[1..]);
    }
  }

  /** `Less` is transitive, so `compare` is a strict total order together with the two lemmas
      above. */
  lemma {:induction false} CompareTransitive(a: seq<bool>, b: seq<bool>, c: seq<bool>)
    requires CompareBits(a, b) == Less && CompareBits(b, c) == Less
    ensures CompareBits(a, c) == Less
    decreases |a|
  {
    if |a| == |b| == |c| && |a| > 0 {
      if a[0] == b[0] && b[0] == c[0] {
        CompareTransitive(a[1..], b[1..], c[1..]);
      }
    }
  }

  /** Arrays of different lengths are ordered by length, whatever their bits. */
  lemma ShorterIsLess(a: seq<bool>, b: seq<bool>)
    requires |a| < |b|
    ensures CompareBits(a, b) == Less && CompareBits(b, a) == Greater
  {
  }

  //
  // The array itself
  //

  /** `BitArray<BYTES>`: `bytes.Length` is `BYTES` and `bitLength` the number of bits in use. */
  class BitArray {
    const bytes: array<byte>
    const bitLength: nat

    ghost predicate Valid()
    {
      bitLength <= 8 * bytes.Length
    }

    /** The abstract value: the `bitLength` bits that `get` reads. */
    ghost function Bits(): seq<bool>
      reads bytes
      requires Valid()
    {
      BitsOf(bytes[..], bitLength)
    }

    /** `BitArray::new`: panics unless `bitLength <= BYTES * 8`; every bit is false. */
    constructor New(byteCount: nat, bitLength: nat)
      requires bitLength <= 8 * byteCount
      ensures Valid() && fresh(bytes)
      ensures bytes.Length == byteCount && this.bitLength == bitLength
      ensures forall j :: 0 <= j < bytes.Length ==> bytes[j] == 0
      ensures Bits() == seq(bitLength, _ => false)
    {
      bytes := new byte[byteCount](_ => 0);
      this.bitLength := bitLength;
      new;
      BitsOfUniform(bytes[..], bitLength, false);
    }

    /** `Default::default`: a zeroed array of length zero. */
    constructor Default(byteCount: nat)
      ensures Valid() && fresh(bytes) && bytes.Length == byteCount
      ensures forall j :: 0 <= j < bytes.Length ==> bytes[j] == 0
      ensures Bits() == []
    {
      bytes := new byte[byteCount](_ => 0);
      bitLength := 0;
    }

    /** `len`: the number of bits. */
    function Len(): (r: nat)
      reads bytes
      requires Valid()
      ensures r == |Bits()|
    {
      bitLength
    }

    /** `is_empty`: true exactly when the array holds no bits. */
    function IsEmpty(): (r: bool)
      reads bytes
      requires Valid()
      ensures r <==> Bits() == []
    {
      bitLength == 0
    }

    /** `get`: the bit at `bitIndex`; `split_index` panics unless `bitIndex < len()`. */
    function Get(bitIndex: nat): (r: bool)
      reads bytes
      requires Valid() && bitIndex < bitLength
      ensures r == Bits()[bitIndex]
    {
      var (byteIndex, bitInByte) := SplitIndex(bitIndex, bitLength);
      BitsOfIndex(bytes[..], bitLength, bitIndex);
      ByteBit(bytes[byteIndex], bitInByte)
    }

    /** `set`: bit `bitIndex` becomes `value`; every other bit and the length are unchanged,
        and only byte `bitIndex / 8` of the storage is written. */
    method Set(bitIndex: nat, value: bool)
      requires Valid() && bitIndex < bitLength
      modifies bytes
      ensures Valid()
      ensures Bits() == old(Bits())[bitIndex := value]
      ensures forall j :: 0 <= j < bytes.Length && j != bitIndex / 8 ==> bytes[j] == old(bytes[j])
    {
      var (byteIndex, bitInByte) := SplitIndex(bitIndex, bitLength);
      ghost var before := bytes[..];
      bytes[byteIndex] := SetByteBit(bytes[byteIndex], bitInByte, value);
      assert bytes[..] == before[byteIndex := SetByteBit(before[byteIndex], bitInByte, value)];
      BitsOfSetByteBit(before, bitLength, byteIndex, bitInByte, value);
    }

    /** `fill`: every byte of the storage (also beyond the bit length) becomes `0xff` or `0x00`,
        so every bit reads `value`; the length is unchanged. */
    method Fill(value: bool)
      requires Valid()
      modifies bytes
      ensures Valid()
      ensures forall j :: 0 <= j < bytes.Length ==> bytes[j] == if value then 0xff else 0x00
      ensures Bits() == seq(bitLength, _ => value)
    {
      var fillByte: byte := if value then 0xff else 0x00;
      for j := 0 to bytes.Length
        invariant forall m :: 0 <= m < j ==> bytes[m] == fillByte
      {
        bytes[j] := fillByte;
      }
      BitsOfUniform(bytes[..], bitLength, value);
    }

    /** `PartialEq::eq`: lengths first, then the two iterators zipped, returning at the first
        bit that differs. Storage beyond the bit length is never read. */
    method Equals(other: BitArray) returns (r: bool)
      requires Valid() && other.Valid()
      ensures r <==> Bits() == other.Bits()
    {
      if bitLength != other.bitLength {
        return false;
      }
      ghost var lbits, rbits := Bits(), other.Bits();
      var li := new Iter(this);
      var ri := new Iter(other);
      while true
        invariant li.Valid() && ri.Valid() && li.bits == lbits && ri.bits == rbits
        invariant li.nextIndex == ri.nextIndex
        invariant forall m :: 0 <= m < li.nextIndex ==> lbits[m] == rbits[m]
        decreases |lbits| - li.nextIndex
      {
        var lbit := li.Next();
        if lbit.None? {
          assert lbits == rbits;
          return true;
        }
        var rbit := ri.Next();
        if rbit.None? {
          assert false;
        }
        if lbit.value != rbit.value {
          assert lbits[li.nextIndex - 1] != rbits[li.nextIndex - 1];
          return false;
        }
      }
    }
  }

  /** `Iter` (and `IntoIter`, which behaves the same on its own copy): a cursor over the bits.
      The iterator borrows the array, so the array cannot change while it exists; `bits` is the
      array's value at the time the iterator was made. */
  class Iter {
    const owner: BitArray
    ghost const bits: seq<bool>
    var nextIndex: nat

    ghost predicate Valid()
      reads this, owner.bytes
    {
      owner.Valid() && bits == owner.Bits() && nextIndex <= |bits|
    }

    /** `BitArray::iter`: a cursor at the first bit. */
    constructor (owner: BitArray)
      requires owner.Valid()
      ensures Valid() && this.owner == owner && bits == owner.Bits() && nextIndex == 0
    {
      this.owner := owner;
      bits := owner.Bits();
      nextIndex := 0;
    }

    /** `Iterator::next`: the bit at the cursor, advancing it, or `None` once every bit was
        returned, forever after. */
    method Next() returns (r: Option<bool>)
      requires Valid()
      modifies this
      ensures Valid()
      ensures old(nextIndex) == |bits| ==> r == None && nextIndex == old(nextIndex)
      ensures old(nextIndex) < |bits| ==> r == Some(bits[old(nextIndex)]) && nextIndex == old(nextIndex) + 1
    {
      if nextIndex == owner.Len() {
        r := None;
      } else {
        var value := owner.Get(nextIndex);
        nextIndex := nextIndex + 1;
        r := Some(value);
      }
    }
  }

  /** A `for bit in &array` loop: the iterator yields exactly `len()` values, the k-th being
      `get(k)`, and then `None`. */
  method CollectBits(bitArray: BitArray) returns (s: seq<bool>)
    requires bitArray.Valid()
    ensures s == bitArray.Bits()
  {
    ghost var bits := bitArray.Bits();
    var it := new Iter(bitArray);
    s := [];
    var next := it.Next();
    while next.Some?
      invariant it.Valid() && it.bits == bits
      invariant next.Some? ==> 0 < it.nextIndex && next.value == bits[it.nextIndex - 1]
                                && s == bits[..it.nextIndex - 1]
      invariant next.None? ==> it.nextIndex == |bits| && s == bits[..it.nextIndex]
      decreases |bits| - it.nextIndex, next.Some?
    {
      s := s + [next.value];
      assert s == bits[..it.nextIndex];
      next := it.Next();
    }
    assert s == bits;
  }

  /** `compare` (used by `PartialOrd` and `Ord`): lengths first, then the zipped bits, where
      `(true, false)` is `Greater` and `(false, true)` is `Less`. */
  method Compare(lhs: BitArray, rhs: BitArray) returns (o: Ordering)
    requires lhs.Valid() && rhs.Valid()
    ensures o == CompareBits(lhs.Bits(), rhs.Bits())
  {
    if lhs.bitLength < rhs.bitLength {
      return Less;
    } else if lhs.bitLength > rhs.bitLength {
      return Greater;
    }
    ghost var lbits, rbits := lhs.Bits(), rhs.Bits();
    var li := new Iter(lhs);
    var ri := new Iter(rhs);
    while true
      invariant li.Valid() && ri.Valid() && li.bits == lbits && ri.bits == rbits
      invariant li.nextIndex == ri.nextIndex
      invariant forall m :: 0 <= m < li.nextIndex ==> lbits[m] == rbits[m]
      decreases |lbits| - li.nextIndex
    {
      var lbit := li.Next();
      if lbit.None? {
        assert lbits == rbits;
        CompareEqualIff(lbits, rbits);
        return Equal;
      }
      var rbit := ri.Next();
      if rbit.None? {
        assert false;
      }
      if lbit.value && !rbit.value {
        FirstDifferenceDecides(lbits, rbits, li.nextIndex - 1);
        return Greater;
      } else if !lbit.value && rbit.value {
        FirstDifferenceDecides(lbits, rbits, li.nextIndex - 1);
        return Less;
      }
    }
  }
}
