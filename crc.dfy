// The transfer CRC of Cyphal/CAN multi-frame transfers: CRC-16/CCITT-FALSE (polynomial
// 0x1021, initial value 0xFFFF, no reflection, no final XOR), appended big-endian.
module TransferCrc {
  import opened Wrappers

  /** One bit of the shift register: shift left, folding the polynomial in when the top bit
      falls out. */
  function Shift(c: bv16): bv16
  {
    if c & 0x8000 != 0 then (c << 1) ^ 0x1021 else c << 1
  }

  /** Feeds one byte, most significant bit first. */
  function AddByte(c: bv16, b: byte): bv16
  {
    var x := c ^ ((b as bv16) << 8);
    Shift(Shift(Shift(Shift(Shift(Shift(Shift(Shift(x))))))))
  }

  /** Feeds a byte sequence into a running CRC. */
  function Add(c: bv16, data: seq<byte>): bv16
    decreases |data|
  {
    if |data| == 0 then c else Add(AddByte(c, data[0]), data[1..])
  }

  /** The CRC of a whole transfer payload. */
  function Crc16(data: seq<byte>): bv16
  {
    Add(0xFFFF, data)
  }

  /** The two trailer bytes: the CRC in big-endian order. */
  function CrcBytes(c: bv16): (r: seq<byte>)
    ensures |r| == 2
    ensures (((r[0] as bv16) << 8) | (r[1] as bv16)) == c
  {
    [(c >> 8) as byte, (c & 0xff) as byte]
  }

  /** Feeding a concatenation is feeding its parts one after the other, so a CRC can be
      computed piecewise, frame by frame. */
  lemma {:induction false} AddAppend(c: bv16, a: seq<byte>, b: seq<byte>)
    ensures Add(c, a + b) == Add(Add(c, a), b)
    decreases |a|
  {
    if |a| == 0 {
      assert a + b == b;
    } else {
      assert (a + b)[0] == a[0];
      assert (a + b)[1..] == a[1..] + b;
      AddAppend(AddByte(c, a[0]), a[1..], b);
    }
  }

  /** Feeding two bytes is two single steps. */
  lemma AddPair(c: bv16, a: byte, b: byte)
    ensures Add(c, [a, b]) == AddByte(AddByte(c, a), b)
  {
    assert [a, b][1..] == [b];
    assert Add(c, [a, b]) == Add(AddByte(c, a), [b]);
    assert [b][1..] == [];
    assert Add(AddByte(c, a), [b]) == Add(AddByte(AddByte(c, a), b), []);
  }

  /** Feeding a register its own value, big-endian, clears it. */
  lemma Residue(c: bv16)
    ensures Add(c, CrcBytes(c)) == 0
  {
    var hi, lo := (c >> 8) as byte, (c & 0xff) as byte;
    AddPair(c, hi, lo);
    // The high byte cancels, leaving the low byte to be shifted up eight places unchanged.
    assert AddByte(c, hi) == (lo as bv16) << 8;
    assert AddByte((lo as bv16) << 8, lo) == 0;
  }

  /** A payload followed by its big-endian CRC has CRC zero: the check a receiver makes over
      the reassembled transfer. */
  lemma CrcOfTrailedPayload(data: seq<byte>)
    ensures Crc16(data + CrcBytes(Crc16(data))) == 0
  {
    AddAppend(0xFFFF, data, CrcBytes(Crc16(data)));
    Residue(Crc16(data));
  }

  /** The standard check value of CRC-16/CCITT-FALSE: the ASCII digits "123456789". */
  lemma CheckValue()
    ensures Crc16([0x31, 0x32, 0x33, 0x34, 0x35, 0x36, 0x37, 0x38, 0x39]) == 0x29B1
  {
  }
}
