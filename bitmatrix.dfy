/** Random access to a byte buffer viewed as a row-major bit matrix
    (`getBit` of parsesong.py), with an independent reference definition:
    the buffer read as one flat stream of bits. */
module BitMatrix {

  type Byte = bv8

  /** The bit at (row, column) of the matrix of `numColumns` columns whose
      bits start `offset` bytes into `bytes`: bit row * numColumns + column
      of the flat bit sequence. */
  function GetBit(bytes: seq<Byte>, numColumns: nat, row: nat, column: nat,
                  littleEndian: bool, offset: nat): (b: nat)
    ensures b <= 1
    ensures offset + (row * numColumns + column) / 8 >= |bytes| ==> b == 0
  {
    FlatBit(bytes, row * numColumns + column, littleEndian, offset)
  }

  /** Bit `bit` of the bits that start `offset` bytes into `bytes`. With
      `littleEndian` set, the bits of each byte are counted from its most
      significant end. A byte index past the end of the buffer reads as 0. */
  function FlatBit(bytes: seq<Byte>, bit: nat, littleEndian: bool, offset: nat): (b: nat)
    ensures b <= 1
    ensures offset + bit / 8 >= |bytes| ==> b == 0
  {
    var byteIndex := offset + bit / 8;
    var bitIndex := if littleEndian then 7 - bit % 8 else bit % 8;
    if byteIndex >= |bytes| then 0
    else if (bytes[byteIndex] >> bitIndex) & 1 == 0 then 0 else 1
  }

  /** Bit k of x, counted from the least significant end: drop k bits,
      then take the parity. */
  function BitOf(x: Byte, k: nat): (bit: nat)
    requires k < 8
    ensures bit <= 1
  {
    if k == 0 then (if x & 1 == 0 then 0 else 1) else BitOf(x >> 1, k - 1)
  }

  /** The low `n` bits of `x`, least significant first. */
  function LsbFirst(x: Byte, n: nat): (bits: seq<nat>)
    requires n <= 8
    ensures |bits| == n
  {
    if n == 0 then [] else [BitOf(x, 0)] + LsbFirst(x >> 1, n - 1)
  }

  /** The low `n` bits of `x`, most significant first. */
  function MsbFirst(x: Byte, n: nat): (bits: seq<nat>)
    requires n <= 8
    ensures |bits| == n
  {
    if n == 0 then [] else MsbFirst(x >> 1, n - 1) + [BitOf(x, 0)]
  }

  /** The eight bits of a byte in stream order. */
  function ByteBits(x: Byte, littleEndian: bool): (bits: seq<nat>)
    ensures |bits| == 8
  {
    if littleEndian then MsbFirst(x, 8) else LsbFirst(x, 8)
  }

  /** A whole buffer as a flat stream of bits, byte after byte. */
  function Stream(bytes: seq<Byte>, littleEndian: bool): (bits: seq<nat>)
    ensures |bits| == 8 * |bytes|
  {
    if |bytes| == 0 then [] else ByteBits(bytes[0], littleEndian) + Stream(bytes[1..], littleEndian)
  }

  /** Shifting right by k and masking the lowest bit, as the source does,
      gives bit k. */
  lemma {:induction false} BitOfIsShift(x: Byte, k: nat)
    requires k < 8
    ensures BitOf(x, k) == if (x >> k) & 1 == 0 then 0 else 1
  {
    if k > 0 {
      BitOfIsShift(x >> 1, k - 1);
      ShiftTwice(x, k);
    }
  }

  lemma ShiftTwice(x: Byte, k: nat)
    requires 0 < k < 8
    ensures (x >> 1) >> (k - 1) == x >> k
  {
  }

  lemma {:induction false} LsbFirstAt(x: Byte, n: nat, k: nat)
    requires k < n <= 8
    ensures LsbFirst(x, n)[k] == BitOf(x, k)
  {
    if k > 0 {
      LsbFirstAt(x >> 1, n - 1, k - 1);
    }
  }

  lemma {:induction false} MsbFirstAt(x: Byte, n: nat, k: nat)
    requires k < n <= 8
    ensures MsbFirst(x, n)[k] == BitOf(x, n - 1 - k)
  {
    if k < n - 1 {
      MsbFirstAt(x >> 1, n - 1, k);
    }
  }

  /** Position j of a byte's stream holds bit 7 - j of the byte when
      `littleEndian` is set, and bit j otherwise. */
  lemma ByteBitsAt(x: Byte, littleEndian: bool, j: nat)
    requires j < 8
    ensures ByteBits(x, littleEndian)[j] == BitOf(x, if littleEndian then 7 - j else j)
  {
    if littleEndian {
      MsbFirstAt(x, 8, j);
    } else {
      LsbFirstAt(x, 8, j);
    }
  }

  /** The `littleEndian` flag reverses the order of the bits within each byte. */
  lemma ByteBitsReversed(x: Byte, j: nat)
    requires j < 8
    ensures ByteBits(x, true)[j] == ByteBits(x, false)[7 - j]
  {
    ByteBitsAt(x, true, j);
    ByteBitsAt(x, false, 7 - j);
  }

  /** Bit 8 * q + j of the stream is bit j of byte q in stream order. */
  lemma {:induction false} StreamAtByte(bytes: seq<Byte>, littleEndian: bool, q: nat, j: nat)
    requires q < |bytes| && j < 8
    ensures Stream(bytes, littleEndian)[8 * q + j] == ByteBits(bytes[q], littleEndian)[j]
  {
    var head, rest := ByteBits(bytes[0], littleEndian), Stream(bytes[1..], littleEndian);
    var all := head + rest;
    assert Stream(bytes, littleEndian) == all;
    if q == 0 {
      assert all[j] == head[j];
    } else {
      var i := 8 * (q - 1) + j;
      StreamAtByte(bytes[1..], littleEndian, q - 1, j);
      assert bytes[1..][q - 1] == bytes[q];
      assert all[8 + i] == rest[i];
      assert 8 * q + j == 8 + i;
    }
  }

  /** Bit i of the stream is bit i % 8 of byte i / 8. */
  lemma StreamAt(bytes: seq<Byte>, littleEndian: bool, i: nat)
    requires i < 8 * |bytes|
    ensures Stream(bytes, littleEndian)[i] == ByteBits(bytes[i / 8], littleEndian)[i % 8]
  {
    StreamAtByte(bytes, littleEndian, i / 8, i % 8);
  }

  /** When the addressed byte exists, the bit is read from it: bit
      7 - bit % 8 with `littleEndian` set, bit bit % 8 otherwise. */
  lemma FlatBitInRange(bytes: seq<Byte>, bit: nat, littleEndian: bool, offset: nat)
    requires offset + bit / 8 < |bytes|
    ensures FlatBit(bytes, bit, littleEndian, offset)
              == ByteBits(bytes[offset + bit / 8], littleEndian)[bit % 8]
  {
    var bitIndex := if littleEndian then 7 - bit % 8 else bit % 8;
    ByteBitsAt(bytes[offset + bit / 8], littleEndian, bit % 8);
    BitOfIsShift(bytes[offset + bit / 8], bitIndex);
  }

  /** The bytes from `offset` on (none when `offset` is past the end). */
  function Tail(bytes: seq<Byte>, offset: nat): (tail: seq<Byte>)
    ensures |tail| == if offset <= |bytes| then |bytes| - offset else 0
  {
    if offset <= |bytes| then bytes[offset..] else []
  }

  /** Position i of a bit stream, reading 0 past its end. */
  function StreamBit(bits: seq<nat>, i: nat): nat
  {
    if i < |bits| then bits[i] else 0
  }

  /** Bit `bit` of the stream of the bytes after `offset` is bit bit % 8 of
      byte offset + bit / 8 in stream order, or 0 when that byte is missing. */
  lemma StreamAfterOffset(bytes: seq<Byte>, littleEndian: bool, offset: nat, bit: nat)
    ensures StreamBit(Stream(Tail(bytes, offset), littleEndian), bit)
         == if offset + bit / 8 < |bytes| then ByteBits(bytes[offset + bit / 8], littleEndian)[bit % 8] else 0
  {
    if offset + bit / 8 < |bytes| {
      var tail := Tail(bytes, offset);
      StreamAt(tail, littleEndian, bit);
      assert tail[bit / 8] == bytes[offset + bit / 8];
    }
  }

  /** FlatBit, and with it GetBit, agrees with the reference definition:
      it reads position `bit` of the bit stream of the bytes after
      `offset`, and 0 past its end. */
  lemma FlatBitReadsStream(bytes: seq<Byte>, bit: nat, littleEndian: bool, offset: nat)
    ensures FlatBit(bytes, bit, littleEndian, offset)
         == StreamBit(Stream(Tail(bytes, offset), littleEndian), bit)
  {
    StreamAfterOffset(bytes, littleEndian, offset, bit);
    if offset + bit / 8 < |bytes| {
      FlatBitInRange(bytes, bit, littleEndian, offset);
    }
  }

  /** Zero bytes appended to the buffer change no bit: a payload whose
      trailing all-zero bytes were cut off reads exactly like the full one. */
  lemma GetBitZeroPadding(bytes: seq<Byte>, zeros: seq<Byte>, numColumns: nat, row: nat,
                          column: nat, littleEndian: bool, offset: nat)
    requires forall i :: 0 <= i < |zeros| ==> zeros[i] == 0
    ensures GetBit(bytes + zeros, numColumns, row, column, littleEndian, offset)
         == GetBit(bytes, numColumns, row, column, littleEndian, offset)
  {
  }
}
