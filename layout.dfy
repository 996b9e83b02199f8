/**
  The binary layout of a 16-byte Linux `struct input_event` record as the
  filter in recept.cpp reads it (32-bit layout): an opaque timestamp in
  bytes 0-7, `type` in byte 8, `code` little-endian in bytes 10-11 and
  `value` little-endian in bytes 12-15.

  Bytes are unsigned (`uint8`, 0..255): the source reads them through a plain `char*`,
  and only where `char` is unsigned (as on ARM) is every byte taken as the
  value 0..255 the shift-and-OR decode below assumes.  Where `char` is
  signed, a byte of 0x80 or above would be sign-extended; that case is not
  part of this model.
 */
module Layout {

  import opened Ints

  /** Every record handed to the filter has exactly this many bytes. */
  const RECORD_SIZE: nat := 16
  /** Offset of the one-byte `type` field. */
  const TYPE_OFFSET: nat := 8
  /** Offset of the two-byte `code` field. */
  const CODE_OFFSET: nat := 10
  /** Offset of the four-byte `value` field; everything before it is never written. */
  const VALUE_OFFSET: nat := 12

  type Record = r: seq<uint8> | |r| == RECORD_SIZE witness seq(RECORD_SIZE, _ => 0)

  /** Little-endian 16-bit decode, low byte first.  The source ORs the high
      byte shifted left by 8 into the low byte; the two do not overlap, so
      the OR is the sum written here. */
  function DecodeLE16(lo: uint8, hi: uint8): uint16
  {
    lo as int + 0x100 * hi as int
  }

  /** Little-endian 32-bit decode of four bytes, least significant first
      (again the OR of non-overlapping shifted bytes, written as a sum). */
  function DecodeLE32(b: seq<uint8>): uint32
    requires |b| == 4
  {
    b[0] as int + 0x100 * b[1] as int + 0x1_0000 * b[2] as int + 0x100_0000 * b[3] as int
  }

  /** Little-endian 32-bit encode: byte `i` is `(uint8_t)(v >> 8 * i)`,
      the shift being a division and the narrowing cast a remainder. */
  function EncodeLE32(v: uint32): (b: seq<uint8>)
    ensures |b| == 4
  {
    [v % 0x100, v / 0x100 % 0x100, v / 0x1_0000 % 0x100, v / 0x100_0000 % 0x100]
  }

  /** A number split at one of the byte boundaries used above gives back its two parts. */
  lemma DivModUnique(n: int, base: int, lo: int, hi: int)
    requires base == 0x100 || base == 0x1_0000 || base == 0x100_0000
    requires 0 <= lo < base && n == lo + base * hi
    ensures n / base == hi && n % base == lo
  {
    if base == 0x100 {
      assert n == lo + 0x100 * hi;
    } else if base == 0x1_0000 {
      assert n == lo + 0x1_0000 * hi;
    } else {
      assert n == lo + 0x100_0000 * hi;
    }
  }

  /** Decoding the encoding of a value gives the value back. */
  lemma DecodeEncode(v: uint32)
    ensures DecodeLE32(EncodeLE32(v)) == v
  {
    var q1, q2 := v / 0x100, v / 0x1_0000;
    DivModUnique(v, 0x100, v % 0x100, q1);
    DivModUnique(q1, 0x100, q1 % 0x100, q1 / 0x100);
    DivModUnique(v, 0x1_0000, v % 0x100 + 0x100 * (q1 % 0x100), q1 / 0x100);
    DivModUnique(q2, 0x100, q2 % 0x100, q2 / 0x100);
    DivModUnique(v, 0x100_0000, v % 0x100 + 0x100 * (q1 % 0x100) + 0x1_0000 * (q2 % 0x100), q2 / 0x100);
  }

  /** Encoding the decoding of four bytes gives the bytes back. */
  lemma EncodeDecode(b: seq<uint8>)
    requires |b| == 4
    ensures EncodeLE32(DecodeLE32(b)) == b
  {
    var v := DecodeLE32(b);
    DivModUnique(v, 0x100, b[0], b[1] as int + 0x100 * b[2] as int + 0x1_0000 * b[3] as int);
    DivModUnique(v / 0x100, 0x100, b[1], b[2] as int + 0x100 * b[3] as int);
    DivModUnique(v, 0x1_0000, b[0] as int + 0x100 * b[1] as int, b[2] as int + 0x100 * b[3] as int);
    DivModUnique(v / 0x1_0000, 0x100, b[2], b[3]);
    DivModUnique(v, 0x100_0000, b[0] as int + 0x100 * b[1] as int + 0x1_0000 * b[2] as int, b[3]);
    DivModUnique(v / 0x100_0000, 0x100, b[3], 0);
  }

  /** The `type` field of a record. */
  function RecordType(rec: Record): uint8
  {
    rec[TYPE_OFFSET]
  }

  /** The `code` field of a record: byte 10 is its low byte, byte 11 its high byte. */
  function RecordCode(rec: Record): uint16
  {
    DecodeLE16(rec[CODE_OFFSET], rec[CODE_OFFSET + 1])
  }

  /** The `value` field of a record: byte 12 is its least significant byte,
      byte 15 its most significant. */
  function RecordValue(rec: Record): uint32
  {
    DecodeLE32(rec[VALUE_OFFSET..RECORD_SIZE])
  }

  /** The record with `v` encoded into bytes 12-15 and every other byte kept. */
  function WithValue(rec: Record, v: uint32): (r: Record)
    ensures r[..VALUE_OFFSET] == rec[..VALUE_OFFSET]
    ensures RecordType(r) == RecordType(rec) && RecordCode(r) == RecordCode(rec)
    ensures RecordValue(r) == v
  {
    var r := rec[..VALUE_OFFSET] + EncodeLE32(v);
    assert r[VALUE_OFFSET..RECORD_SIZE] == EncodeLE32(v);
    DecodeEncode(v);
    r
  }

  /** Writing a record's own value back leaves every byte as it was. */
  lemma WithOwnValue(rec: Record)
    ensures WithValue(rec, RecordValue(rec)) == rec
  {
    EncodeDecode(rec[VALUE_OFFSET..RECORD_SIZE]);
    assert rec == rec[..VALUE_OFFSET] + rec[VALUE_OFFSET..RECORD_SIZE];
  }
}
