/** Octets, big-endian integers and the result codes shared by every component. */
module Bytes {

  type byte = x: int | 0 <= x < 256
  type u16 = x: int | 0 <= x < 0x1_0000
  type u32 = x: int | 0 <= x < 0x1_0000_0000
  type u64 = x: int | 0 <= x < 0x1_0000_0000_0000_0000

  const U16_MAX: u16 := 0xffff
  const U64_MAX: u64 := 0xffff_ffff_ffff_ffff

  /** `pbns_status`. `Untyped` stands for any value a callback returns outside the enumeration. */
  datatype Status =
    | OK
    | ARGUMENT | LIMIT | FORMAT | CRC | VERSION | SERVICE | MESSAGE_TYPE | SEQUENCE | STATE
    | WOULD_BLOCK | TIMEOUT | TRANSPORT | CRYPTO | AUTHENTICATION | REPLAY | UNSUPPORTED
    | UNIMPLEMENTED | ENTROPY | AMBIGUOUS | RESOURCE | IO | BUSY
    | Untyped(code: int)

  /** `pbns_tcp_io_result`: how an lwIP write or output call went, if it was made. */
  datatype TcpIo = NotRun | Done | Retry | Failed

  datatype Option<+T> = None | Some(value: T)

  /** A 32-bit checksum; `Crc32c.Checksum` is the one every record uses. */
  type Check = seq<byte> -> u32

  function Min(a: int, b: int): (r: int) {
    if a < b then a else b
  }

  function U16Bytes(value: u16): (s: seq<byte>)
    ensures |s| == 2
  {
    [value / 256, value % 256]
  }

  function ReadU16(s: seq<byte>): (value: u16)
    requires |s| == 2
  {
    var high: int := s[0];
    high * 256 + s[1]
  }

  function U32Bytes(value: u32): (s: seq<byte>)
    ensures |s| == 4
  {
    U16Bytes(value / 0x1_0000) + U16Bytes(value % 0x1_0000)
  }

  function ReadU32(s: seq<byte>): (value: u32)
    requires |s| == 4
  {
    var high: int := ReadU16(s[..2]);
    high * 0x1_0000 + ReadU16(s[2..])
  }

  function U64Bytes(value: u64): (s: seq<byte>)
    ensures |s| == 8
  {
    U32Bytes(value / 0x1_0000_0000) + U32Bytes(value % 0x1_0000_0000)
  }

  function ReadU64(s: seq<byte>): (value: u64)
    requires |s| == 8
  {
    var high: int := ReadU32(s[..4]);
    high * 0x1_0000_0000 + ReadU32(s[4..])
  }

  lemma U32RoundTrip(value: u32)
    ensures ReadU32(U32Bytes(value)) == value
  {
    var s := U32Bytes(value);
    assert s[..2] == U16Bytes(value / 0x1_0000) && s[2..] == U16Bytes(value % 0x1_0000);
  }

  /** Reading loses nothing: the four octets are the big-endian form of the value read. */
  lemma U32Injective(s: seq<byte>)
    requires |s| == 4
    ensures U32Bytes(ReadU32(s)) == s
  {
    assert s == s[..2] + s[2..];
  }

  lemma U64RoundTrip(value: u64)
    ensures ReadU64(U64Bytes(value)) == value
  {
    var high, low := value / 0x1_0000_0000, value % 0x1_0000_0000;
    assert U64Bytes(value)[..4] == U32Bytes(high) && U64Bytes(value)[4..] == U32Bytes(low);
    U32RoundTrip(high);
    U32RoundTrip(low);
  }

  lemma U64Injective(s: seq<byte>)
    requires |s| == 8
    ensures U64Bytes(ReadU64(s)) == s
  {
    var high: int, low := ReadU32(s[..4]), ReadU32(s[4..]);
    assert U32Bytes(high) == s[..4] by { U32Injective(s[..4]); }
    assert U32Bytes(low) == s[4..] by { U32Injective(s[4..]); }
    assert (high * 0x1_0000_0000 + low) / 0x1_0000_0000 == high;
    assert s == s[..4] + s[4..];
  }
}
