/**
 * The deterministic CBOR form of a credential record (pico/src/credentials.c), over a
 * model of the data item heads of section 3 of RFC 8949.
 */
module CredentialCodec {
  import opened Bytes
  import Utf8

  const SSID_MAX: nat := 32
  const PSK_MAX: nat := 63
  const HOSTNAME_MAX: nat := 253
  const SPKI_SIZE: nat := 32
  const CBOR_MAX: nat := 448

  datatype Credentials = Credentials(ssid: seq<byte>, psk: seq<byte>, hostname: seq<byte>, port: u16, spki: seq<byte>)

  predicate NoZero(s: seq<byte>) {
    0 !in s
  }

  /** `validate_credentials`; the digest has a fixed size in the record type. */
  function Validate(c: Credentials): Status {
    if |c.ssid| > SSID_MAX || |c.psk| > PSK_MAX || |c.hostname| > HOSTNAME_MAX then LIMIT
    else if c.ssid == [] || c.psk == [] || c.hostname == [] || c.port == 0 then FORMAT
    else if !Utf8.Accepts(c.ssid) || !NoZero(c.ssid) || !NoZero(c.psk)
            || !Utf8.Accepts(c.hostname) || !NoZero(c.hostname) then FORMAT
    else OK
  }

  predicate Valid(c: Credentials) {
    |c.spki| == SPKI_SIZE && Validate(c) == OK
  }

  // ----- data item heads -----

  const UNSIGNED: nat := 0
  const BYTE_STRING: nat := 2
  const TEXT_STRING: nat := 3
  const MAP: nat := 5

  /** The shortest head: what deterministic encoding (section 4.2.1 of RFC 8949) requires. */
  function Head(major: nat, argument: u32): (s: seq<byte>)
    requires major < 8
    ensures 1 <= |s| <= 5
    ensures argument < 0x1_0000 ==> |s| <= 3
    ensures argument < 0x100 ==> |s| <= 2
    ensures argument < 24 ==> |s| == 1
  {
    if argument < 24 then [major * 32 + argument]
    else if argument < 0x100 then [major * 32 + 24, argument]
    else if argument < 0x1_0000 then [major * 32 + 25] + U16Bytes(argument)
    else [major * 32 + 26] + U32Bytes(argument)
  }

  datatype Item = Item(major: nat, argument: nat, rest: seq<byte>)

  /**
   * Reads a head of any of the five definite widths; a truncated head, a reserved width and
   * an indefinite length are refused.
   */
  function ReadHead(s: seq<byte>): Option<Item> {
    if s == [] then None
    else
      var major, info := s[0] / 32, s[0] % 32;
      if info < 24 then Some(Item(major, info, s[1..]))
      else if info == 24 && |s| >= 2 then Some(Item(major, s[1], s[2..]))
      else if info == 25 && |s| >= 3 then Some(Item(major, ReadU16(s[1..3]), s[3..]))
      else if info == 26 && |s| >= 5 then Some(Item(major, ReadU32(s[1..5]), s[5..]))
      else if info == 27 && |s| >= 9 then Some(Item(major, ReadU64(s[1..9]), s[9..]))
      else None
  }

  lemma HeadRoundTrip(major: nat, argument: u32, rest: seq<byte>)
    requires major < 8
    ensures ReadHead(Head(major, argument) + rest) == Some(Item(major, argument, rest))
  {
    var s := Head(major, argument) + rest;
    if argument >= 0x1_0000 {
      assert s[1..5] == U32Bytes(argument);
      U32RoundTrip(argument);
    } else if argument >= 0x100 {
      assert s[1..3] == U16Bytes(argument);
    }
  }

  /** Reads the integer label `key` and gives what follows it. */
  function ReadLabel(s: seq<byte>, key: nat): Option<seq<byte>> {
    match ReadHead(s)
    case None => None
    case Some(item) => if item.major == UNSIGNED && item.argument == key then Some(item.rest) else None
  }

  datatype Value<+T> = Value(value: T, rest: seq<byte>)

  /** A labelled unsigned integer. */
  function ReadUnsigned(s: seq<byte>, key: nat): Option<Value<nat>> {
    match ReadLabel(s, key)
    case None => None
    case Some(after) =>
      match ReadHead(after)
      case None => None
      case Some(item) => if item.major == UNSIGNED then Some(Value(item.argument, item.rest)) else None
  }

  /** A labelled string of the given major type that lies wholly inside the input. */
  function ReadString(s: seq<byte>, key: nat, major: nat): Option<Value<seq<byte>>> {
    match ReadLabel(s, key)
    case None => None
    case Some(after) =>
      match ReadHead(after)
      case None => None
      case Some(item) =>
        if item.major == major && item.argument <= |item.rest|
        then Some(Value(item.rest[..item.argument], item.rest[item.argument..])) else None
  }

  // ----- the record -----

  function UnsignedEntry(key: nat, value: u16): seq<byte>
    requires key < 24
  {
    Head(UNSIGNED, key) + Head(UNSIGNED, value)
  }

  function StringEntry(key: nat, major: nat, value: seq<byte>): seq<byte>
    requires key < 24 && major < 8 && |value| < 0x1_0000
  {
    Head(UNSIGNED, key) + (Head(major, |value|) + value)
  }

  predicate Sized(c: Credentials) {
    |c.ssid| <= SSID_MAX && |c.psk| <= PSK_MAX && |c.hostname| <= HOSTNAME_MAX && |c.spki| == SPKI_SIZE
  }

  /** `encode_canonical`, without its buffer. */
  function Encode(c: Credentials): (s: seq<byte>)
    requires Sized(c)
  {
    Head(MAP, 6) + (UnsignedEntry(1, 1) + EncodeWifi(c))
  }

  function EncodeWifi(c: Credentials): seq<byte>
    requires Sized(c)
  {
    StringEntry(2, BYTE_STRING, c.ssid) + (StringEntry(3, BYTE_STRING, c.psk) + EncodeRoute(c))
  }

  function EncodeRoute(c: Credentials): seq<byte>
    requires Sized(c)
  {
    StringEntry(4, TEXT_STRING, c.hostname) + (UnsignedEntry(5, c.port) + (StringEntry(6, BYTE_STRING, c.spki) + []))
  }

  datatype Result<T> = Good(value: T) | Bad(status: Status)

  /** `pbns_credentials_encode_cbor` into a buffer of `capacity` octets. */
  function EncodeCbor(c: Credentials, capacity: nat): Result<seq<byte>>
    requires |c.spki| == SPKI_SIZE
  {
    if Validate(c) != OK then Bad(Validate(c))
    else if |Encode(c)| > capacity then Bad(LIMIT)
    else Good(Encode(c))
  }

  /** The field-by-field part of the decoder, before validation and the canonical comparison. */
  function ParseFields(s: seq<byte>): Result<Credentials> {
    match ReadHead(s)
    case None => Bad(FORMAT)
    case Some(map6) =>
      if map6.major != MAP || map6.argument != 6 then Bad(FORMAT) else
      match ReadUnsigned(map6.rest, 1)
      case None => Bad(FORMAT)
      case Some(version) =>
        if version.value != 1 then Bad(VERSION) else ParseWifi(version.rest)
  }

  /** Fields 2 and 3. */
  function ParseWifi(s: seq<byte>): Result<Credentials> {
    match ReadString(s, 2, BYTE_STRING)
    case None => Bad(FORMAT)
    case Some(ssid) =>
      if |ssid.value| > SSID_MAX then Bad(LIMIT) else
      match ReadString(ssid.rest, 3, BYTE_STRING)
      case None => Bad(FORMAT)
      case Some(psk) =>
        if |psk.value| > PSK_MAX then Bad(LIMIT) else ParseRoute(ssid.value, psk.value, psk.rest)
  }

  /** Fields 4 to 6, which must end the record. */
  function ParseRoute(ssid: seq<byte>, psk: seq<byte>, s: seq<byte>): Result<Credentials> {
    match ReadString(s, 4, TEXT_STRING)
    case None => Bad(FORMAT)
    case Some(hostname) =>
      if |hostname.value| > HOSTNAME_MAX then Bad(LIMIT) else
      match ReadUnsigned(hostname.rest, 5)
      case None => Bad(FORMAT)
      case Some(port) =>
        if port.value > U16_MAX then Bad(FORMAT) else
        match ReadString(port.rest, 6, BYTE_STRING)
        case None => Bad(FORMAT)
        case Some(spki) =>
          if |spki.value| != SPKI_SIZE || spki.rest != [] then Bad(FORMAT)
          else Good(Credentials(ssid, psk, hostname.value, port.value, spki.value))
  }

  /** `pbns_credentials_decode_cbor`. */
  function DecodeCbor(s: seq<byte>): Result<Credentials> {
    if s == [] then Bad(FORMAT)
    else if |s| > CBOR_MAX then Bad(LIMIT)
    else match ParseFields(s)
      case Bad(status) => Bad(status)
      case Good(c) =>
        ParsedShape(s);
        if Validate(c) != OK then Bad(Validate(c))
        else if Encode(c) != s then Bad(FORMAT)
        else Good(c)
  }

  lemma ParsedShape(s: seq<byte>)
    requires ParseFields(s).Good?
    ensures Sized(ParseFields(s).value)
  {
  }

  // ----- round trip and exactness -----

  lemma ReadUnsignedEntry(key: nat, value: u16, rest: seq<byte>)
    requires key < 24
    ensures ReadUnsigned(UnsignedEntry(key, value) + rest, key) == Some(Value<nat>.Value(value, rest))
  {
    var tail := Head(UNSIGNED, value) + rest;
    assert UnsignedEntry(key, value) + rest == Head(UNSIGNED, key) + tail;
    HeadRoundTrip(UNSIGNED, key, tail);
    HeadRoundTrip(UNSIGNED, value, rest);
  }

  lemma ReadStringEntry(key: nat, major: nat, value: seq<byte>, rest: seq<byte>)
    requires key < 24 && major < 8 && |value| < 0x1_0000
    ensures ReadString(StringEntry(key, major, value) + rest, key, major) == Some(Value(value, rest))
  {
    var body := value + rest;
    var tail := Head(major, |value|) + body;
    assert StringEntry(key, major, value) + rest == Head(UNSIGNED, key) + tail;
    HeadRoundTrip(UNSIGNED, key, tail);
    HeadRoundTrip(major, |value|, body);
    assert body[..|value|] == value && body[|value|..] == rest;
  }

  lemma ParseEncodedRoute(c: Credentials)
    requires Sized(c)
    ensures ParseRoute(c.ssid, c.psk, EncodeRoute(c)) == Good(c)
  {
    var e6 := StringEntry(6, BYTE_STRING, c.spki) + [];
    var e5 := UnsignedEntry(5, c.port) + e6;
    ReadStringEntry(4, TEXT_STRING, c.hostname, e5);
    ReadUnsignedEntry(5, c.port, e6);
    ReadStringEntry(6, BYTE_STRING, c.spki, []);
  }

  lemma ParseEncodedWifi(c: Credentials)
    requires Sized(c)
    ensures ParseWifi(EncodeWifi(c)) == Good(c)
  {
    var e4 := EncodeRoute(c);
    ReadStringEntry(2, BYTE_STRING, c.ssid, StringEntry(3, BYTE_STRING, c.psk) + e4);
    ReadStringEntry(3, BYTE_STRING, c.psk, e4);
    ParseEncodedRoute(c);
  }

  lemma ParseEncoded(c: Credentials)
    requires Sized(c)
    ensures ParseFields(Encode(c)) == Good(c)
  {
    var e2 := EncodeWifi(c);
    HeadRoundTrip(MAP, 6, UnsignedEntry(1, 1) + e2);
    ReadUnsignedEntry(1, 1, e2);
    ParseEncodedWifi(c);
  }

  /** Every valid credential fits the record: at most 399 octets of the 448 allowed. */
  lemma EncodedSize(c: Credentials)
    requires Valid(c)
    ensures 1 <= |Encode(c)| <= 399
  {
  }

  /** The decoder accepts a string exactly when it is the deterministic encoding of a valid credential. */
  lemma DecodeExactly(s: seq<byte>, c: Credentials)
    ensures DecodeCbor(s) == Good(c) <==> Valid(c) && Encode(c) == s
  {
    if DecodeCbor(s) == Good(c) {
      ParsedShape(s);
    }
    if Valid(c) && Encode(c) == s {
      ParseEncoded(c);
      EncodedSize(c);
    }
  }

  /** Encoding and decoding are inverse on the records the store writes. */
  lemma RoundTrip(c: Credentials)
    requires |c.spki| == SPKI_SIZE && Validate(c) == OK
    ensures EncodeCbor(c, CBOR_MAX) == Good(Encode(c)) && DecodeCbor(Encode(c)) == Good(c)
    ensures 1 <= |Encode(c)| <= 399
  {
    EncodedSize(c);
    DecodeExactly(Encode(c), c);
  }
}
