/**
 * Frames (src/core/frame.c): a checked header, a payload and a checked whole, as a COBS record.
 * The codec is stated for any checksum; what a checksum that detects changes of four
 * consecutive octets adds is stated separately.
 */
module Frame {
  import opened Bytes
  import Cobs
  import Crc32c
  import opened CrcTrailer

  const HEADER_SIZE: nat := 36
  const TRAILER_SIZE: nat := 4
  const CONTROL_PAYLOAD_MAX: nat := 65536
  const DATA_PAYLOAD_MAX: nat := 16384
  const WIRE_MAX: nat := 65836
  const ACK_PAYLOAD_SIZE: nat := 8
  const MAGIC: seq<byte> := [0x50, 0x42, 0x4e, 0x53]   // PBNS

  const DATA: byte := 3
  const ACK: byte := 4
  const CANCEL: byte := 6
  const COMPLETE: byte := 7

  datatype Frame = Frame(service: byte, kind: byte, flags: byte, requestId: seq<byte>, sequence: u32)

  datatype Limits = Limits(control: nat, data: nat, record: nat)

  const V1: Limits := Limits(CONTROL_PAYLOAD_MAX, DATA_PAYLOAD_MAX, WIRE_MAX)

  predicate LimitsAreValid(limits: Limits) {
    limits.control <= CONTROL_PAYLOAD_MAX && limits.data <= DATA_PAYLOAD_MAX && limits.record <= WIRE_MAX
  }

  /** `validate_payload_length`. */
  function LengthStatus(kind: byte, length: nat, limits: Limits): Status {
    if kind == DATA then (if length <= limits.data then OK else LIMIT)
    else if kind == ACK then (if length == ACK_PAYLOAD_SIZE then OK else FORMAT)
    else if kind == CANCEL || kind == COMPLETE then (if length == 0 then OK else FORMAT)
    else if length <= limits.control then OK else LIMIT
  }

  /** `validate_ack_payload`. */
  predicate AckIsValid(kind: byte, payload: seq<byte>)
    requires kind == ACK ==> |payload| == ACK_PAYLOAD_SIZE
  {
    kind == ACK ==> ReadU32(payload[..4]) != 0 && ReadU32(payload[4..]) != 0
  }

  /** What may be sent under the limits. */
  predicate Admissible(f: Frame, payload: seq<byte>, limits: Limits) {
    && 1 <= f.service <= 4 && 1 <= f.kind <= 7 && f.flags == 0 && |f.requestId| == 16
    && LengthStatus(f.kind, |payload|, limits) == OK && AckIsValid(f.kind, payload)
  }

  lemma PayloadBound(f: Frame, payload: seq<byte>, limits: Limits)
    requires LimitsAreValid(limits) && Admissible(f, payload, limits)
    ensures |payload| <= CONTROL_PAYLOAD_MAX && Admissible(f, payload, V1)
  {
  }

  // ----- the raw record -----

  /** The 32 octets the header checksum covers. */
  function Head(f: Frame, length: u32): (s: seq<byte>)
    requires |f.requestId| == 16
    ensures |s| == 32
  {
    MAGIC + [1, f.service, f.kind, f.flags] + f.requestId + U32Bytes(f.sequence) + U32Bytes(length)
  }

  function Sealed(check: Check, s: seq<byte>): (r: seq<byte>)
    ensures |r| == |s| + 4
  {
    s + U32Bytes(check(s))
  }

  /** The record before COBS. */
  function Raw(check: Check, f: Frame, payload: seq<byte>): (s: seq<byte>)
    requires |f.requestId| == 16 && |payload| <= CONTROL_PAYLOAD_MAX
    ensures |s| == HEADER_SIZE + |payload| + TRAILER_SIZE
  {
    Sealed(check, Sealed(check, Head(f, |payload|)) + payload)
  }

  datatype Decoded = Good(frame: Frame, payload: seq<byte>) | Bad(status: Status)

  predicate SealIsValid(check: Check, s: seq<byte>)
    requires |s| >= 4
  {
    ReadU32(s[|s| - 4..]) == check(s[..|s| - 4])
  }

  /** `pbns_frame_decode` after COBS. */
  function DecodeRaw(check: Check, raw: seq<byte>, limits: Limits): Decoded {
    if |raw| < HEADER_SIZE + TRAILER_SIZE || raw[..4] != MAGIC then Bad(FORMAT)
    else if raw[4] != 1 then Bad(VERSION)
    else if !SealIsValid(check, raw[..HEADER_SIZE]) then Bad(CRC)
    else if raw[5] < 1 || raw[5] > 4 then Bad(SERVICE)
    else if raw[6] < 1 || raw[6] > 7 then Bad(MESSAGE_TYPE)
    else if raw[7] != 0 then Bad(FORMAT)
    else
      var length := ReadU32(raw[28..32]);
      if LengthStatus(raw[6], length, limits) != OK then Bad(LengthStatus(raw[6], length, limits))
      else if |raw| != HEADER_SIZE + length + TRAILER_SIZE then Bad(FORMAT)
      else if !SealIsValid(check, raw) then Bad(CRC)
      else
        var payload := raw[HEADER_SIZE..|raw| - TRAILER_SIZE];
        if !AckIsValid(raw[6], payload) then Bad(FORMAT)
        else Good(Frame(raw[5], raw[6], raw[7], raw[8..24], ReadU32(raw[24..28])), payload)
  }

  lemma SealRoundTrip(check: Check, s: seq<byte>)
    ensures SealIsValid(check, Sealed(check, s)) && Sealed(check, s)[..|s|] == s
  {
    var r := Sealed(check, s);
    assert r[..|s|] == s && r[|s|..] == U32Bytes(check(s));
    U32RoundTrip(check(s));
  }

  lemma SealIsExact(check: Check, s: seq<byte>)
    requires |s| >= 4 && SealIsValid(check, s)
    ensures s == Sealed(check, s[..|s| - 4])
  {
    assert s == s[..|s| - 4] + s[|s| - 4..];
    U32Injective(s[|s| - 4..]);
  }

  lemma HeadFields(f: Frame, length: u32)
    requires |f.requestId| == 16
    ensures var s := Head(f, length);
            && s[..4] == MAGIC && s[4] == 1 && s[5] == f.service && s[6] == f.kind && s[7] == f.flags
            && s[8..24] == f.requestId && ReadU32(s[24..28]) == f.sequence && ReadU32(s[28..32]) == length
  {
    HeadLayout(MAGIC, [1, f.service, f.kind, f.flags], f.requestId, U32Bytes(f.sequence), U32Bytes(length));
    U32RoundTrip(f.sequence);
    U32RoundTrip(length);
  }

  lemma HeadLayout(magic: seq<byte>, kind: seq<byte>, id: seq<byte>, sequence: seq<byte>, length: seq<byte>)
    requires |magic| == 4 && |kind| == 4 && |id| == 16 && |sequence| == 4 && |length| == 4
    ensures var s := magic + kind + id + sequence + length;
            && s[..4] == magic && s[4] == kind[0] && s[5] == kind[1] && s[6] == kind[2] && s[7] == kind[3]
            && s[8..24] == id && s[24..28] == sequence && s[28..32] == length
  {
  }

  /** Any 32 octets with the right magic, version and flags are the head of what they say. */
  lemma HeadIsExact(s: seq<byte>)
    requires |s| == 32 && s[..4] == MAGIC && s[4] == 1
    ensures s == Head(Frame(s[5], s[6], s[7], s[8..24], ReadU32(s[24..28])), ReadU32(s[28..32]))
  {
    U32Injective(s[24..28]);
    U32Injective(s[28..32]);
    assert s == s[..4] + s[4..8] + s[8..24] + s[24..28] + s[28..32];
    assert s[4..8] == [s[4], s[5], s[6], s[7]];
  }

  lemma RawFields(check: Check, f: Frame, payload: seq<byte>)
    requires |f.requestId| == 16 && |payload| <= CONTROL_PAYLOAD_MAX
    ensures var raw, header := Raw(check, f, payload), Sealed(check, Head(f, |payload|));
            && raw[..36] == header && raw[..32] == Head(f, |payload|)
            && SealIsValid(check, header) && SealIsValid(check, raw)
            && raw[HEADER_SIZE..|raw| - TRAILER_SIZE] == payload
  {
    var head := Head(f, |payload|);
    var header := Sealed(check, head);
    SealRoundTrip(check, head);
    SealRoundTrip(check, header + payload);
    RawLayout(head, U32Bytes(check(head)), payload, U32Bytes(check(header + payload)));
  }

  lemma RawLayout(head: seq<byte>, seal: seq<byte>, payload: seq<byte>, trailer: seq<byte>)
    requires |head| == 32 && |seal| == 4 && |trailer| == 4
    ensures var raw := head + seal + payload + trailer;
            raw[..32] == head && raw[..36] == head + seal && raw[36..|raw| - 4] == payload
  {
  }

  /** Whatever the octets outside its first 32 are, a record's fields are those of its head. */
  lemma Within(raw: seq<byte>, head: seq<byte>)
    requires |raw| >= 32 && raw[..32] == head
    ensures raw[..4] == head[..4] && raw[4] == head[4] && raw[5] == head[5] && raw[6] == head[6] && raw[7] == head[7]
    ensures raw[8..24] == head[8..24] && raw[24..28] == head[24..28] && raw[28..32] == head[28..32]
  {
  }

  lemma RawDecodes(check: Check, f: Frame, payload: seq<byte>, limits: Limits)
    requires LimitsAreValid(limits) && Admissible(f, payload, limits)
    ensures |payload| <= CONTROL_PAYLOAD_MAX && DecodeRaw(check, Raw(check, f, payload), limits) == Good(f, payload)
  {
    PayloadBound(f, payload, limits);
    RawFields(check, f, payload);
    HeadFields(f, |payload|);
    Within(Raw(check, f, payload), Head(f, |payload|));
  }

  lemma DecodedIsRaw(check: Check, raw: seq<byte>, limits: Limits)
    requires LimitsAreValid(limits) && DecodeRaw(check, raw, limits).Good?
    ensures var d := DecodeRaw(check, raw, limits);
            Admissible(d.frame, d.payload, limits) && |d.payload| <= CONTROL_PAYLOAD_MAX
            && raw == Raw(check, d.frame, d.payload)
  {
    var d := DecodeRaw(check, raw, limits);
    var head, header := raw[..32], raw[..36];
    Within(raw, head);
    HeadIsExact(head);
    assert header[..32] == head;
    SealIsExact(check, header);
    SealIsExact(check, raw);
    assert raw[..|raw| - 4] == header + d.payload;
  }

  /** A raw record is accepted exactly when it is the record of an admissible frame, and gives it back. */
  lemma DecodeRawExactly(check: Check, raw: seq<byte>, limits: Limits, f: Frame, payload: seq<byte>)
    requires LimitsAreValid(limits)
    ensures DecodeRaw(check, raw, limits) == Good(f, payload)
            <==> Admissible(f, payload, limits) && |payload| <= CONTROL_PAYLOAD_MAX && raw == Raw(check, f, payload)
  {
    if Admissible(f, payload, limits) {
      RawDecodes(check, f, payload, limits);
    }
    if DecodeRaw(check, raw, limits).Good? {
      DecodedIsRaw(check, raw, limits);
    }
  }

  lemma WindowInFront(a: seq<byte>, b: seq<byte>, n: nat, at: nat)
    requires Crc32c.AgreeOutside(a, b, at) && at + 4 <= n <= |a|
    ensures Crc32c.AgreeOutside(a[..n], b[..n], at) && a[n..] == b[n..]
  {
  }

  lemma WindowBehind(a: seq<byte>, b: seq<byte>, n: nat, at: nat)
    requires Crc32c.AgreeOutside(a, b, at) && n <= at && n <= |a|
    ensures a[..n] == b[..n]
  {
  }

  lemma SameContent(check: Check, a: seq<byte>, b: seq<byte>, at: nat)
    requires Crc32c.Detects(check) && Crc32c.AgreeOutside(a, b, at) && check(a) == check(b)
    ensures a == b
  {
  }

  lemma SameSeal(s: seq<byte>, t: seq<byte>)
    requires |s| == 4 && |t| == 4 && ReadU32(s) == ReadU32(t)
    ensures s == t
  {
    U32Injective(s);
    U32Injective(t);
  }

  lemma Halves(a: seq<byte>, b: seq<byte>, n: nat)
    requires n <= |a| && n <= |b| && a[..n] == b[..n] && a[n..] == b[n..]
    ensures a == b
  {
    assert a == a[..n] + a[n..] && b == b[..n] + b[n..];
  }

  /** Two sealed records that differ at most in one window, clear of the start of the seal, are the same. */
  lemma SealedWindow(check: Check, a: seq<byte>, b: seq<byte>, at: nat)
    requires Crc32c.Detects(check) && Crc32c.AgreeOutside(a, b, at) && |a| >= 4
    requires SealIsValid(check, a) && SealIsValid(check, b)
    requires at + 4 <= |a| - 4 || |a| - 4 <= at
    ensures a == b
  {
    var n := |a| - 4;
    if at + 4 <= n {
      WindowInFront(a, b, n, at);
      SameContent(check, a[..n], b[..n], at);
    } else {
      WindowBehind(a, b, n, at);
      SameSeal(a[n..], b[n..]);
    }
    Halves(a, b, n);
  }

  /**
   * A raw record changed only inside four consecutive octets that do not straddle the start
   * of its trailer is refused.
   */
  lemma WindowIsRefused(check: Check, raw: seq<byte>, other: seq<byte>, at: nat, limits: Limits)
    requires Crc32c.Detects(check) && DecodeRaw(check, raw, limits).Good?
    requires Crc32c.AgreeOutside(raw, other, at) && raw != other
    requires at + 4 <= |raw| - TRAILER_SIZE || |raw| - TRAILER_SIZE <= at
    ensures DecodeRaw(check, other, limits).Bad?
  {
    if DecodeRaw(check, other, limits).Good? {
      SealedWindow(check, raw, other, at);
    }
  }

  // ----- windows across the start of the seal -----

  const MASK1: seq<byte> := [0x5d, 0xee, 0x0d, 0x96]
  const MASK2: seq<byte> := [0x4d, 0x90, 0xad, 0x83]

  function ChangedBy(xor: (byte, byte) -> byte, s: seq<byte>, at: nat, mask: seq<byte>): (r: seq<byte>)
    requires at + 4 <= |s| && |mask| == 4
    ensures |r| == |s|
  {
    s[..at] + MaskedBy(xor, s[at..at + 4], mask) + s[at + 4..]
  }

  /** `s` with the four octets at `at` changed by exclusive or. */
  function Changed(s: seq<byte>, at: nat, mask: seq<byte>): (r: seq<byte>)
    requires at + 4 <= |s| && |mask| == 4
    ensures |r| == |s|
  {
    ChangedBy(OctetXor, s, at, mask)
  }

  lemma ChangedOctets(xor: (byte, byte) -> byte, s: seq<byte>, r: seq<byte>, at: nat, mask: seq<byte>)
    requires at + 4 <= |s| && |mask| == 4 && Crc32c.AgreeOutside(s, r, at)
    ensures r == ChangedBy(xor, s, at, mask)
            <==> forall i {:trigger mask[i]} :: 0 <= i < 4 ==> r[at + i] == xor(s[at + i], mask[i])
  {
    var c := ChangedBy(xor, s, at, mask);
    assert forall i {:trigger mask[i]} :: 0 <= i < 4 ==> c[at + i] == xor(s[at + i], mask[i]);
    if forall i {:trigger mask[i]} :: 0 <= i < 4 ==> r[at + i] == xor(s[at + i], mask[i]) {
      forall j | 0 <= j < |s| ensures r[j] == c[j] {
        if at <= j < at + 4 {
          assert r[at + (j - at)] == xor(s[at + (j - at)], mask[j - at]);
        }
      }
    }
  }

  lemma ChangedAgrees(s: seq<byte>, at: nat, mask: seq<byte>)
    requires at + 4 <= |s| && |mask| == 4
    ensures Crc32c.AgreeOutside(s, Changed(s, at, mask), at)
  {
  }

  lemma MaskedParts(xor: (byte, byte) -> byte, a: seq<byte>, b: seq<byte>, mask: seq<byte>, n: nat)
    requires n <= |a| == |mask| && n <= |b|
    ensures b[..n] == MaskedBy(xor, a, mask)[..n] <==>
            forall i {:trigger b[i]} :: 0 <= i < n ==> b[i] == xor(a[i], mask[i])
  {
    var m := MaskedBy(xor, a, mask);
    if b[..n] == m[..n] {
      forall i | 0 <= i < n ensures b[i] == xor(a[i], mask[i]) {
        assert b[..n][i] == m[..n][i];
      }
    }
  }

  /** A change across the start of the seal, octet by octet and part by part. */
  lemma ChangedParts(
      xor: (byte, byte) -> byte, a: seq<byte>, b: seq<byte>, n: nat, k: nat, slip: seq<byte>, made: seq<byte>)
    requires n + 4 == |a| && 1 <= k <= 3 && k <= n && |slip| == k && |made| == 4 && Crc32c.AgreeOutside(a, b, n - k)
    ensures b == ChangedBy(xor, a, n - k, slip + made[..4 - k])
            <==> b[n - k..n] == MaskedBy(xor, a[n - k..n], slip)
                 && b[n..][..4 - k] == MaskedBy(xor, a[n..], made)[..4 - k]
  {
    var mask := slip + made[..4 - k];
    ChangedOctets(xor, a, b, n - k, mask);
    MaskedParts(xor, a[n - k..n], b[n - k..n], slip, k);
    MaskedParts(xor, a[n..], b[n..], made, 4 - k);
    assert b[n - k..n][..k] == b[n - k..n];
    assert MaskedBy(xor, a[n - k..n], slip)[..k] == MaskedBy(xor, a[n - k..n], slip);
    OctetsInParts(xor, a, b, n, k, slip, made);
  }

  lemma OctetsInParts(
      xor: (byte, byte) -> byte, a: seq<byte>, b: seq<byte>, n: nat, k: nat, slip: seq<byte>, made: seq<byte>)
    requires n + 4 == |a| == |b| && 1 <= k <= 3 && k <= n && |slip| == k && |made| == 4
    ensures var mask, x, y, s, t := slip + made[..4 - k], a[n - k..n], b[n - k..n], a[n..], b[n..];
            (forall i {:trigger mask[i]} :: 0 <= i < 4 ==> b[n - k + i] == xor(a[n - k + i], mask[i]))
            <==> (&& (forall i {:trigger y[i]} :: 0 <= i < k ==> y[i] == xor(x[i], slip[i]))
                  && (forall i {:trigger t[i]} :: 0 <= i < 4 - k ==> t[i] == xor(s[i], made[i])))
  {
    var mask, x, y, s, t := slip + made[..4 - k], a[n - k..n], b[n - k..n], a[n..], b[n..];
    if forall i {:trigger mask[i]} :: 0 <= i < 4 ==> b[n - k + i] == xor(a[n - k + i], mask[i]) {
      forall i | 0 <= i < k ensures y[i] == xor(x[i], slip[i]) {
        assert mask[i] == slip[i];
      }
      forall i | 0 <= i < 4 - k ensures t[i] == xor(s[i], made[i]) {
        assert mask[i + k] == made[i];
      }
    }
    if (forall i {:trigger y[i]} :: 0 <= i < k ==> y[i] == xor(x[i], slip[i]))
       && (forall i {:trigger t[i]} :: 0 <= i < 4 - k ==> t[i] == xor(s[i], made[i])) {
      forall i | 0 <= i < 4 ensures b[n - k + i] == xor(a[n - k + i], mask[i]) {
        if i < k {
          assert y[i] == xor(x[i], slip[i]);
        } else {
          assert t[i - k] == xor(s[i - k], made[i - k]);
        }
      }
    }
  }

  lemma SealOctets(check: Check, s: seq<byte>)
    requires |s| >= 4
    ensures SealIsValid(check, s) <==> s[|s| - 4..] == U32Bytes(check(s[..|s| - 4]))
  {
    U32Injective(s[|s| - 4..]);
    U32RoundTrip(check(s[..|s| - 4]));
  }

  /** What a change that slips, of `k` octets, does to the checksum. */
  function Made(k: nat): (m: seq<byte>)
    ensures |m| == 4
  {
    if k == 1 then MADE1 else MADE2
  }

  lemma JoinFour(s: seq<byte>, t: seq<byte>, n: nat)
    requires |s| == |t| == 4 && n <= 4 && s[..n] == t[..n] && s[n..] == t[n..]
    ensures s == t
  {
    assert s == s[..n] + s[n..] && t == t[..n] + t[n..];
  }

  lemma TrailsAt(check: Check, p: seq<byte>, x: seq<byte>, y: seq<byte>)
    requires TrailsAlways(check) && 1 <= |x| == |y| <= 3
    ensures Trails(U32Bytes(check(p + x)), U32Bytes(check(p + y)), x, y)
  {
  }

  /** A message ending in `x` and its seal `s` become one ending in `y` with `t` behind it: when `t` seals that. */
  lemma PartsDecide(check: Check, p: seq<byte>, x: seq<byte>, s: seq<byte>, y: seq<byte>, t: seq<byte>)
    requires TrailsAlways(check) && 1 <= |x| == |y| <= 3 && |t| == 4
    requires s == U32Bytes(check(p + x)) && s[4 - |x|..] == t[4 - |x|..] && (x != y || s != t)
    ensures t == U32Bytes(check(p + y)) <==> Slips(x, y) && t[..4 - |x|] == Masked(s, Made(|x|))[..4 - |x|]
  {
    TrailsAt(check, p, x, y);
    var k, c := |x|, U32Bytes(check(p + y));
    if Slips(x, y) {
      assert c == Masked(s, Made(k)) && s[4 - k..] == c[4 - k..];
      if t[..4 - k] == c[..4 - k] {
        JoinFour(t, c, 4 - k);
      }
    }
  }

  predicate SlipsAt(a: seq<byte>, b: seq<byte>, n: nat, k: nat)
    requires n + 4 == |a| && 1 <= k <= 3 && k <= n
  {
    (k == 1 && b == Changed(a, n - 1, MASK1)) || (k == 2 && b == Changed(a, n - 2, MASK2))
  }

  lemma WindowAcross(a: seq<byte>, b: seq<byte>, n: nat, k: nat)
    requires n + 4 == |a| && 1 <= k <= 3 && k <= n && Crc32c.AgreeOutside(a, b, n - k)
    ensures a[..n] == a[..n - k] + a[n - k..n] && b[..n] == a[..n - k] + b[n - k..n]
    ensures a[n..][4 - k..] == b[n..][4 - k..]
    ensures a[n - k..n] == b[n - k..n] && a[n..] == b[n..] ==> a == b
  {
    assert a[..n - k] == b[..n - k];
    if a[n - k..n] == b[n - k..n] && a[n..] == b[n..] {
      assert a == a[..n - k] + a[n - k..n] + a[n..] && b == b[..n - k] + b[n - k..n] + b[n..];
    }
  }

  /** A sealed record changed inside a window that starts `k` octets before its seal is sealed exactly if it slips. */
  lemma SealAcross(check: Check, a: seq<byte>, b: seq<byte>, n: nat, k: nat)
    requires TrailsAlways(check) && n + 4 == |a| && 1 <= k <= 3 && k <= n
    requires Crc32c.AgreeOutside(a, b, n - k) && a != b && SealIsValid(check, a)
    ensures SealIsValid(check, b) <==> SlipsAt(a, b, n, k)
  {
    var p, x, y, s, t := a[..n - k], a[n - k..n], b[n - k..n], a[n..], b[n..];
    WindowAcross(a, b, n, k);
    SealOctets(check, a);
    SealOctets(check, b);
    PartsDecide(check, p, x, s, y, t);
    assert MASK1 == SLIP1 + MADE1[..3] && MASK2 == SLIP2 + MADE2[..2];
    if k == 1 {
      ChangedParts(OctetXor, a, b, n, 1, SLIP1, MADE1);
    } else if k == 2 {
      ChangedParts(OctetXor, a, b, n, 2, SLIP2, MADE2);
    }
  }

  lemma XorStays(c: bv8, d: bv8)
    requires c ^ d == c
    ensures d == 0
  {
  }

  lemma SameInt(c: bv8, d: bv8)
    requires c as int == d as int
    ensures c == d
  {
    Crc32c.IntOfOctet(c);
    Crc32c.IntOfOctet(d);
  }

  lemma XorMoves(v: byte, m: byte)
    requires m as bv8 != 0
    ensures OctetXor(v, m) != v
  {
    var c, d := v as bv8, m as bv8;
    Crc32c.OctetOfInt(v);
    if (c ^ d) as int == c as int {
      SameInt(c ^ d, c);
      XorStays(c, d);
    }
  }

  /** The last payload octet, or the last two, and the trailer behind changed so that the record is sealed again. */
  predicate Slipped(raw: seq<byte>, other: seq<byte>)
    requires |raw| >= HEADER_SIZE + TRAILER_SIZE
  {
    var n := |raw| - TRAILER_SIZE;
    (n > HEADER_SIZE && SlipsAt(raw, other, n, 1)) || (n > HEADER_SIZE + 1 && SlipsAt(raw, other, n, 2))
  }

  lemma ChangedFront(s: seq<byte>, at: nat, mask: seq<byte>, n: nat)
    requires n <= at && at + 4 <= |s| && |mask| == 4
    ensures Changed(s, at, mask)[..n] == s[..n]
  {
  }

  lemma SlipIsSealed(check: Check, raw: seq<byte>, other: seq<byte>, n: nat, k: nat)
    requires TrailsAlways(check) && n + 4 == |raw| && 1 <= k <= 2 && HEADER_SIZE + k <= n && SealIsValid(check, raw)
    requires raw != other && SlipsAt(raw, other, n, k)
    ensures |other| == |raw| && SealIsValid(check, other) && other[..HEADER_SIZE] == raw[..HEADER_SIZE]
  {
    var mask := if k == 1 then MASK1 else MASK2;
    ChangedAgrees(raw, n - k, mask);
    ChangedFront(raw, n - k, mask, HEADER_SIZE);
    SealAcross(check, raw, other, n, k);
  }

  lemma SlippedIsSealed(check: Check, raw: seq<byte>, other: seq<byte>)
    requires TrailsAlways(check) && |raw| >= HEADER_SIZE + TRAILER_SIZE && SealIsValid(check, raw)
    requires raw != other && Slipped(raw, other)
    ensures |other| == |raw| && SealIsValid(check, other) && other[..HEADER_SIZE] == raw[..HEADER_SIZE]
  {
    var n := |raw| - TRAILER_SIZE;
    if n > HEADER_SIZE && SlipsAt(raw, other, n, 1) {
      SlipIsSealed(check, raw, other, n, 1);
    } else {
      SlipIsSealed(check, raw, other, n, 2);
    }
  }

  /** The header octets of a record that is sealed twice cannot have slipped. */
  lemma HeaderHolds(check: Check, raw: seq<byte>, other: seq<byte>, k: nat)
    requires |raw| == |other| >= HEADER_SIZE + TRAILER_SIZE && 1 <= k <= 2
    requires Crc32c.AgreeOutside(raw, other, |raw| - TRAILER_SIZE - k)
    requires SealIsValid(check, raw[..HEADER_SIZE]) && SealIsValid(check, other[..HEADER_SIZE])
    requires raw[|raw| - TRAILER_SIZE - k] != other[|raw| - TRAILER_SIZE - k]
    ensures |raw| >= HEADER_SIZE + TRAILER_SIZE + k
  {
    SameHeads(check, raw, other);
    var i := |raw| - TRAILER_SIZE - k;
    if i < HEADER_SIZE {
      HeadOctet(raw, other, i);
    }
  }

  lemma SameHeads(check: Check, raw: seq<byte>, other: seq<byte>)
    requires |raw| >= HEADER_SIZE && |other| >= HEADER_SIZE && raw[..HEADER_SIZE][..32] == other[..HEADER_SIZE][..32]
    requires SealIsValid(check, raw[..HEADER_SIZE]) && SealIsValid(check, other[..HEADER_SIZE])
    ensures raw[..HEADER_SIZE] == other[..HEADER_SIZE]
  {
    SealOctets(check, raw[..HEADER_SIZE]);
    SealOctets(check, other[..HEADER_SIZE]);
    Halves(raw[..HEADER_SIZE], other[..HEADER_SIZE], 32);
  }

  lemma HeadOctet(raw: seq<byte>, other: seq<byte>, i: nat)
    requires i < HEADER_SIZE <= |raw| && HEADER_SIZE <= |other| && raw[..HEADER_SIZE] == other[..HEADER_SIZE]
    ensures raw[i] == other[i]
  {
    assert raw[i] == raw[..HEADER_SIZE][i] && other[i] == other[..HEADER_SIZE][i];
  }

  /** With the header unchanged and the record sealed, only the payload of an ACK can be refused. */
  lemma SameHeader(check: Check, raw: seq<byte>, other: seq<byte>, limits: Limits)
    requires DecodeRaw(check, raw, limits).Good? && |other| == |raw| && other[..HEADER_SIZE] == raw[..HEADER_SIZE]
    requires SealIsValid(check, other)
    ensures DecodeRaw(check, other, limits).Good? <==> AckIsValid(raw[6], other[HEADER_SIZE..|raw| - TRAILER_SIZE])
  {
    assert other[..32] == raw[..HEADER_SIZE][..32] == raw[..32];
    Within(raw, raw[..32]);
    Within(other, raw[..32]);
  }

  lemma SlipsFirst(a: seq<byte>, b: seq<byte>, n: nat, k: nat)
    requires n + 4 == |a| && 1 <= k <= 3 && k <= n && SlipsAt(a, b, n, k)
    ensures k <= 2 && |b| == |a| && b[n - k] != a[n - k]
  {
    if k == 1 {
      XorMoves(a[n - 1], MASK1[0]);
    } else {
      XorMoves(a[n - 2], MASK2[0]);
    }
  }

  lemma GoodIsSealed(check: Check, raw: seq<byte>, limits: Limits)
    requires DecodeRaw(check, raw, limits).Good?
    ensures |raw| >= HEADER_SIZE + TRAILER_SIZE && SealIsValid(check, raw) && SealIsValid(check, raw[..HEADER_SIZE])
  {
  }

  lemma SealedTwice(check: Check, raw: seq<byte>, other: seq<byte>, k: nat)
    requires TrailsAlways(check) && |raw| >= HEADER_SIZE + TRAILER_SIZE && 1 <= k <= 3
    requires Crc32c.AgreeOutside(raw, other, |raw| - TRAILER_SIZE - k) && raw != other
    requires SealIsValid(check, raw) && SealIsValid(check, raw[..HEADER_SIZE])
    requires SealIsValid(check, other) && SealIsValid(check, other[..HEADER_SIZE])
    ensures Slipped(raw, other)
  {
    var n := |raw| - TRAILER_SIZE;
    SealAcross(check, raw, other, n, k);
    SlipsFirst(raw, other, n, k);
    HeaderHolds(check, raw, other, k);
    SlipsInPayload(raw, other, n, k);
  }

  lemma SlipsInPayload(raw: seq<byte>, other: seq<byte>, n: nat, k: nat)
    requires n + TRAILER_SIZE == |raw| && 1 <= k <= 2 && HEADER_SIZE + k <= n && SlipsAt(raw, other, n, k)
    ensures Slipped(raw, other)
  {
  }

  lemma AcrossIsDecided(check: Check, raw: seq<byte>, other: seq<byte>, k: nat, limits: Limits)
    requires TrailsAlways(check) && DecodeRaw(check, raw, limits).Good? && 1 <= k <= 3
    requires Crc32c.AgreeOutside(raw, other, |raw| - TRAILER_SIZE - k) && raw != other
    ensures DecodeRaw(check, other, limits).Good? ==> Slipped(raw, other)
  {
    GoodIsSealed(check, raw, limits);
    if DecodeRaw(check, other, limits).Good? {
      GoodIsSealed(check, other, limits);
      SealedTwice(check, raw, other, k);
    }
  }

  /** For any checksum that detects windows and trails as CRC-32C does. */
  lemma WindowDecides(check: Check, raw: seq<byte>, other: seq<byte>, at: nat, limits: Limits)
    requires Crc32c.Detects(check) && TrailsAlways(check) && DecodeRaw(check, raw, limits).Good?
    requires Crc32c.AgreeOutside(raw, other, at) && raw != other
    ensures DecodeRaw(check, other, limits).Good?
            <==> Slipped(raw, other) && AckIsValid(raw[6], other[HEADER_SIZE..|raw| - TRAILER_SIZE])
  {
    if Slipped(raw, other) {
      SlippedIsSealed(check, raw, other);
      SameHeader(check, raw, other, limits);
    } else if at + 4 <= |raw| - TRAILER_SIZE || |raw| - TRAILER_SIZE <= at {
      WindowIsRefused(check, raw, other, at, limits);
    } else {
      AcrossIsDecided(check, raw, other, |raw| - TRAILER_SIZE - at, limits);
    }
  }

  /**
   * An accepted raw record changed inside any four consecutive octets is accepted again exactly
   * when the last octet of its payload has changed by 0x5d, or the last two by 0x4d and 0x90, and
   * the trailer octets in the window to match, and the payload is still one its type may have.
   */
  lemma WindowIsDecided(raw: seq<byte>, other: seq<byte>, at: nat, limits: Limits)
    requires DecodeRaw(Crc32c.Checksum, raw, limits).Good?
    requires Crc32c.AgreeOutside(raw, other, at) && raw != other
    ensures DecodeRaw(Crc32c.Checksum, other, limits).Good?
            <==> Slipped(raw, other) && AckIsValid(raw[6], other[HEADER_SIZE..|raw| - TRAILER_SIZE])
  {
    Crc32c.ChecksumDetects();
    ChecksumTrails();
    WindowDecides(Crc32c.Checksum, raw, other, at, limits);
  }

  const PROBE: Frame := Frame(1, 1, 0, [0, 0, 0, 0, 0, 0, 0, 0, 0, 0, 0, 0, 0, 0, 0, 0], 0)

  /** A frame that slips is the frame of another payload. */
  lemma SlippedFrame(check: Check, f: Frame, payload: seq<byte>, other: seq<byte>)
    requires TrailsAlways(check) && Admissible(f, payload, V1) && f.kind != ACK && |payload| <= CONTROL_PAYLOAD_MAX
    requires Raw(check, f, payload) != other && Slipped(Raw(check, f, payload), other)
    ensures |other| == |Raw(check, f, payload)|
    ensures var slip := other[HEADER_SIZE..|other| - TRAILER_SIZE];
            DecodeRaw(check, other, V1) == Good(f, slip) && other == Raw(check, f, slip)
  {
    var raw := Raw(check, f, payload);
    RawDecodes(check, f, payload, V1);
    GoodParts(check, raw, V1);
    SlippedIsSealed(check, raw, other);
    SameHeader(check, raw, other, V1);
    GoodParts(check, other, V1);
    DecodedIsRaw(check, other, V1);
    SameFrame(check, raw, other);
  }

  lemma GoodParts(check: Check, raw: seq<byte>, limits: Limits)
    requires DecodeRaw(check, raw, limits).Good?
    ensures |raw| >= HEADER_SIZE + TRAILER_SIZE && SealIsValid(check, raw)
    ensures var d := DecodeRaw(check, raw, limits);
            d.payload == raw[HEADER_SIZE..|raw| - TRAILER_SIZE] && d.frame.kind == raw[6]
  {
  }

  lemma SameFrame(check: Check, raw: seq<byte>, other: seq<byte>)
    requires DecodeRaw(check, raw, V1).Good? && DecodeRaw(check, other, V1).Good?
    requires |other| == |raw| && other[..HEADER_SIZE] == raw[..HEADER_SIZE]
    ensures DecodeRaw(check, raw, V1).frame == DecodeRaw(check, other, V1).frame
  {
    assert other[..32] == raw[..HEADER_SIZE][..32] == raw[..32];
    Within(raw, raw[..32]);
    Within(other, raw[..32]);
  }

  lemma ZeroBits(c: bv8, d: bv8)
    requires c == 0
    ensures c ^ d == d
  {
  }

  lemma ZeroXor(m: byte)
    ensures OctetXor(0, m) == m
  {
    var zero: byte := 0;
    ZeroBits(zero as bv8, m as bv8);
    Crc32c.OctetOfInt(m);
  }

  lemma ChangedPayload(raw: seq<byte>, n: nat, k: nat, mask: seq<byte>)
    requires n + 4 == |raw| && 1 <= k <= 2 && HEADER_SIZE + k == n && |mask| == 4
    ensures |Changed(raw, n - k, mask)| == |raw|
    ensures var slip := Changed(raw, n - k, mask)[HEADER_SIZE..n];
            && slip[0] == OctetXor(raw[HEADER_SIZE], mask[0])
            && (k == 2 ==> slip[1] == OctetXor(raw[HEADER_SIZE + 1], mask[1]))
  {
  }

  /** Two requests whose raw records are both accepted and differ only in four consecutive octets. */
  predicate Confusable(check: Check, payload: seq<byte>, slip: seq<byte>)
    requires |payload| <= CONTROL_PAYLOAD_MAX && |slip| <= CONTROL_PAYLOAD_MAX
  {
    var a, b := Raw(check, PROBE, payload), Raw(check, PROBE, slip);
    && a != b && Crc32c.AgreeOutside(a, b, HEADER_SIZE)
    && DecodeRaw(check, a, V1) == Good(PROBE, payload) && DecodeRaw(check, b, V1) == Good(PROBE, slip)
  }

  lemma ProbeChanged(check: Check, payload: seq<byte>, slip: seq<byte>, mask: seq<byte>)
    requires 1 <= |payload| == |slip| <= 2 && |mask| == 4
    requires slip[0] == OctetXor(payload[0], mask[0]) && (|payload| == 2 ==> slip[1] == OctetXor(payload[1], mask[1]))
    ensures var a := Raw(check, PROBE, payload);
            Changed(a, HEADER_SIZE, mask)[HEADER_SIZE..|a| - TRAILER_SIZE] == slip
            && a[HEADER_SIZE..|a| - TRAILER_SIZE] == payload
  {
    var a := Raw(check, PROBE, payload);
    RawFields(check, PROBE, payload);
    var q := a[HEADER_SIZE..|a| - TRAILER_SIZE];
    assert q[0] == a[HEADER_SIZE] && (|payload| == 2 ==> q[1] == a[HEADER_SIZE + 1]);
    ChangedPayload(a, |a| - TRAILER_SIZE, |payload|, mask);
  }

  lemma SlipConfuses(check: Check, payload: seq<byte>, slip: seq<byte>, other: seq<byte>)
    requires TrailsAlways(check) && 1 <= |payload| <= 2 && payload != slip
    requires var a := Raw(check, PROBE, payload);
             && |other| == |a| && a[HEADER_SIZE..|a| - TRAILER_SIZE] == payload
             && other[HEADER_SIZE..|a| - TRAILER_SIZE] == slip
             && Slipped(a, other) && Crc32c.AgreeOutside(a, other, HEADER_SIZE)
    ensures |slip| == |payload| && Confusable(check, payload, slip)
  {
    RawDecodes(check, PROBE, payload, V1);
    SlippedFrame(check, PROBE, payload, other);
  }

  lemma ProbeSlips(check: Check, payload: seq<byte>, slip: seq<byte>, mask: seq<byte>)
    requires TrailsAlways(check) && payload != slip
    requires (|payload| == 1 && mask == MASK1) || (|payload| == 2 && mask == MASK2)
    requires |slip| == |payload| && slip[0] == OctetXor(payload[0], mask[0])
    requires |payload| == 2 ==> slip[1] == OctetXor(payload[1], mask[1])
    ensures Confusable(check, payload, slip)
  {
    var a := Raw(check, PROBE, payload);
    var other := Changed(a, HEADER_SIZE, mask);
    ProbeChanged(check, payload, slip, mask);
    ChangedAgrees(a, HEADER_SIZE, mask);
    SlipsInPayload(a, other, |a| - TRAILER_SIZE, |payload|);
    SlipConfuses(check, payload, slip, other);
  }

  lemma RequestsSlip(check: Check)
    requires TrailsAlways(check)
    ensures Confusable(check, [0x00], [0x5d]) && Confusable(check, [0x00, 0x00], [0x4d, 0x90])
  {
    ZeroXor(0x5d);
    ZeroXor(0x4d);
    ZeroXor(0x90);
    ProbeSlips(check, [0x00], [0x5d], MASK1);
    ProbeSlips(check, [0x00, 0x00], [0x4d, 0x90], MASK2);
  }

  /** The exception is met by real frames. */
  lemma FramesCanSlip()
    ensures Confusable(Crc32c.Checksum, [0x00], [0x5d]) && Confusable(Crc32c.Checksum, [0x00, 0x00], [0x4d, 0x90])
  {
    ChecksumTrails();
    RequestsSlip(Crc32c.Checksum);
  }

  // ----- the wire -----

  function CobsMax(length: nat): nat {
    length + length / 254 + 1
  }

  /** The COBS record of a frame. */
  function Record(check: Check, f: Frame, payload: seq<byte>): (w: seq<byte>)
    requires |f.requestId| == 16 && |payload| <= CONTROL_PAYLOAD_MAX
  {
    Cobs.Encode(Raw(check, f, payload))
  }

  /** The decision of `pbns_frame_decode`, given room for the raw record. */
  function DecodeRecord(check: Check, record: seq<byte>, limits: Limits): Decoded {
    if !LimitsAreValid(limits) then Bad(ARGUMENT)
    else if |record| + 1 > limits.record then Bad(LIMIT)
    else match Cobs.Decode(record)
      case None => Bad(FORMAT)
      case Some(raw) => DecodeRaw(check, raw, limits)
  }

  lemma RecordSize(check: Check, f: Frame, payload: seq<byte>)
    requires |f.requestId| == 16 && |payload| <= CONTROL_PAYLOAD_MAX
    ensures 0 < |Record(check, f, payload)| <= CobsMax(|Raw(check, f, payload)|)
    ensures |Record(check, f, payload)| + 1 <= WIRE_MAX
  {
    var raw := Raw(check, f, payload);
    Cobs.EncodeSize(raw);
    Cobs.FullBlocksBound(raw);
  }

  /** Every admissible frame comes back from its record. */
  lemma RecordDecodes(check: Check, f: Frame, payload: seq<byte>, limits: Limits)
    requires LimitsAreValid(limits) && Admissible(f, payload, limits) && |payload| <= CONTROL_PAYLOAD_MAX
    requires |Record(check, f, payload)| + 1 <= limits.record
    ensures DecodeRecord(check, Record(check, f, payload), limits) == Good(f, payload)
  {
    Cobs.RoundTrip(Raw(check, f, payload));
    RawDecodes(check, f, payload, limits);
  }

  /** What is accepted is the record of the frame it gives, or that record without its final empty block. */
  lemma AcceptedRecord(check: Check, record: seq<byte>, limits: Limits)
    requires DecodeRecord(check, record, limits).Good?
    ensures var d := DecodeRecord(check, record, limits);
            && Admissible(d.frame, d.payload, limits) && |d.payload| <= CONTROL_PAYLOAD_MAX
            && (Record(check, d.frame, d.payload) == record || Record(check, d.frame, d.payload) == record + [1])
  {
    var raw := Cobs.Decode(record).value;
    DecodedIsRaw(check, raw, limits);
    Cobs.DecodeExact(record);
  }

  // ----- the operations -----

  /** Copies octets into a buffer, as the encoder's loops do. */
  method Put(buffer: array<byte>, at: nat, data: seq<byte>)
    requires at + |data| <= buffer.Length
    modifies buffer
    ensures buffer[..at + |data|] == old(buffer[..at]) + data
  {
    for i := 0 to |data|
      invariant buffer[..at + i] == old(buffer[..at]) + data[..i]
    {
      buffer[at + i] := data[i];
      assert buffer[..at + i + 1] == buffer[..at + i] + [data[i]];
      assert data[..i + 1] == data[..i] + [data[i]];
    }
    assert data[..|data|] == data;
  }

  /** The checks of `pbns_frame_encode` on what is to be sent. */
  function EncodeStatus(f: Frame, payload: seq<byte>): Status {
    if !(1 <= f.service <= 4) then SERVICE
    else if !(1 <= f.kind <= 7) then MESSAGE_TYPE
    else if f.flags != 0 then FORMAT
    else if LengthStatus(f.kind, |payload|, V1) != OK then LengthStatus(f.kind, |payload|, V1)
    else if !AckIsValid(f.kind, payload) then FORMAT
    else OK
  }

  /** Builds the raw record in the scratch buffer. */
  method BuildRaw(check: Check, f: Frame, payload: seq<byte>, scratch: array<byte>)
    requires |f.requestId| == 16 && |payload| <= CONTROL_PAYLOAD_MAX
    requires HEADER_SIZE + |payload| + TRAILER_SIZE <= scratch.Length
    modifies scratch
    ensures scratch[..HEADER_SIZE + |payload| + TRAILER_SIZE] == Raw(check, f, payload)
  {
    var head := Head(f, |payload|);
    Put(scratch, 0, head);
    assert scratch[..32] == head;
    Put(scratch, 32, U32Bytes(check(scratch[..32])));
    assert scratch[..36] == Sealed(check, head);
    Put(scratch, 36, payload);
    var covered := scratch[..36 + |payload|];
    assert covered == Sealed(check, head) + payload;
    Put(scratch, 36 + |payload|, U32Bytes(check(covered)));
  }

  /** `pbns_frame_encode`: it succeeds exactly for admissible frames and large enough buffers. */
  method Encode(check: Check, f: Frame, payload: seq<byte>, scratch: array<byte>, output: array<byte>)
      returns (status: Status, written: nat)
    requires |f.requestId| == 16 && scratch != output
    modifies scratch, output
    ensures status == OK <==>
              && Admissible(f, payload, V1) && |Raw(check, f, payload)| <= scratch.Length
              && CobsMax(|Raw(check, f, payload)|) + 1 <= output.Length
    ensures status == OK ==> written <= output.Length && output[..written] == Record(check, f, payload) + [0]
    ensures status != OK ==> written == 0
    ensures status != OK ==> status == if EncodeStatus(f, payload) != OK then EncodeStatus(f, payload) else LIMIT
  {
    status, written := EncodeStatus(f, payload), 0;
    if status == OK {
      var rawSize := HEADER_SIZE + |payload| + TRAILER_SIZE;
      if scratch.Length < rawSize || output.Length < CobsMax(rawSize) + 1 {
        status := LIMIT;
      } else {
        BuildRaw(check, f, payload, scratch);
        RecordSize(check, f, payload);
        status, written := Cobs.EncodeInto(scratch[..rawSize], output);
        output[written] := 0;
        written := written + 1;
      }
    }
  }

  /**
   * `pbns_frame_decode`: it decides as `DecodeRecord`, unless the scratch buffer is too small
   * for what COBS decoding asks of it; a buffer as long as the record never is.
   */
  method Decode(check: Check, record: seq<byte>, limits: Limits, scratch: array<byte>) returns (d: Decoded)
    modifies scratch
    ensures var overflows := LimitsAreValid(limits) && Cobs.Demand(record) > scratch.Length;
            d == if overflows then Bad(LIMIT) else DecodeRecord(check, record, limits)
    ensures |record| <= scratch.Length ==> d == DecodeRecord(check, record, limits)
  {
    if !LimitsAreValid(limits) {
      d := Bad(ARGUMENT);
    } else if |record| + 1 > limits.record {
      d := Bad(LIMIT);
    } else {
      var status, written := Cobs.DecodeInto(record, scratch);
      if status != OK {
        d := Bad(status);
      } else {
        d := DecodeRaw(check, scratch[..written], limits);
      }
    }
  }
}
