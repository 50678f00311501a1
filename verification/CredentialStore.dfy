/**
 * The transactional credential store in two flash sectors (pico/src/credentials.c).
 *
 * What the flash may do wrong is stated on the class `Flash`; everything else is proved.
 */
module CredentialStore {
  import opened Bytes
  import opened AbStore

  const CBOR_MAX: nat := 448
  const PAGE_SIZE: nat := 256
  const SECTOR_SIZE: nat := 4096
  const DATA_SIZE: nat := 512            // SLOT_DATA_SIZE, two pages
  const SLOT_SIZE: nat := 768            // data and commit page
  const PAYLOAD_OFFSET: nat := 20
  const DATA_CRC_OFFSET: nat := 508
  const COMMIT_CRC_OFFSET: nat := 252

  const RECORD_MAGIC: seq<byte> := [0x50, 0x42, 0x4e, 0x43]   // PBNC
  const COMMIT_MAGIC: seq<byte> := [0x50, 0x42, 0x4f, 0x4b]   // PBOK

  /**
   * How values become payloads. The store is the same for every codec that obeys `Lawful`;
   * the firmware's is `CredentialRecords.Codec`.
   */
  datatype Codec<!T> =
    Codec(check: Check, validate: T -> Status, encode: T -> seq<byte>, decode: seq<byte> -> Option<T>)

  /** Valid values have payloads of 1 to 448 octets that decode back to them. */
  ghost predicate Lawful<T(!new)>(codec: Codec<T>) {
    forall v {:trigger codec.encode(v)} ::
      codec.validate(v) == OK ==> 1 <= |codec.encode(v)| <= CBOR_MAX && codec.decode(codec.encode(v)) == Some(v)
  }

  /** A stored value, or nothing for a tombstone. */
  predicate Storable<T>(codec: Codec<T>, v: Option<T>) {
    v.Some? ==> codec.validate(v.value) == OK && 1 <= |codec.encode(v.value)| <= CBOR_MAX
  }

  function Erased(n: nat): (s: seq<byte>)
    ensures |s| == n && forall i :: 0 <= i < n ==> s[i] == 0xff
  {
    seq(n, _ => 0xff)
  }

  // ----- records -----

  function Payload<T>(codec: Codec<T>, v: Option<T>): (s: seq<byte>)
    requires Storable(codec, v)
    ensures |s| <= CBOR_MAX && (v.None? <==> s == [])
  {
    if v.None? then [] else codec.encode(v.value)
  }

  /** The octets of a data record its checksum covers. */
  function Covered<T>(codec: Codec<T>, generation: u64, v: Option<T>): (s: seq<byte>)
    requires Storable(codec, v)
    ensures |s| == PAYLOAD_OFFSET + |Payload(codec, v)|
  {
    RECORD_MAGIC + [1, if v.None? then 1 else 0, 0, 0] + U64Bytes(generation) + U32Bytes(|Payload(codec, v)|)
    + Payload(codec, v)
  }

  /** `build_data_record`. */
  function BuildData<T>(codec: Codec<T>, generation: u64, v: Option<T>): (s: seq<byte>)
    requires Storable(codec, v)
    ensures |s| == DATA_SIZE
  {
    var covered := Covered(codec, generation, v);
    covered + Erased(DATA_CRC_OFFSET - |covered|) + U32Bytes(codec.check(covered))
  }

  /** `data_record_is_valid`. */
  function DecodeData<T>(codec: Codec<T>, data: seq<byte>): (slot: Slot<Option<T>>)
    requires |data| == DATA_SIZE
  {
    if data[..4] != RECORD_MAGIC || data[4] != 1 || data[5] > 1 || data[6] != 0 || data[7] != 0 then Unverified
    else
      var generation, length, tombstone := ReadU64(data[8..16]), ReadU32(data[16..20]), data[5] == 1;
      if generation == 0 || length > CBOR_MAX || (tombstone <==> length != 0) then Unverified
      else if ReadU32(data[DATA_CRC_OFFSET..]) != codec.check(data[..PAYLOAD_OFFSET + length]) then Unverified
      else if tombstone then Verified(generation, None)
      else match codec.decode(data[PAYLOAD_OFFSET..PAYLOAD_OFFSET + length])
        case Some(v) => Verified(generation, Some(v))
        case None => Unverified
  }

  function CommitBody(generation: u64): (s: seq<byte>)
    ensures |s| == COMMIT_CRC_OFFSET
  {
    COMMIT_MAGIC + U64Bytes(generation) + Erased(COMMIT_CRC_OFFSET - 12)
  }

  /** `build_commit_record`. */
  function BuildCommit(check: Check, generation: u64): (s: seq<byte>)
    ensures |s| == PAGE_SIZE
  {
    CommitBody(generation) + U32Bytes(check(CommitBody(generation)))
  }

  /** `commit_record_is_valid`. */
  predicate CommitIsValid(check: Check, page: seq<byte>, generation: nat)
    requires |page| == PAGE_SIZE
  {
    && page[..4] == COMMIT_MAGIC
    && ReadU64(page[4..12]) == generation
    && ReadU32(page[COMMIT_CRC_OFFSET..]) == check(page[..COMMIT_CRC_OFFSET])
  }

  /** `read_slot` on the 768 octets of a slot. */
  function DecodeSlot<T>(codec: Codec<T>, octets: seq<byte>): (slot: Slot<Option<T>>)
    requires |octets| == SLOT_SIZE
  {
    var slot := DecodeData(codec, octets[..DATA_SIZE]);
    if slot.Verified? && CommitIsValid(codec.check, octets[DATA_SIZE..], slot.generation) then slot else Unverified
  }

  lemma HeaderFields<T>(codec: Codec<T>, generation: u64, v: Option<T>)
    requires Storable(codec, v)
    ensures var s := Covered(codec, generation, v);
            && s[..4] == RECORD_MAGIC && s[4] == 1 && s[5] == (if v.None? then 1 else 0) && s[6] == 0 && s[7] == 0
            && s[8..16] == U64Bytes(generation) && s[16..20] == U32Bytes(|Payload(codec, v)|)
            && s[20..] == Payload(codec, v)
  {
    HeaderLayout(RECORD_MAGIC, [1, if v.None? then 1 else 0, 0, 0], U64Bytes(generation),
                 U32Bytes(|Payload(codec, v)|), Payload(codec, v));
  }

  lemma HeaderLayout(magic: seq<byte>, flags: seq<byte>, generation: seq<byte>, length: seq<byte>, payload: seq<byte>)
    requires |magic| == 4 && |flags| == 4 && |generation| == 8 && |length| == 4
    ensures var s := magic + flags + generation + length + payload;
            && s[..4] == magic && s[4] == flags[0] && s[5] == flags[1] && s[6] == flags[2] && s[7] == flags[3]
            && s[8..16] == generation && s[16..20] == length && s[20..] == payload
  {
  }

  lemma Prefix(data: seq<byte>, front: seq<byte>, i: nat, j: nat)
    requires front <= data && i <= j <= |front|
    ensures data[i..j] == front[i..j]
  {
  }

  /** The parts of a data record as `DecodeData` cuts it up. */
  lemma DataFields<T>(codec: Codec<T>, generation: u64, v: Option<T>)
    requires Storable(codec, v)
    ensures var data, n := BuildData(codec, generation, v), |Payload(codec, v)|;
            && data[..4] == RECORD_MAGIC && data[4] == 1 && data[5] == (if v.None? then 1 else 0)
            && data[6] == 0 && data[7] == 0
            && data[8..16] == U64Bytes(generation) && data[16..20] == U32Bytes(n)
            && data[PAYLOAD_OFFSET..PAYLOAD_OFFSET + n] == Payload(codec, v)
            && data[..PAYLOAD_OFFSET + n] == Covered(codec, generation, v)
            && data[DATA_CRC_OFFSET..] == U32Bytes(codec.check(Covered(codec, generation, v)))
  {
    var covered := Covered(codec, generation, v);
    HeaderFields(codec, generation, v);
    Layout(covered, Erased(DATA_CRC_OFFSET - |covered|), U32Bytes(codec.check(covered)));
  }

  lemma Layout(covered: seq<byte>, filler: seq<byte>, tail: seq<byte>)
    requires |covered| >= PAYLOAD_OFFSET
    ensures var s := covered + filler + tail;
            && s[..4] == covered[..4] && s[4] == covered[4] && s[5] == covered[5] && s[6] == covered[6]
            && s[7] == covered[7]
            && s[8..16] == covered[8..16] && s[16..20] == covered[16..20]
            && s[20..|covered|] == covered[20..] && s[..|covered|] == covered && s[|covered| + |filler|..] == tail
  {
  }

  /** A data record gives back its generation, its tombstone flag and its credentials. */
  lemma DataRoundTrip<T(!new)>(codec: Codec<T>, generation: u64, v: Option<T>)
    requires Lawful(codec) && Storable(codec, v) && generation > 0
    ensures DecodeData(codec, BuildData(codec, generation, v)) == Verified(generation, v)
  {
    DataFields(codec, generation, v);
    U64RoundTrip(generation);
    U32RoundTrip(|Payload(codec, v)|);
    U32RoundTrip(codec.check(Covered(codec, generation, v)));
  }

  lemma CommitRoundTrip(check: Check, generation: u64)
    ensures CommitIsValid(check, BuildCommit(check, generation), generation)
  {
    var body, page := CommitBody(generation), BuildCommit(check, generation);
    assert page[..COMMIT_CRC_OFFSET] == body && page[COMMIT_CRC_OFFSET..] == U32Bytes(check(body));
    assert body[..4] == COMMIT_MAGIC && body[4..12] == U64Bytes(generation);
    Prefix(page, body, 0, 4);
    Prefix(page, body, 4, 12);
    U64RoundTrip(generation);
    U32RoundTrip(check(body));
  }

  // ----- what a slot reads as at each stage of a transaction -----

  /** Without a commit page nothing is in force, whatever the data pages hold. */
  lemma UncommittedIsUnverified<T>(codec: Codec<T>, octets: seq<byte>)
    requires |octets| == SLOT_SIZE && octets[DATA_SIZE] == 0xff
    ensures DecodeSlot(codec, octets).Unverified?
  {
    assert octets[DATA_SIZE..][..4][0] == 0xff;
  }

  /** Once the data pages are written, whatever the commit page holds either commits the record or does not. */
  lemma CommitIsAtomic<T(!new)>(codec: Codec<T>, generation: u64, v: Option<T>, octets: seq<byte>)
    requires Lawful(codec) && Storable(codec, v) && generation > 0
    requires |octets| == SLOT_SIZE && octets[..DATA_SIZE] == BuildData(codec, generation, v)
    ensures DecodeSlot(codec, octets) == Unverified || DecodeSlot(codec, octets) == Verified(generation, v)
    ensures octets[DATA_SIZE..] == BuildCommit(codec.check, generation) ==>
              DecodeSlot(codec, octets) == Verified(generation, v)
  {
    DataRoundTrip(codec, generation, v);
    CommitRoundTrip(codec.check, generation);
  }

  // ----- flash -----

  function Splice(cells: seq<byte>, offset: nat, image: seq<byte>): (r: seq<byte>)
    requires offset + |image| <= |cells|
    ensures |r| == |cells|
  {
    cells[..offset] + image + cells[offset + |image|..]
  }

  /** `b` differs from `a` only inside `[lo, hi)`. */
  predicate SameOutside(a: seq<byte>, b: seq<byte>, lo: nat, hi: nat) {
    |a| == |b| && forall k :: 0 <= k < |a| && !(lo <= k < hi) ==> a[k] == b[k]
  }

  /**
   * The fault model. A read that succeeds is faithful. An erase that succeeds leaves the
   * sector erased; one that fails leaves either the slot's octets as they were or a slot
   * that does not verify. A program operation, whatever it reports, changes nothing outside
   * its range and may leave anything inside it. Any operation may fail with any error, and a
   * power cut is a failing operation after which the transaction performs no further one. A
   * `reliable` flash never fails; it serves to state that the store then succeeds.
   */
  class Flash<T(!new,==)> {
    const codec: Codec<T>
    const reliable: bool
    var cells: seq<byte>

    constructor (codec: Codec<T>, reliable: bool, size: nat)
      ensures this.codec == codec && this.reliable == reliable && cells == Erased(size)
    {
      this.codec, this.reliable := codec, reliable;
      cells := Erased(size);
    }

    method Read(offset: nat, size: nat) returns (status: Status, data: seq<byte>)
      ensures status == OK ==> offset + size <= |cells| && data == cells[offset..offset + size]
      ensures reliable && offset + size <= |cells| ==> status == OK
    {
      var error: Status := *;
      if offset + size > |cells| {
        status, data := ARGUMENT, [];
      } else if reliable || error == OK {
        status, data := OK, cells[offset..offset + size];
      } else {
        status, data := error, [];
      }
    }

    method Erase(offset: nat) returns (status: Status)
      requires offset + SECTOR_SIZE <= |cells|
      modifies this
      ensures SameOutside(old(cells), cells, offset, offset + SECTOR_SIZE)
      ensures status == OK ==> forall k :: offset <= k < offset + SECTOR_SIZE ==> cells[k] == 0xff
      ensures status != OK ==>
                || cells[offset..offset + SLOT_SIZE] == old(cells)[offset..offset + SLOT_SIZE]
                || DecodeSlot(codec, cells[offset..offset + SLOT_SIZE]) == Unverified
      ensures reliable ==> status == OK
    {
      var error: Status := *;
      var image: seq<byte> := *;
      if reliable || error == OK {
        cells := Splice(cells, offset, Erased(SECTOR_SIZE));
        status := OK;
      } else {
        if |image| == SECTOR_SIZE && DecodeSlot(codec, image[..SLOT_SIZE]) == Unverified {
          cells := Splice(cells, offset, image);
          assert cells[offset..offset + SLOT_SIZE] == image[..SLOT_SIZE];
        }
        status := error;
      }
    }

    method Program(offset: nat, data: seq<byte>) returns (status: Status)
      requires offset + |data| <= |cells|
      modifies this
      ensures SameOutside(old(cells), cells, offset, offset + |data|)
      ensures reliable ==> status == OK
      ensures reliable && old(cells)[offset..offset + |data|] == Erased(|data|) ==>
                cells[offset..offset + |data|] == data
    {
      var error: Status := *;
      var image: seq<byte> := *;
      if reliable {
        cells := Splice(cells, offset, data);
        assert cells[offset..offset + |data|] == data;
        status := OK;
      } else {
        if |image| == |data| {
          cells := Splice(cells, offset, image);
        }
        status := error;
      }
    }
  }

  // ----- the store -----

  /** A slot outside the changed range reads as before. */
  lemma SameSlot<T>(codec: Codec<T>, a: seq<byte>, b: seq<byte>, lo: nat, hi: nat, i: nat)
    requires SameOutside(a, b, lo, hi) && i + SLOT_SIZE <= |a| && (i + SLOT_SIZE <= lo || hi <= i)
    ensures DecodeSlot(codec, a[i..i + SLOT_SIZE]) == DecodeSlot(codec, b[i..i + SLOT_SIZE])
  {
    assert a[i..i + SLOT_SIZE] == b[i..i + SLOT_SIZE];
  }

  /** The credentials in force: a tombstone counts as none. */
  function Loaded<T>(p: Pair<Option<T>>): Option<T> {
    match CurrentValue(p)
    case Some(v) => v
    case None => None
  }

  function LoadStatus<T>(p: Pair<Option<T>>): Status {
    if Latest(p) == Ambiguous then AMBIGUOUS else if Loaded(p).None? then STATE else OK
  }

  /** Why a transaction that could read both slots writes nothing. */
  function Refusal<T>(p: Pair<Option<T>>): Status {
    if Latest(p) == Ambiguous then AMBIGUOUS else if Generation(p) >= U64_MAX then LIMIT else OK
  }

  /** `source` is the last operation that may have taken effect: none after it was acknowledged. */
  ghost predicate Durable<V>(values: seq<V>, acknowledged: seq<bool>, source: int) {
    && |acknowledged| == |values| && -1 <= source < |values|
    && forall later :: source < later < |values| ==> !acknowledged[later]
  }

  /** The operations of a run are those asked for, with what was reported of each. */
  ghost predicate Reports<V>(run: seq<Operation<V>>, values: seq<V>, acknowledged: seq<bool>) {
    && |run| == |values| == |acknowledged|
    && forall i :: 0 <= i < |run| ==> run[i].value == values[i] && run[i].acknowledged == acknowledged[i]
  }

  lemma ReportsOn<V>(run: seq<Operation<V>>, values: seq<V>, acknowledged: seq<bool>, op: Operation<V>)
    requires Reports(run, values, acknowledged)
    ensures Reports(run + [op], values + [op.value], acknowledged + [op.acknowledged])
  {
  }

  /** Two aligned sectors that do not overlap (`storage_is_valid`), inside the device (its range check). */
  predicate StorageIsValid(offsets: (nat, nat), size: nat) {
    && offsets.0 % SECTOR_SIZE == 0 && offsets.1 % SECTOR_SIZE == 0
    && !(offsets.0 < offsets.1 + SECTOR_SIZE && offsets.1 < offsets.0 + SECTOR_SIZE)
    && offsets.0 + SECTOR_SIZE <= size && offsets.1 + SECTOR_SIZE <= size
  }

  class Store<T(!new,==)> {
    const flash: Flash<T>
    const offsets: (nat, nat)

    constructor (flash: Flash<T>, offsets: (nat, nat))
      ensures this.flash == flash && this.offsets == offsets
    {
      this.flash, this.offsets := flash, offsets;
    }

    predicate Valid()
      reads flash
    {
      StorageIsValid(offsets, |flash.cells|)
    }

    ghost function SlotAt(offset: nat): Slot<Option<T>>
      requires offset + SLOT_SIZE <= |flash.cells|
      reads flash
    {
      DecodeSlot(flash.codec, flash.cells[offset..offset + SLOT_SIZE])
    }

    /** What the two sectors hold. */
    ghost function View(): Pair<Option<T>>
      requires Valid()
      reads flash
    {
      Pair(SlotAt(offsets.0), SlotAt(offsets.1))
    }

    /** `read_slot`. */
    method ReadSlot(offset: nat) returns (status: Status, slot: Slot<Option<T>>)
      requires offset + SLOT_SIZE <= |flash.cells|
      ensures status == OK ==> slot == SlotAt(offset)
      ensures flash.reliable ==> status == OK
    {
      slot := Unverified;
      var data: seq<byte>, commit: seq<byte>;
      status, data := flash.Read(offset, DATA_SIZE);
      if status == OK {
        status, commit := flash.Read(offset + DATA_SIZE, SLOT_SIZE - DATA_SIZE);
        if status == OK {
          assert flash.cells[offset..offset + SLOT_SIZE] == data + commit;
          slot := DecodeSlot(flash.codec, data + commit);
        }
      }
    }

    /** Erases, programs, reads back and commits one slot. */
    method WriteSlot(offset: nat, generation: u64, v: Option<T>) returns (status: Status)
      requires offset + SECTOR_SIZE <= |flash.cells| && generation > 0
      requires Lawful(flash.codec) && Storable(flash.codec, v)
      modifies flash
      ensures SameOutside(old(flash.cells), flash.cells, offset, offset + SECTOR_SIZE)
      ensures || SlotAt(offset) == old(SlotAt(offset)) || SlotAt(offset) == Unverified
              || SlotAt(offset) == Verified(generation, v)
      ensures status == OK ==> SlotAt(offset) == Verified(generation, v)
      ensures flash.reliable ==> status == OK
    {
      var data := BuildData(flash.codec, generation, v);
      var commit := BuildCommit(flash.codec.check, generation);
      status := flash.Erase(offset);
      if status == OK {
        assert flash.cells[offset..offset + DATA_SIZE] == Erased(DATA_SIZE);
        status := flash.Program(offset, data);
        assert flash.cells[offset + DATA_SIZE..offset + SLOT_SIZE] == Erased(PAGE_SIZE);
        UncommittedIsUnverified(flash.codec, flash.cells[offset..offset + SLOT_SIZE]);
      }
      var readback: seq<byte> := [];
      if status == OK {
        status, readback := flash.Read(offset, DATA_SIZE);
      }
      if status == OK && (data != readback || DecodeData(flash.codec, readback) != Verified(generation, v)) {
        DataRoundTrip(flash.codec, generation, v);
        status := IO;
      }
      if status == OK {
        status := Commit(offset, generation, v, commit);
      }
    }

    /** Programs the commit page behind a data record that has been read back, and verifies the slot. */
    method Commit(offset: nat, generation: u64, v: Option<T>, commit: seq<byte>) returns (status: Status)
      requires offset + SECTOR_SIZE <= |flash.cells| && generation > 0
      requires Lawful(flash.codec) && Storable(flash.codec, v) && commit == BuildCommit(flash.codec.check, generation)
      requires flash.cells[offset..offset + DATA_SIZE] == BuildData(flash.codec, generation, v)
      requires flash.reliable ==> flash.cells[offset + DATA_SIZE..offset + SLOT_SIZE] == Erased(PAGE_SIZE)
      modifies flash
      ensures SameOutside(old(flash.cells), flash.cells, offset, offset + SECTOR_SIZE)
      ensures SlotAt(offset) == Unverified || SlotAt(offset) == Verified(generation, v)
      ensures status == OK ==> SlotAt(offset) == Verified(generation, v)
      ensures flash.reliable ==> status == OK
    {
      status := flash.Program(offset + DATA_SIZE, commit);
      ghost var octets := flash.cells[offset..offset + SLOT_SIZE];
      assert octets[..DATA_SIZE] == flash.cells[offset..offset + DATA_SIZE];
      assert octets[DATA_SIZE..] == flash.cells[offset + DATA_SIZE..offset + SLOT_SIZE];
      CommitIsAtomic(flash.codec, generation, v, octets);
      if status == OK {
        var verified: Slot<Option<T>>;
        status, verified := ReadSlot(offset);
        if status == OK && verified != Verified(generation, v) {
          status := IO;
        }
      }
    }

    /**
     * `write_transaction`: stores a value, or a tombstone for none.
     * Whatever fails or is cut short, the transaction is atomic; the sector that is not the
     * target is never touched; a success means the new value is in force. `read` is what
     * reading the two slots came to.
     */
    method WriteTransaction(v: Option<T>) returns (status: Status, ghost read: Status)
      requires Lawful(flash.codec)
      modifies flash
      ensures !old(Valid()) ==> status == ARGUMENT && flash.cells == old(flash.cells)
      ensures old(Valid()) && v.Some? && flash.codec.validate(v.value) != OK ==>
                status == flash.codec.validate(v.value) && flash.cells == old(flash.cells)
      ensures old(Valid()) ==>
                && Valid() && Step(old(View()), Operation(v, status == OK, View()))
                && var target := if TargetIsSecond(old(View())) then offsets.1 else offsets.0;
                   SameOutside(old(flash.cells), flash.cells, target, target + SECTOR_SIZE)
      ensures old(Valid()) && (v.Some? ==> flash.codec.validate(v.value) == OK) ==>
                && (read != OK ==> status == read && flash.cells == old(flash.cells))
                && (read == OK && Refusal(old(View())) != OK ==>
                      status == Refusal(old(View())) && flash.cells == old(flash.cells))
                && (flash.reliable ==> read == OK && status == Refusal(old(View())))
    {
      read := OK;
      if !Valid() {
        status := ARGUMENT;
      } else if v.Some? && flash.codec.validate(v.value) != OK {
        status := flash.codec.validate(v.value);
      } else {
        var first: Slot<Option<T>>, second: Slot<Option<T>>;
        status, first := ReadSlot(offsets.0);
        if status == OK {
          status, second := ReadSlot(offsets.1);
        }
        read := status;
        if status == OK {
          status := WriteInactive(first, second, v);
        }
      }
    }

    /** `WriteSlot` leaves the other slot alone. */
    method WriteTarget(target: nat, ghost other: nat, generation: u64, v: Option<T>) returns (status: Status)
      requires target + SECTOR_SIZE <= |flash.cells| && other + SECTOR_SIZE <= |flash.cells|
      requires target + SECTOR_SIZE <= other || other + SECTOR_SIZE <= target
      requires Lawful(flash.codec) && Storable(flash.codec, v) && generation > 0
      modifies flash
      ensures SameOutside(old(flash.cells), flash.cells, target, target + SECTOR_SIZE)
      ensures SlotAt(other) == old(SlotAt(other))
      ensures || SlotAt(target) == old(SlotAt(target)) || SlotAt(target) == Unverified
              || SlotAt(target) == Verified(generation, v)
      ensures status == OK ==> SlotAt(target) == Verified(generation, v)
      ensures flash.reliable ==> status == OK
    {
      status := WriteSlot(target, generation, v);
      SameSlot(flash.codec, old(flash.cells), flash.cells, target, target + SECTOR_SIZE, other);
    }

    method WriteInactive(first: Slot<Option<T>>, second: Slot<Option<T>>, v: Option<T>) returns (status: Status)
      requires Valid() && Lawful(flash.codec) && View() == Pair(first, second)
      requires v.Some? ==> flash.codec.validate(v.value) == OK
      modifies flash
      ensures Valid() && Attempted(old(View()), View(), v)
      ensures status == OK ==> View() == Committed(old(View()), v)
      ensures Refusal(old(View())) != OK ==> status == Refusal(old(View())) && flash.cells == old(flash.cells)
      ensures var target := if TargetIsSecond(old(View())) then offsets.1 else offsets.0;
              SameOutside(old(flash.cells), flash.cells, target, target + SECTOR_SIZE)
      ensures flash.reliable && Refusal(old(View())) == OK ==> status == OK
    {
      var pair := Pair(first, second);
      if Latest(pair) == Ambiguous {
        status := AMBIGUOUS;
      } else if Generation(pair) >= U64_MAX {
        status := LIMIT;
      } else {
        var target, other := offsets.0, offsets.1;
        if Latest(pair) == First {
          target, other := offsets.1, offsets.0;
        }
        status := WriteTarget(target, other, Generation(pair) + 1, v);
        assert View() == Replace(pair, SlotAt(target));
      }
    }

    /** `pbns_credentials_load`; `read` is what reading the two slots came to. */
    method Load() returns (status: Status, v: Option<T>, ghost read: Status)
      ensures !Valid() ==> status == ARGUMENT
      ensures Valid() ==> status == if read != OK then read else LoadStatus(View())
      ensures Valid() && flash.reliable ==> read == OK
      ensures status == OK ==> Valid() && v.Some? && v == Loaded(View())
      ensures status != OK ==> v.None?
    {
      v, read := None, OK;
      if !Valid() {
        status := ARGUMENT;
      } else {
        var first: Slot<Option<T>>, second: Slot<Option<T>>;
        status, first := ReadSlot(offsets.0);
        if status == OK {
          status, second := ReadSlot(offsets.1);
        }
        read := status;
        if status == OK {
          status, v := Select(Pair(first, second));
        }
      }
    }

    /** The value in force, or why there is none. */
    method Select(pair: Pair<Option<T>>) returns (status: Status, v: Option<T>)
      ensures status == LoadStatus(pair) && v == if status == OK then Loaded(pair) else None
    {
      if Latest(pair) == Ambiguous {
        status, v := AMBIGUOUS, None;
      } else if Current(pair).Unverified? || Current(pair).value.None? {
        status, v := STATE, None;
      } else {
        status, v := OK, Current(pair).value;
      }
    }

    /** One transaction as an operation of a run. */
    method Attempt(v: Option<T>) returns (acknowledged: bool, ghost op: Operation<Option<T>>)
      requires Valid() && Lawful(flash.codec)
      modifies flash
      ensures Valid() && op == Operation(v, acknowledged, View()) && Step(old(View()), op)
    {
      var status, read := WriteTransaction(v);
      acknowledged := status == OK;
      op := Operation(v, acknowledged, View());
    }

    /**
     * Any sequence of stores and clears, each of which may fail or be cut short anywhere: the
     * store stays sound, and what is in force is the value of an operation after which none
     * was acknowledged, or still the initial one.
     */
    method Perform(values: seq<Option<T>>)
      returns (acknowledged: seq<bool>, ghost run: seq<Operation<Option<T>>>, ghost source: int)
      requires Valid() && Lawful(flash.codec) && Sound(View())
      modifies flash
      ensures Valid() && IsRun(old(View()), run) && Final(old(View()), run) == View()
      ensures Reports(run, values, acknowledged) && Durable(values, acknowledged, source)
      ensures Sound(View()) && Latest(View()) != Ambiguous
      ensures CurrentValue(View()) == if source < 0 then CurrentValue(old(View())) else Some(values[source])
    {
      ghost var start, now := View(), View();
      run, acknowledged := [], [];
      for i := 0 to |values|
        invariant Valid() && View() == now
        invariant IsRun(start, run) && Final(start, run) == now
        invariant Reports(run, values[..i], acknowledged)
      {
        var success: bool;
        ghost var op;
        success, op := Attempt(values[i]);
        RunExtends(start, run, op);
        ReportsOn(run, values[..i], acknowledged, op);
        assert values[..i + 1] == values[..i] + [values[i]];
        run, now := run + [op], op.left;
        acknowledged := acknowledged + [success];
      }
      assert values[..|values|] == values;
      source := RunIsDurable(start, run);
    }
  }

  /** Erased flash holds no slot. */
  lemma ErasedView<T(!new)>(store: Store<T>, size: nat)
    requires store.Valid() && store.flash.cells == Erased(size)
    ensures store.View() == Pair(Unverified, Unverified)
  {
    var blank := Erased(SLOT_SIZE);
    assert store.flash.cells[store.offsets.0..store.offsets.0 + SLOT_SIZE] == blank;
    assert store.flash.cells[store.offsets.1..store.offsets.1 + SLOT_SIZE] == blank;
    UncommittedIsUnverified(store.flash.codec, blank);
  }

  /**
   * Any sequence of stores and clears on flash that starts erased, then a load: what is in
   * force is the value of an operation after which none was acknowledged, and none if there
   * was no such operation; a load whose reads succeed gives exactly that.
   */
  method PerformFromErased<T(!new,==)>(flash: Flash<T>, values: seq<Option<T>>, offsets: (nat, nat))
    returns (status: Status, loaded: Option<T>, acknowledged: seq<bool>, ghost source: int, ghost read: Status)
    requires Lawful(flash.codec) && flash.cells == Erased(|flash.cells|) && StorageIsValid(offsets, |flash.cells|)
    modifies flash
    ensures Durable(values, acknowledged, source)
    ensures read != OK ==> status == read && loaded == None
    ensures read == OK ==> loaded == (if source < 0 then None else values[source])
                           && status == (if loaded.None? then STATE else OK)
    ensures flash.reliable ==> read == OK
  {
    var store := new Store(flash, offsets);
    ErasedView(store, |flash.cells|);
    ghost var run;
    acknowledged, run, source := store.Perform(values);
    status, loaded, read := store.Load();
  }
}

/** The store's codec in the firmware: CRC-32C over deterministic CBOR. */
module CredentialRecords {
  import opened Bytes
  import opened CredentialCodec
  import Crc32c
  import CredentialStore
  import AbStore

  function Encoded(c: Credentials): seq<byte> {
    if Sized(c) then Encode(c) else []
  }

  function Decoded(s: seq<byte>): Option<Credentials> {
    match DecodeCbor(s)
    case Good(c) => Some(c)
    case Bad(_) => None
  }

  function Validated(c: Credentials): Status {
    if |c.spki| != SPKI_SIZE then ARGUMENT else Validate(c)
  }

  const CODEC: CredentialStore.Codec<Credentials> :=
    CredentialStore.Codec.Codec(Crc32c.Checksum, Validated, Encoded, Decoded)

  lemma EncodedDecodes(c: Credentials)
    requires Validated(c) == OK
    ensures 1 <= |Encoded(c)| <= CredentialStore.CBOR_MAX && Decoded(Encoded(c)) == Some(c)
  {
    var e := Encode(c);
    assert DecodeCbor(e) == Good(c) && 1 <= |e| <= 399 by { RoundTrip(c); }
    assert Encoded(c) == e;
  }

  /** Credentials obey the law the store asks of its codec. */
  lemma CredentialsAreLawful()
    ensures CredentialStore.Lawful(CODEC)
  {
    forall c: Credentials | Validated(c) == OK
      ensures 1 <= |Encoded(c)| <= CredentialStore.CBOR_MAX && Decoded(Encoded(c)) == Some(c)
    {
      EncodedDecodes(c);
    }
  }

  /** Erased flash holds nothing, so every run of stores and clears starts sound. */
  lemma ErasedFlashIsSound(octets: seq<byte>)
    requires octets == CredentialStore.Erased(CredentialStore.SLOT_SIZE)
    ensures var slot := CredentialStore.DecodeSlot(CODEC, octets);
            slot == AbStore.Unverified && AbStore.Sound(AbStore.Pair(slot, slot))
  {
    CredentialStore.UncommittedIsUnverified(CODEC, octets);
  }

  /** The firmware's records over flash that starts erased. */
  method RunFromErased(values: seq<Option<Credentials>>, size: nat, offsets: (nat, nat), reliable: bool)
    returns (status: Status, loaded: Option<Credentials>, acknowledged: seq<bool>, ghost source: int,
             ghost read: Status)
    requires CredentialStore.StorageIsValid(offsets, size)
    ensures CredentialStore.Durable(values, acknowledged, source)
    ensures read != OK ==> status == read && loaded == None
    ensures read == OK ==> loaded == (if source < 0 then None else values[source])
                           && status == (if loaded.None? then STATE else OK)
    ensures reliable ==> read == OK
  {
    CredentialsAreLawful();
    var flash := new CredentialStore.Flash(CODEC, reliable, size);
    status, loaded, acknowledged, source, read := CredentialStore.PerformFromErased(flash, values, offsets);
  }
}
