/** The anti-rollback counter in its two-slot NVRAM mode (src/core/anti_rollback.c). */
module AntiRollback {
  import opened Bytes
  import opened AbStore

  const RECORD_SIZE: nat := 24
  const AUTHORIZATION_MAX: nat := 4096
  const MAGIC: seq<byte> := [0x50, 0x42, 0x52, 0x31]   // PBR1

  function Body(generation: u64, version: u64): (s: seq<byte>)
    ensures |s| == 20
  {
    MAGIC + U64Bytes(generation) + U64Bytes(version)
  }

  /** `encode_record`. */
  function EncodeRecord(check: Check, generation: u64, version: u64): (s: seq<byte>)
    ensures |s| == RECORD_SIZE
  {
    Body(generation, version) + U32Bytes(check(Body(generation, version)))
  }

  /** `decode_record`, with an absent slot decoding like an invalid one. */
  function DecodeRecord(check: Check, record: Option<seq<byte>>): (slot: Slot<u64>) {
    if record.None? || |record.value| != RECORD_SIZE then Unverified
    else
      var r := record.value;
      if r[..4] != MAGIC || ReadU32(r[20..]) != check(r[..20]) then Unverified
      else
        var generation, version := ReadU64(r[4..12]), ReadU64(r[12..20]);
        if generation > 0 && version > 0 then Verified(generation, version) else Unverified
  }

  lemma RecordRoundTrip(check: Check, generation: u64, version: u64)
    requires generation > 0 && version > 0
    ensures DecodeRecord(check, Some(EncodeRecord(check, generation, version))) == Verified(generation, version)
  {
    var body, r := Body(generation, version), EncodeRecord(check, generation, version);
    assert r[..20] == body && r[20..] == U32Bytes(check(body));
    assert r[..4] == MAGIC && r[4..12] == U64Bytes(generation) && r[12..20] == U64Bytes(version);
    U64RoundTrip(generation);
    U64RoundTrip(version);
    U32RoundTrip(check(body));
  }

  /** A record that decodes is the encoding of what it decodes to. */
  lemma RecordIsExact(check: Check, record: seq<byte>)
    requires DecodeRecord(check, Some(record)).Verified?
    ensures var slot := DecodeRecord(check, Some(record));
            0 < slot.generation <= U64_MAX && record == EncodeRecord(check, slot.generation, slot.value)
  {
    U64Injective(record[4..12]);
    U64Injective(record[12..20]);
    U32Injective(record[20..]);
    assert record[..20] == record[..4] + record[4..12] + record[12..20];
    assert record == record[..20] + record[20..];
  }

  // ----- versions over runs -----

  function Version(p: Pair<u64>): nat {
    if Current(p).Verified? then Current(p).value else 0
  }

  /** The later generation always carries the higher version, and two generations never tie. */
  predicate Ordered(p: Pair<u64>) {
    && Sound(p)
    && (p.first.Verified? && p.second.Verified? ==>
          (p.first.generation > p.second.generation <==> p.first.value > p.second.value)
          && p.first.value != p.second.value)
  }

  lemma AdvanceKeepsOrder(p: Pair<u64>, q: Pair<u64>, target: u64)
    requires Ordered(p) && target > Version(p) && Attempted(p, q, target)
    ensures Ordered(q) && Version(p) <= Version(q)
    ensures Version(q) == Version(p) || Version(q) == target
  {
    AttemptIsAtomic(p, q, target);
  }

  /** What `advance` makes of one target: a higher one is attempted, any other has no effect. */
  predicate Advanced(p: Pair<u64>, op: Operation<u64>) {
    if op.value > Version(p) then Step(p, op) else !op.acknowledged && op.left == p
  }

  predicate Advancing(p: Pair<u64>, run: seq<Operation<u64>>)
    decreases |run|
  {
    run == [] || (Advancing(p, run[..|run| - 1]) && Advanced(Final(p, run[..|run| - 1]), run[|run| - 1]))
  }

  /** However often advances are torn or fail, what is read never goes back to a lower version, nor ties. */
  lemma {:induction false} VersionsNeverGoBack(p: Pair<u64>, run: seq<Operation<u64>>, i: nat)
    requires Ordered(p) && Advancing(p, run) && i <= |run|
    ensures Ordered(Final(p, run)) && Latest(Final(p, run)) != Ambiguous
    ensures Version(Final(p, run[..i])) <= Version(Final(p, run))
    decreases |run|
  {
    if i == |run| {
      assert run[..i] == run;
    }
    if run != [] {
      var earlier, last := run[..|run| - 1], run[|run| - 1];
      VersionsNeverGoBack(p, earlier, Min(i, |run| - 1));
      assert i < |run| ==> earlier[..i] == run[..i];
      if last.value > Version(Final(p, earlier)) {
        AdvanceKeepsOrder(Final(p, earlier), last.left, last.value);
      }
    }
  }

  /** So every version whose advance was acknowledged stays undercut by nothing read later. */
  lemma {:induction false} AcknowledgedIsKept(p: Pair<u64>, run: seq<Operation<u64>>, i: nat)
    requires Ordered(p) && Advancing(p, run) && i < |run| && run[i].acknowledged
    ensures run[i].value <= Version(Final(p, run))
    decreases |run|
  {
    var earlier, last := run[..|run| - 1], run[|run| - 1];
    VersionsNeverGoBack(p, earlier, 0);
    if i == |run| - 1 {
      AttemptIsAtomic(Final(p, earlier), last.left, last.value);
    } else {
      AcknowledgedIsKept(p, earlier, i);
      VersionsNeverGoBack(p, run, |run| - 1);
    }
  }

  // ----- the controller -----

  /** A write of a record reading as `slot` left the other slot alone and its own old, new or unreadable. */
  predicate MayLeave(before: Pair<u64>, after: Pair<u64>, index: nat, slot: Slot<u64>) {
    if index == 0 then
      after.second == before.second
      && (after.first == before.first || after.first == slot || after.first == Unverified)
    else
      after.first == before.first
      && (after.second == before.second || after.second == slot || after.second == Unverified)
  }

  lemma InactiveWrite(before: Pair<u64>, after: Pair<u64>, target: u64)
    requires MayLeave(before, after, if TargetIsSecond(before) then 1 else 0, Verified(Generation(before) + 1, target))
    ensures Attempted(before, after, target)
  {
  }

  /**
   * The two NVRAM variables. A read that succeeds is faithful. A write, whatever it reports,
   * leaves the other slot alone and its own slot either as it was, or holding the record, or
   * holding nothing that decodes.
   */
  class Nvram {
    const check: Check
    var first: Option<seq<byte>>
    var second: Option<seq<byte>>

    constructor (check: Check)
      ensures this.check == check && first == None && second == None
    {
      this.check, first, second := check, None, None;
    }

    ghost function View(): Pair<u64>
      reads this
    {
      Pair(DecodeRecord(check, first), DecodeRecord(check, second))
    }

    method Read(slot: nat) returns (status: Status, record: Option<seq<byte>>)
      requires slot < 2
      ensures status == OK ==> record == if slot == 0 then first else second
    {
      var error: Status := *;
      status, record := error, if slot == 0 then first else second;
    }

    method Write(slot: nat, record: seq<byte>) returns (status: Status)
      requires slot < 2
      modifies this
      ensures MayLeave(old(View()), View(), slot, DecodeRecord(check, Some(record)))
    {
      var error: Status := *;
      var effect: nat := *;
      var torn: Option<seq<byte>> := *;
      var left := if slot == 0 then first else second;
      if effect == 0 {
        left := Some(record);
      } else if effect == 1 && DecodeRecord(check, torn) == Unverified {
        left := torn;
      }
      if slot == 0 { first := left; } else { second := left; }
      status := error;
    }
  }

  /** `pbns_anti_rollback_state` in NVRAM mode; `active` is none for PBNS_ANTI_ROLLBACK_NO_SLOT. */
  datatype State = State(version: nat, generation: nat, active: Option<nat>)

  function StateOf(p: Pair<u64>): State {
    match Latest(p)
    case First => State(p.first.value, p.first.generation, Some(0))
    case Second => State(p.second.value, p.second.generation, Some(1))
    case _ => State(0, 0, None)
  }

  /** Why nothing is written: bad arguments, a failed read, a tie, a replay, an authorization, exhaustion. */
  function Refusal(p: Pair<u64>, target: u64, authorizationLength: nat, read: Status): Status {
    if target == 0 || authorizationLength > AUTHORIZATION_MAX then ARGUMENT
    else if read != OK then read
    else if Latest(p) == Ambiguous then AMBIGUOUS
    else if target <= Version(p) then REPLAY
    else if authorizationLength != 0 then ARGUMENT
    else if Generation(p) >= U64_MAX then LIMIT
    else OK
  }

  /** Only a finished write shows the next generation. */
  lemma OnlyCommitted(p: Pair<u64>, q: Pair<u64>, target: u64)
    requires Attempted(p, q, target) && Latest(p) != Ambiguous && StateOf(q).generation == StateOf(p).generation + 1
    ensures q == Committed(p, target)
  {
  }

  method BuildRecord(check: Check, generation: u64, version: u64) returns (record: seq<byte>)
    requires generation > 0 && version > 0
    ensures DecodeRecord(check, Some(record)) == Verified(generation, version)
  {
    record := EncodeRecord(check, generation, version);
    RecordRoundTrip(check, generation, version);
  }

  class Controller {
    const nvram: Nvram

    constructor (nvram: Nvram)
      ensures this.nvram == nvram
    {
      this.nvram := nvram;
    }

    /** `read_nvram`; `read` is what reading the two variables came to. */
    method ReadState() returns (status: Status, state: State, ghost read: Status)
      ensures status == if read != OK then read else if Latest(nvram.View()) == Ambiguous then AMBIGUOUS else OK
      ensures status == OK ==> state == StateOf(nvram.View())
    {
      state := State(0, 0, None);
      var records: (Option<seq<byte>>, Option<seq<byte>>) := (None, None);
      var record: Option<seq<byte>>;
      status, record := nvram.Read(0);
      read := status;
      if status == OK {
        records := (record, None);
        status, record := nvram.Read(1);
        read := status;
        if status == OK {
          records := (records.0, record);
          var pair := Pair(DecodeRecord(nvram.check, records.0), DecodeRecord(nvram.check, records.1));
          if Latest(pair) == Ambiguous {
            status := AMBIGUOUS;
          } else {
            state := StateOf(pair);
          }
        }
      }
    }

    /** `pbns_anti_rollback_advance` in NVRAM mode. */
    method Advance(target: u64, authorizationLength: nat) returns (status: Status, state: State, ghost read: Status)
      modifies nvram
      ensures Step(old(nvram.View()), Operation(target, status == OK, nvram.View()))
      ensures var refusal := Refusal(old(nvram.View()), target, authorizationLength, read);
              refusal != OK ==> status == refusal && unchanged(nvram)
      ensures status == OK ==>
                && state == StateOf(nvram.View()) && state.version == target
                && state.generation == Generation(old(nvram.View())) + 1
      ensures status != OK ==> state == State(0, 0, None)
    {
      state, read := State(0, 0, None), OK;
      if target == 0 || authorizationLength > AUTHORIZATION_MAX {
        status := ARGUMENT;
      } else {
        var current: State;
        status, current, read := ReadState();
        if status == OK {
          if target <= current.version {
            status := REPLAY;
          } else if authorizationLength != 0 {
            status := ARGUMENT;
          } else if current.generation >= U64_MAX {
            status := LIMIT;
          } else {
            status, state := WriteInactive(target, current);
          }
        }
      }
    }

    /** Writes the record to the inactive slot, whatever comes of it. */
    method WriteRecord(target: u64, current: State) returns (status: Status)
      requires current == StateOf(nvram.View()) && Latest(nvram.View()) != Ambiguous
      requires target > 0 && current.generation < U64_MAX
      modifies nvram
      ensures Attempted(old(nvram.View()), nvram.View(), target)
    {
      var inactive := if current.active == Some(0) then 1 else 0;
      var record := BuildRecord(nvram.check, current.generation + 1, target);
      status := nvram.Write(inactive, record);
      InactiveWrite(old(nvram.View()), nvram.View(), target);
    }

    method WriteInactive(target: u64, current: State) returns (status: Status, state: State)
      requires current == StateOf(nvram.View()) && Latest(nvram.View()) != Ambiguous
      requires target > 0 && current.generation < U64_MAX
      modifies nvram
      ensures Step(old(nvram.View()), Operation(target, status == OK, nvram.View()))
      ensures status == OK ==>
                && state == StateOf(nvram.View()) && state.version == target
                && state.generation == Generation(old(nvram.View())) + 1
      ensures status != OK ==> state == State(0, 0, None)
    {
      state := State(0, 0, None);
      status := WriteRecord(target, current);
      if status == OK {
        var verified: State;
        ghost var read: Status;
        status, verified, read := ReadState();
        if status == OK {
          if verified.version != target || verified.generation != current.generation + 1 {
            status := STATE;
          } else {
            OnlyCommitted(old(nvram.View()), nvram.View(), target);
            state := verified;
          }
        }
      }
    }

    /**
     * Any sequence of advances, each of which may fail or be torn: one operation for each target,
     * a version that was read or acknowledged is never undercut.
     */
    method AdvanceAll(targets: seq<u64>) returns (ghost run: seq<Operation<u64>>)
      requires Ordered(nvram.View())
      modifies nvram
      ensures |run| == |targets| && forall i :: 0 <= i < |targets| ==> run[i].value == targets[i]
      ensures Advancing(old(nvram.View()), run) && Final(old(nvram.View()), run) == nvram.View()
      ensures Ordered(nvram.View()) && Version(old(nvram.View())) <= Version(nvram.View())
      ensures forall i :: 0 <= i < |targets| && run[i].acknowledged ==> targets[i] <= Version(nvram.View())
    {
      ghost var start, now := nvram.View(), nvram.View();
      run := [];
      for i := 0 to |targets|
        invariant nvram.View() == now && Advancing(start, run) && Final(start, run) == now
        invariant |run| == i && forall k :: 0 <= k < i ==> run[k].value == targets[k]
      {
        var status, state, read := Advance(targets[i], 0);
        ghost var op := Operation(targets[i], status == OK, nvram.View());
        assert (run + [op])[..|run|] == run;
        run, now := run + [op], nvram.View();
      }
      VersionsNeverGoBack(start, run, 0);
      forall i | 0 <= i < |targets| && run[i].acknowledged ensures targets[i] <= Version(now) {
        AcknowledgedIsKept(start, run, i);
      }
    }
  }
}
