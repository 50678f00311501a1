/**
 * The record reader (src/core/record_reader.c) and the way of a sequence of frames over a
 * byte stream that may be cut into chunks anywhere.
 */
module RecordReader {
  import opened Bytes
  import opened Frame
  import Cobs

  datatype Reader = Reader(capacity: nat, items: seq<byte>, discarding: bool, ready: bool, failed: bool)

  function Empty(capacity: nat): Reader {
    Reader(capacity, [], false, false, false)
  }

  datatype Pushed = Pushed(reader: Reader, status: Status, consumed: nat)

  /** One octet; the status is WOULD_BLOCK while the record is not complete. */
  function Take(r: Reader, octet: byte): (Reader, Status) {
    if r.discarding then (if octet == 0 then (r.(failed := true), LIMIT) else (r, WOULD_BLOCK))
    else if octet == 0 then
      if r.items == [] then (r.(failed := true), FORMAT) else (r.(ready := true), OK)
    else if |r.items| >= r.capacity then (r.(discarding := true), WOULD_BLOCK)
    else (r.(items := r.items + [octet]), WOULD_BLOCK)
  }

  /** The loop of `pbns_record_reader_push`. */
  function Scan(r: Reader, input: seq<byte>): (p: Pushed)
    ensures p.consumed <= |input| && (p.status == OK ==> p.consumed > 0)
    ensures p.status == WOULD_BLOCK ==> p.consumed == |input|
    decreases |input|
  {
    if input == [] then Pushed(r, WOULD_BLOCK, 0)
    else
      var (next, status) := Take(r, input[0]);
      if status != WOULD_BLOCK then Pushed(next, status, 1)
      else
        var p := Scan(next, input[1..]);
        p.(consumed := p.consumed + 1)
  }

  /** `pbns_record_reader_push`. */
  function Push(r: Reader, input: seq<byte>): Pushed {
    if r.ready || r.failed then Pushed(r, STATE, 0) else Scan(r, input)
  }

  // ----- a receiver -----

  datatype Received = Received(records: seq<seq<byte>>, reader: Reader)

  /** What a receiver gets out of a chunk: it takes each record and resets the reader, until one fails. */
  function Receive(r: Reader, input: seq<byte>): Received
    decreases |input|
  {
    var p := Push(r, input);
    if p.status != OK then Received([], p.reader)
    else
      var rest := Receive(Empty(r.capacity), input[p.consumed..]);
      Received([p.reader.items] + rest.records, rest.reader)
  }

  function ReceiveAll(r: Reader, chunks: seq<seq<byte>>): Received
    decreases |chunks|
  {
    if chunks == [] then Received([], r)
    else
      var first := Receive(r, chunks[0]);
      var rest := ReceiveAll(first.reader, chunks[1..]);
      Received(first.records + rest.records, rest.reader)
  }

  function Concat(chunks: seq<seq<byte>>): seq<byte> {
    if chunks == [] then [] else chunks[0] + Concat(chunks[1..])
  }

  lemma {:induction false} ScanKeepsCapacity(r: Reader, input: seq<byte>)
    ensures Scan(r, input).reader.capacity == r.capacity
    ensures Scan(r, input).status == WOULD_BLOCK && !r.ready && !r.failed ==>
              !Scan(r, input).reader.ready && !Scan(r, input).reader.failed
    ensures Scan(r, input).status != WOULD_BLOCK && Scan(r, input).status != OK ==> Scan(r, input).reader.failed
    decreases |input|
  {
    if input != [] {
      ScanKeepsCapacity(Take(r, input[0]).0, input[1..]);
    }
  }

  /** Scanning may stop and go on anywhere. */
  lemma {:induction false} ScanSplits(r: Reader, a: seq<byte>, b: seq<byte>)
    ensures var p := Scan(r, a);
            Scan(r, a + b) ==
            if p.status != WOULD_BLOCK then p
            else var q := Scan(p.reader, b); q.(consumed := |a| + q.consumed)
    decreases |a|
  {
    if a == [] {
      assert a + b == b;
    } else {
      assert (a + b)[0] == a[0] && (a + b)[1..] == a[1..] + b;
      ScanSplits(Take(r, a[0]).0, a[1..], b);
    }
  }

  /** A receiver's state between chunks: in the middle of a record, or stopped. */
  predicate Idle(r: Reader) {
    !r.ready
  }

  lemma ReceiveStops(r: Reader, input: seq<byte>)
    requires r.failed
    ensures Receive(r, input) == Received([], r)
  {
  }

  lemma {:induction false} ReceiveKeeps(r: Reader, input: seq<byte>)
    requires Idle(r)
    ensures Idle(Receive(r, input).reader) && Receive(r, input).reader.capacity == r.capacity
    decreases |input|
  {
    if !r.failed {
      ScanKeepsCapacity(r, input);
      var p := Scan(r, input);
      if p.status == OK {
        ReceiveKeeps(Empty(r.capacity), input[p.consumed..]);
      } else {
        ScanReady(r, input);
      }
    }
  }

  lemma {:induction false} ScanReady(r: Reader, input: seq<byte>)
    requires !r.ready
    ensures Scan(r, input).reader.ready <==> Scan(r, input).status == OK
    decreases |input|
  {
    if input != [] && Take(r, input[0]).1 == WOULD_BLOCK {
      ScanReady(Take(r, input[0]).0, input[1..]);
    }
  }

  /** What receiving the chunks one after the other gives. */
  function InTurn(r: Reader, a: seq<byte>, b: seq<byte>): Received {
    var first := Receive(r, a);
    var rest := Receive(first.reader, b);
    Received(first.records + rest.records, rest.reader)
  }

  /** Receiving two chunks is receiving their concatenation. */
  lemma {:induction false} ReceiveSplits(r: Reader, a: seq<byte>, b: seq<byte>)
    requires Idle(r)
    ensures Receive(r, a + b) == InTurn(r, a, b)
    decreases |a|
  {
    if r.failed {
      ReceiveStops(r, a);
      ReceiveStops(r, b);
      ReceiveStops(r, a + b);
    } else {
      var p := Scan(r, a);
      ScanKeepsCapacity(r, a);
      if p.status == OK {
        ReceiveSplits(Empty(r.capacity), a[p.consumed..], b);
        SplitsAfterRecord(r, a, b);
      } else if p.status == WOULD_BLOCK {
        ReceiveResumes(r, a, b);
      } else {
        ScanSplits(r, a, b);
        ReceiveStops(p.reader, b);
      }
    }
  }

  lemma SplitsAfterRecord(r: Reader, a: seq<byte>, b: seq<byte>)
    requires Idle(r) && !r.failed && Scan(r, a).status == OK
    requires var rest := a[Scan(r, a).consumed..];
             Receive(Empty(r.capacity), rest + b) == InTurn(Empty(r.capacity), rest, b)
    ensures Receive(r, a + b) == InTurn(r, a, b)
  {
    var p := Scan(r, a);
    var rest := a[p.consumed..];
    ScanSplits(r, a, b);
    assert (a + b)[p.consumed..] == rest + b;
    var tail := Receive(Empty(r.capacity), rest);
    assert Receive(r, a) == Received([p.reader.items] + tail.records, tail.reader);
    Regroup([p.reader.items], tail.records, Receive(tail.reader, b).records);
  }

  lemma Regroup(x: seq<seq<byte>>, y: seq<seq<byte>>, z: seq<seq<byte>>)
    ensures x + y + z == x + (y + z)
  {
  }

  lemma Beyond(a: seq<byte>, b: seq<byte>, n: nat)
    requires n <= |b|
    ensures (a + b)[|a| + n..] == b[n..]
  {
  }

  lemma ReceiveResumes(r: Reader, a: seq<byte>, b: seq<byte>)
    requires Idle(r) && !r.failed && Scan(r, a).status == WOULD_BLOCK
    ensures Receive(r, a + b) == Receive(Scan(r, a).reader, b)
  {
    var p := Scan(r, a);
    var q := Scan(p.reader, b);
    ScanSplits(r, a, b);
    ScanKeepsCapacity(r, a);
    Beyond(a, b, q.consumed);
  }

  /** However a stream is cut into chunks, the same records come out. */
  lemma {:induction false} ChunksDoNotMatter(r: Reader, chunks: seq<seq<byte>>)
    requires Idle(r)
    ensures ReceiveAll(r, chunks) == Receive(r, Concat(chunks))
    decreases |chunks|
  {
    if chunks == [] {
      ReceiveNothing(r);
    } else {
      ReceiveKeeps(r, chunks[0]);
      ChunksDoNotMatter(Receive(r, chunks[0]).reader, chunks[1..]);
      ReceiveSplits(r, chunks[0], Concat(chunks[1..]));
    }
  }

  lemma ReceiveNothing(r: Reader)
    requires Idle(r)
    ensures Receive(r, []) == Received([], r)
  {
  }

  // ----- records that were sent -----

  lemma {:induction false} ScanRecord(r: Reader, record: seq<byte>, rest: seq<byte>)
    requires !r.discarding && Cobs.NonZero(record) && r.items + record != [] && |r.items| + |record| <= r.capacity
    ensures Scan(r, record + [0] + rest) == Pushed(r.(items := r.items + record, ready := true), OK, |record| + 1)
    decreases |record|
  {
    var input := record + [0] + rest;
    if record == [] {
      assert input[0] == 0 && r.items + record == r.items;
    } else {
      assert input[0] == record[0] && input[1..] == record[1..] + [0] + rest;
      var next := r.(items := r.items + [record[0]]);
      assert next.items + record[1..] == r.items + record;
      ScanRecord(next, record[1..], rest);
    }
  }

  /** A record on the wire is received, and what follows it is received like the start of a stream. */
  lemma ReceiveRecord(capacity: nat, record: seq<byte>, rest: seq<byte>)
    requires record != [] && Cobs.NonZero(record) && |record| <= capacity
    ensures var later := Receive(Empty(capacity), rest);
            Receive(Empty(capacity), record + [0] + rest) == Received([record] + later.records, later.reader)
  {
    assert [] + record == record;
    ScanRecord(Empty(capacity), record, rest);
    assert (record + [0] + rest)[|record| + 1..] == rest;
  }

  lemma {:induction false} ScanOverlong(r: Reader, record: seq<byte>, rest: seq<byte>)
    requires Cobs.NonZero(record) && |r.items| <= r.capacity && (r.discarding || |r.items| + |record| > r.capacity)
    ensures var p := Scan(r, record + [0] + rest);
            p.status == LIMIT && p.consumed == |record| + 1 && p.reader.failed
    decreases |record|
  {
    var input := record + [0] + rest;
    if record == [] {
      assert input[0] == 0;
    } else {
      assert input[0] == record[0] && input[1..] == record[1..] + [0] + rest;
      ScanOverlong(Take(r, record[0]).0, record[1..], rest);
    }
  }

  /** A record longer than the storage, and an empty one, stop the reader at their terminator. */
  lemma BadRecordStops(capacity: nat, record: seq<byte>, rest: seq<byte>)
    requires Cobs.NonZero(record) && (record == [] || |record| > capacity)
    ensures var p := Push(Empty(capacity), record + [0] + rest);
            && p.status == (if record == [] then FORMAT else LIMIT)
            && p.consumed == |record| + 1 && p.reader.failed
            && Receive(Empty(capacity), record + [0] + rest).records == []
  {
    if record == [] {
      var input := record + [0] + rest;
      assert input[0] == 0;
      assert Take(Empty(capacity), input[0]) == (Empty(capacity).(failed := true), FORMAT);
      assert Scan(Empty(capacity), input) == Pushed(Empty(capacity).(failed := true), FORMAT, 1);
    } else {
      ScanOverlong(Empty(capacity), record, rest);
    }
  }

  datatype Message = Message(frame: Frame, payload: seq<byte>)

  /** A frame the sender may send and the receiver, with its limits, may take. */
  predicate Fits(check: Check, m: Message, limits: Limits) {
    && Admissible(m.frame, m.payload, limits) && |m.payload| <= CONTROL_PAYLOAD_MAX
    && |Record(check, m.frame, m.payload)| + 1 <= limits.record
  }

  predicate AllFit(check: Check, messages: seq<Message>, limits: Limits) {
    messages == [] || (Fits(check, messages[0], limits) && AllFit(check, messages[1..], limits))
  }

  /** The records of a sequence of frames. */
  function Records(check: Check, messages: seq<Message>, limits: Limits): seq<seq<byte>>
    requires AllFit(check, messages, limits)
  {
    if messages == [] then []
    else [Record(check, messages[0].frame, messages[0].payload)] + Records(check, messages[1..], limits)
  }

  /** What they put on the wire. */
  function Wire(check: Check, messages: seq<Message>, limits: Limits): seq<byte>
    requires AllFit(check, messages, limits)
  {
    if messages == [] then []
    else Record(check, messages[0].frame, messages[0].payload) + [0] + Wire(check, messages[1..], limits)
  }

  lemma {:induction false} WireIsReceived(check: Check, messages: seq<Message>, limits: Limits)
    requires AllFit(check, messages, limits)
    ensures Receive(Empty(limits.record), Wire(check, messages, limits))
            == Received(Records(check, messages, limits), Empty(limits.record))
    decreases |messages|
  {
    if messages == [] {
      ReceiveNothing(Empty(limits.record));
    } else {
      var record, rest := Record(check, messages[0].frame, messages[0].payload), Wire(check, messages[1..], limits);
      RecordSize(check, messages[0].frame, messages[0].payload);
      Cobs.EncodeNonZero(Raw(check, messages[0].frame, messages[0].payload));
      ReceiveRecord(limits.record, record, rest);
      WireIsReceived(check, messages[1..], limits);
    }
  }

  /** The frames decoded from records, none if one of them is refused. */
  function DecodeAll(check: Check, records: seq<seq<byte>>, limits: Limits): Option<seq<Message>> {
    if records == [] then Some([])
    else
      var d := DecodeRecord(check, records[0], limits);
      var rest := DecodeAll(check, records[1..], limits);
      if d.Bad? || rest.None? then None else Some([Message(d.frame, d.payload)] + rest.value)
  }

  lemma {:induction false} RecordsDecode(check: Check, messages: seq<Message>, limits: Limits)
    requires LimitsAreValid(limits) && AllFit(check, messages, limits)
    ensures DecodeAll(check, Records(check, messages, limits), limits) == Some(messages)
    decreases |messages|
  {
    if messages != [] {
      var m := messages[0];
      RecordDecodes(check, m.frame, m.payload, limits);
      RecordsDecode(check, messages[1..], limits);
      assert Records(check, messages, limits)[1..] == Records(check, messages[1..], limits);
      assert messages == [m] + messages[1..];
    }
  }

  /**
   * End to end: whatever admissible frames are sent, and however the byte stream is cut into
   * chunks on its way, a receiver with room for the records gets exactly those frames, in
   * order, and is ready for the next.
   */
  lemma FramesArrive(check: Check, messages: seq<Message>, limits: Limits, chunks: seq<seq<byte>>)
    requires LimitsAreValid(limits) && AllFit(check, messages, limits)
    requires Concat(chunks) == Wire(check, messages, limits)
    ensures var received := ReceiveAll(Empty(limits.record), chunks);
            && DecodeAll(check, received.records, limits) == Some(messages)
            && received.reader == Empty(limits.record)
  {
    ChunksDoNotMatter(Empty(limits.record), chunks);
    WireIsReceived(check, messages, limits);
    RecordsDecode(check, messages, limits);
  }

  // ----- the object -----

  class StreamReader {
    const storage: array<byte>
    var length: nat
    var discarding: bool
    var ready: bool
    var failed: bool

    ghost predicate Valid()
      reads this
    {
      length <= storage.Length
    }

    ghost function View(): Reader
      requires Valid()
      reads this, storage
    {
      Reader(storage.Length, storage[..length], discarding, ready, failed)
    }

    constructor (storage: array<byte>)
      ensures this.storage == storage && Valid() && View() == Empty(storage.Length)
    {
      this.storage := storage;
      length, discarding, ready, failed := 0, false, false, false;
    }

    method Reset()
      requires Valid()
      modifies this
      ensures Valid() && View() == Empty(storage.Length)
    {
      length, discarding, ready, failed := 0, false, false, false;
    }

    /** One octet of `pbns_record_reader_push`. */
    method TakeOctet(octet: byte) returns (status: Status)
      requires Valid()
      modifies this, storage
      ensures Valid() && (View(), status) == Take(old(View()), octet)
    {
      status := WOULD_BLOCK;
      if discarding {
        if octet == 0 {
          failed := true;
          status := LIMIT;
        }
      } else if octet == 0 {
        if length == 0 {
          failed := true;
          status := FORMAT;
        } else {
          ready := true;
          status := OK;
        }
      } else if length >= storage.Length {
        discarding := true;
      } else {
        storage[length] := octet;
        length := length + 1;
        assert storage[..length] == old(storage[..length]) + [octet];
      }
    }

    /** `pbns_record_reader_push`. */
    method Feed(input: seq<byte>) returns (status: Status, consumed: nat)
      requires Valid()
      modifies this, storage
      ensures Valid() && Pushed(View(), status, consumed) == Push(old(View()), input)
    {
      status, consumed := STATE, 0;
      if !ready && !failed {
        ghost var all := Scan(View(), input);
        status := WOULD_BLOCK;
        assert input[0..] == input;
        while status == WOULD_BLOCK && consumed < |input|
          invariant Valid() && consumed <= |input|
          invariant if status == WOULD_BLOCK then
                      var p := Scan(View(), input[consumed..]); all == p.(consumed := p.consumed + consumed)
                    else all == Pushed(View(), status, consumed)
          decreases |input| - consumed
        {
          assert input[consumed..][0] == input[consumed] && input[consumed..][1..] == input[consumed + 1..];
          status := TakeOctet(input[consumed]);
          consumed := consumed + 1;
        }
      }
    }
  }
}
