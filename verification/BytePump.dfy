/**
 * The bidirectional pump (pico/src/byte_pump.c). An endpoint call is a function from
 * its argument to its reply, so every theorem quantifies over arbitrary replies; the
 * calls a step makes are returned as a trace.
 */
module BytePump {
  import opened Bytes
  import opened Rings = ByteRing

  const BATCH_MAX_STEPS: nat := 8
  const GENERATIONS: nat := 0x1_0000_0000   // `size_t` counters wrap on the 32-bit target
  type Generation = g: int | 0 <= g < GENERATIONS

  /** `received` is the length of `data`; more than the capacity offered is an error. */
  datatype ReadReply = ReadReply(status: Status, data: seq<byte>)
  datatype WriteReply = WriteReply(status: Status, written: nat)
  type Source = nat -> ReadReply
  type Sink = seq<byte> -> WriteReply

  datatype Call =
    | Offer(offered: seq<byte>, taken: WriteReply)
    | Ask(capacity: nat, given: ReadReply)

  /** One `pump_direction`; `counted` says whether the generation counters are attached. */
  datatype Direction = Direction(ring: Ring, closed: bool, readGen: Generation, writeGen: Generation, counted: bool) {
    predicate Ok() {
      ring.Ok() && ring.capacity > 0
    }

    /** Nothing is left to do in this direction. */
    predicate Drained() {
      closed && ring.items == []
    }
  }

  datatype DirectionPolicy = DirectionPolicy(minimumWrite: nat, minimumWritable: nat, force: bool)

  datatype Outcome = Outcome(direction: Direction, status: Status, progress: bool, calls: seq<Call>)

  predicate Typed(status: Status) {
    !status.Untyped?
  }

  function NextGeneration(g: Generation): (r: Generation)
    ensures r != g
  {
    (g + 1) % GENERATIONS
  }

  predicate ShouldHold(d: Direction, policy: DirectionPolicy) {
    && policy.minimumWrite != 0 && |d.ring.items| < policy.minimumWrite
    && !policy.force && !d.closed && |d.ring.items| < d.ring.capacity
  }

  /** `write_pending` calls its sink. */
  predicate Writes(d: Direction, policy: DirectionPolicy) {
    d.ring.items != [] && !ShouldHold(d, policy)
  }

  function Offered(d: Direction): (offered: seq<byte>)
    requires d.Ok()
  {
    d.ring.items[..d.ring.Readable()]
  }

  /** What `write_pending` makes of the sink's reply. */
  function SettleWrite(d: Direction, reply: WriteReply): (o: Outcome)
    requires d.Ok()
  {
    var calls := [Offer(Offered(d), reply)];
    if !Typed(reply.status) then
      Outcome(d, IO, false, calls)
    else if reply.status == WOULD_BLOCK then
      Outcome(d, if reply.written == 0 then OK else IO, false, calls)
    else if reply.status != OK then
      Outcome(d, reply.status, false, calls)
    else if reply.written == 0 || reply.written > d.ring.Readable() then
      Outcome(d, IO, false, calls)
    else
      var popped := d.(ring := d.ring.Pop(reply.written));
      Outcome(if d.counted then popped.(writeGen := NextGeneration(d.writeGen)) else popped, OK, true, calls)
  }

  function WritePending(d: Direction, policy: DirectionPolicy, sink: Sink): (o: Outcome)
    requires d.Ok()
  {
    if Writes(d, policy) then SettleWrite(d, sink(Offered(d))) else Outcome(d, OK, false, [])
  }

  /** `read_available` calls its source. */
  predicate Reads(d: Direction, policy: DirectionPolicy)
    requires d.Ok()
  {
    && !d.closed && d.ring.Writable() != 0
    && !(policy.minimumWritable != 0 && d.ring.items != [] && d.ring.Writable() < policy.minimumWritable)
  }

  /** What `read_available` makes of the source's reply. */
  function SettleRead(d: Direction, reply: ReadReply): (o: Outcome)
    requires d.Ok()
  {
    var calls := [Ask(d.ring.Writable(), reply)];
    if !Typed(reply.status) then
      Outcome(d, IO, false, calls)
    else if reply.status == WOULD_BLOCK then
      Outcome(d, if reply.data == [] then OK else IO, false, calls)
    else if reply.status != OK then
      Outcome(d, reply.status, false, calls)
    else if |reply.data| > d.ring.Writable() then
      Outcome(d, IO, false, calls)
    else if reply.data == [] then
      Outcome(d.(closed := true), OK, true, calls)
    else
      var pushed := d.(ring := d.ring.Push(reply.data));
      Outcome(if d.counted then pushed.(readGen := NextGeneration(d.readGen)) else pushed, OK, true, calls)
  }

  function ReadAvailable(d: Direction, policy: DirectionPolicy, source: Source): (o: Outcome)
    requires d.Ok()
  {
    if Reads(d, policy) then SettleRead(d, source(d.ring.Writable())) else Outcome(d, OK, false, [])
  }

  function Process(d: Direction, policy: DirectionPolicy, source: Source, sink: Sink): (o: Outcome)
    requires d.Ok()
  {
    var w := WritePending(d, policy, sink);
    if w.status != OK then w
    else
      WritePendingKeeps(d, policy, sink);
      var r := ReadAvailable(w.direction, policy, source);
      Outcome(r.direction, r.status, w.progress || r.progress, w.calls + r.calls)
  }

  lemma WritePendingKeeps(d: Direction, policy: DirectionPolicy, sink: Sink)
    requires d.Ok()
    ensures WritePending(d, policy, sink).direction.Ok()
  {
  }

  // ----- conservation in one direction -----

  /** The octets a call took out of the ring. */
  function Given(call: Call): seq<byte> {
    match call
    case Offer(offered, r) => if r.status == OK && 0 < r.written <= |offered| then offered[..r.written] else []
    case Ask(_, _) => []
  }

  /** The octets a call put into the ring. */
  function Taken(call: Call): seq<byte> {
    match call
    case Offer(_, _) => []
    case Ask(capacity, r) => if r.status == OK && |r.data| <= capacity then r.data else []
  }

  function AllGiven(calls: seq<Call>): seq<byte> {
    if calls == [] then [] else AllGiven(calls[..|calls| - 1]) + Given(calls[|calls| - 1])
  }

  function AllTaken(calls: seq<Call>): seq<byte> {
    if calls == [] then [] else AllTaken(calls[..|calls| - 1]) + Taken(calls[|calls| - 1])
  }

  lemma Regroup<T>(a: seq<T>, b: seq<T>, c: seq<T>)
    ensures a + b + c == a + (b + c)
  {
  }

  lemma {:induction false} GivenConcat(a: seq<Call>, b: seq<Call>)
    ensures AllGiven(a + b) == AllGiven(a) + AllGiven(b)
    decreases |b|
  {
    if b == [] {
      assert a + b == a;
    } else {
      var front, last := b[..|b| - 1], b[|b| - 1];
      assert (a + b)[..|a + b| - 1] == a + front;
      GivenConcat(a, front);
      Regroup(AllGiven(a), AllGiven(front), Given(last));
    }
  }

  lemma {:induction false} TakenConcat(a: seq<Call>, b: seq<Call>)
    ensures AllTaken(a + b) == AllTaken(a) + AllTaken(b)
    decreases |b|
  {
    if b == [] {
      assert a + b == a;
    } else {
      var front, last := b[..|b| - 1], b[|b| - 1];
      assert (a + b)[..|a + b| - 1] == a + front;
      TakenConcat(a, front);
      Regroup(AllTaken(a), AllTaken(front), Taken(last));
    }
  }

  /** `before` becomes `after` by the calls without losing, repeating or reordering an octet. */
  predicate Conserves(before: Direction, after: Direction, calls: seq<Call>) {
    && after.Ok() && after.counted == before.counted && after.ring.capacity == before.ring.capacity
    && AllGiven(calls) + after.ring.items == before.ring.items + AllTaken(calls)
  }

  lemma FlowCompose<T>(g1: seq<T>, g2: seq<T>, i0: seq<T>, i1: seq<T>, i2: seq<T>, t1: seq<T>, t2: seq<T>)
    requires g1 + i1 == i0 + t1 && g2 + i2 == i1 + t2
    ensures g1 + g2 + i2 == i0 + (t1 + t2)
  {
    Regroup(g1, g2, i2);
    Regroup(g1, i1, t2);
    Regroup(i0, t1, t2);
  }

  lemma ConservesCompose(a: Direction, b: Direction, c: Direction, ab: seq<Call>, bc: seq<Call>)
    requires Conserves(a, b, ab) && Conserves(b, c, bc)
    ensures Conserves(a, c, ab + bc)
  {
    GivenConcat(ab, bc);
    TakenConcat(ab, bc);
    FlowCompose(AllGiven(ab), AllGiven(bc), a.ring.items, b.ring.items, c.ring.items, AllTaken(ab), AllTaken(bc));
  }

  lemma OneCall(call: Call)
    ensures AllGiven([call]) == Given(call) && AllTaken([call]) == Taken(call)
  {
    assert [call][..0] == [];
    assert [] + Given(call) == Given(call) && [] + Taken(call) == Taken(call);
  }

  /** A settled write takes a front part of the queue, or leaves the direction as it was. */
  lemma SettleWriteCases(d: Direction, reply: WriteReply)
    requires d.Ok() && d.ring.items != []
    ensures var o := SettleWrite(d, reply);
            && o.calls == [Offer(Offered(d), reply)] && AllTaken(o.calls) == []
            && if reply.status == OK && 0 < reply.written <= d.ring.Readable() then
                 && o.status == OK && o.direction.Ok() && o.direction.ring == d.ring.Pop(reply.written)
                 && o.direction.(writeGen := d.writeGen, ring := d.ring) == d
                 && (d.counted ==> o.direction.writeGen != d.writeGen)
                 && AllGiven(o.calls) == d.ring.items[..reply.written]
               else
                 && o.direction == d && AllGiven(o.calls) == []
                 && (o.status == OK <==> reply.status == WOULD_BLOCK && reply.written == 0)
  {
    OneCall(Offer(Offered(d), reply));
    if 0 < reply.written <= d.ring.Readable() {
      assert Offered(d)[..reply.written] == d.ring.items[..reply.written];
    }
  }

  lemma CutAt<T>(items: seq<T>, n: nat)
    requires n <= |items|
    ensures items[..n] + items[n..] == items + []
  {
  }

  lemma SettleWriteConserves(d: Direction, reply: WriteReply)
    requires d.Ok() && d.ring.items != []
    ensures var o := SettleWrite(d, reply); Conserves(d, o.direction, o.calls)
  {
    SettleWriteCases(d, reply);
    if reply.status == OK && 0 < reply.written <= d.ring.Readable() {
      CutAt(d.ring.items, reply.written);
    } else {
      assert [] + d.ring.items == d.ring.items + [];
    }
  }

  lemma WriteConserves(d: Direction, policy: DirectionPolicy, sink: Sink)
    requires d.Ok()
    ensures var o := WritePending(d, policy, sink); Conserves(d, o.direction, o.calls)
  {
    if Writes(d, policy) {
      SettleWriteConserves(d, sink(Offered(d)));
    } else {
      ConservesNothing(d);
    }
  }

  /** A settled read appends what it took, and closes only on an empty success. */
  lemma SettleReadCases(d: Direction, reply: ReadReply)
    requires d.Ok() && d.ring.Writable() > 0
    ensures var o := SettleRead(d, reply);
            && o.calls == [Ask(d.ring.Writable(), reply)] && AllGiven(o.calls) == []
            && o.direction.Ok() && |AllTaken(o.calls)| <= d.ring.Writable()
            && o.direction.ring == d.ring.Push(AllTaken(o.calls))
            && o.direction.(readGen := d.readGen, closed := d.closed, ring := d.ring) == d
            && (o.direction.closed <==> d.closed || (reply.status == OK && reply.data == []))
            && AllTaken(o.calls) == (if reply.status == OK && |reply.data| <= d.ring.Writable() then reply.data else [])
            && (o.status == OK <==>
                  || (reply.status == WOULD_BLOCK && reply.data == [])
                  || (reply.status == OK && |reply.data| <= d.ring.Writable()))
  {
    OneCall(Ask(d.ring.Writable(), reply));
    assert d.ring.items + [] == d.ring.items;
  }

  lemma ReadConserves(d: Direction, policy: DirectionPolicy, source: Source)
    requires d.Ok()
    ensures var o := ReadAvailable(d, policy, source); Conserves(d, o.direction, o.calls)
  {
    ConservesNothing(d);
    if Reads(d, policy) {
      SettleReadCases(d, source(d.ring.Writable()));
      var o := ReadAvailable(d, policy, source);
      assert [] + o.direction.ring.items == o.direction.ring.items;
    }
  }

  /**
   * Whatever the endpoints answer, and whether or not the direction fails: what was
   * delivered followed by what is buffered is what was buffered followed by what arrived.
   */
  lemma ProcessConserves(d: Direction, policy: DirectionPolicy, source: Source, sink: Sink)
    requires d.Ok()
    ensures var o := Process(d, policy, source, sink); Conserves(d, o.direction, o.calls)
  {
    var w := WritePending(d, policy, sink);
    WriteConserves(d, policy, sink);
    if w.status == OK {
      ReadConserves(w.direction, policy, source);
      var r := ReadAvailable(w.direction, policy, source);
      ConservesCompose(d, w.direction, r.direction, w.calls, r.calls);
    }
  }

  /**
   * The exact condition under which a successful pass calls no endpoint. A direction with
   * only one of the two thresholds, as the pump configures both of its directions, calls
   * one unless it is closed and drained.
   */
  lemma NeverWedges(d: Direction, policy: DirectionPolicy, source: Source, sink: Sink)
    requires d.Ok()
    ensures var o := Process(d, policy, source, sink);
            o.calls == [] <==>
              || d.Drained()
              || (ShouldHold(d, policy) && d.ring.items != [] && policy.minimumWritable > d.ring.Writable())
    ensures policy.minimumWrite == 0 || policy.minimumWritable == 0 ==>
              (Process(d, policy, source, sink).calls == [] <==> d.Drained())
  {
    var w := WritePending(d, policy, sink);
    var o := Process(d, policy, source, sink);
    if w.calls != [] {
      assert o.calls[0] == w.calls[0];
    } else {
      assert w.direction == d && o.calls == ReadAvailable(d, policy, source).calls;
    }
  }

  // ----- the pump -----

  datatype Pump = Pump(usbToTls: Direction, tlsToUsb: Direction, cancelled: bool, failed: bool) {
    predicate Ok() {
      usbToTls.Ok() && tlsToUsb.Ok() && usbToTls.counted && !tlsToUsb.counted
    }

    predicate Complete() {
      !cancelled && !failed && usbToTls.Drained() && tlsToUsb.Drained()
    }

    function Reset(): Pump {
      Pump(Direction(usbToTls.ring.Emptied(), false, 0, 0, usbToTls.counted),
           tlsToUsb.(ring := tlsToUsb.ring.Emptied(), closed := false), false, false)
    }

    function Cancel(): Pump {
      this.(usbToTls := usbToTls.(ring := usbToTls.ring.Emptied()),
            tlsToUsb := tlsToUsb.(ring := tlsToUsb.ring.Emptied()), cancelled := true)
    }
  }

  datatype Policy = Policy(minimumWrite: nat, minimumWritable: nat, force: bool) {
    function Up(): DirectionPolicy { DirectionPolicy(minimumWrite, 0, force) }
    function Down(): DirectionPolicy { DirectionPolicy(0, minimumWritable, false) }
  }

  datatype Endpoints = Endpoints(usbRead: Source, usbWrite: Sink, tlsRead: Source, tlsWrite: Sink)

  datatype StepResult = StepResult(pump: Pump, status: Status, progress: bool, up: seq<Call>, down: seq<Call>)

  /** A pump that is not `Ok` was refused at initialisation. */
  function Step(p: Pump, policy: Policy, env: Endpoints): (r: StepResult) {
    if !p.Ok() || p.cancelled || p.failed then StepResult(p, STATE, false, [], [])
    else if p.Complete() then StepResult(p, OK, false, [], [])
    else
      var up := Process(p.usbToTls, policy.Up(), env.usbRead, env.tlsWrite);
      var p1 := p.(usbToTls := up.direction);
      if up.status != OK then StepResult(p1.(failed := true), up.status, up.progress, up.calls, [])
      else
        var down := Process(p.tlsToUsb, policy.Down(), env.tlsRead, env.usbWrite);
        StepResult(p1.(tlsToUsb := down.direction, failed := down.status != OK), down.status,
                   up.progress || down.progress, up.calls, down.calls)
  }

  /** What a step keeps, whatever happens in it. */
  predicate Lawful(p: Pump, r: StepResult) {
    && r.pump.Ok() && r.pump.cancelled == p.cancelled
    && (r.pump.failed <==> p.failed || (!p.cancelled && r.status != OK))
    && Conserves(p.usbToTls, r.pump.usbToTls, r.up)
    && Conserves(p.tlsToUsb, r.pump.tlsToUsb, r.down)
  }

  lemma StepLawful(p: Pump, policy: Policy, env: Endpoints)
    requires p.Ok()
    ensures Lawful(p, Step(p, policy, env))
  {
    ConservesNothing(p.usbToTls);
    ConservesNothing(p.tlsToUsb);
    ProcessConserves(p.usbToTls, policy.Up(), env.usbRead, env.tlsWrite);
    ProcessConserves(p.tlsToUsb, policy.Down(), env.tlsRead, env.usbWrite);
  }

  lemma ConservesNothing(d: Direction)
    requires d.Ok()
    ensures Conserves(d, d, [])
  {
    assert [] + d.ring.items == d.ring.items + [];
  }

  /** In every step that succeeds, each direction calls an endpoint unless it is closed and drained. */
  lemma StepNeverWedges(p: Pump, policy: Policy, env: Endpoints)
    requires p.Ok() && Step(p, policy, env).status == OK
    ensures var r := Step(p, policy, env);
            (r.up == [] <==> p.usbToTls.Drained()) && (r.down == [] <==> p.tlsToUsb.Drained())
  {
    NeverWedges(p.usbToTls, policy.Up(), env.usbRead, env.tlsWrite);
    NeverWedges(p.tlsToUsb, policy.Down(), env.tlsRead, env.usbWrite);
  }

  // ----- batches -----

  /** The number of steps is the length of the trace. */
  datatype BatchResult = BatchResult(pump: Pump, status: Status, progress: bool, trace: seq<StepResult>)

  /** The force flag is dropped once a write has succeeded in this batch. */
  function AfterStep(policy: Policy, p: Pump, startWrites: Generation): Policy {
    if policy.force && p.usbToTls.writeGen != startWrites then policy.(force := false) else policy
  }

  type Stepper = (Endpoints, Pump, Policy) -> StepResult

  function StepOn(env: Endpoints, p: Pump, policy: Policy): StepResult {
    Step(p, policy, env)
  }

  /** The batch loop; `script` holds the endpoints' behaviour in each step that is left. */
  function BatchFrom(step: Stepper, p: Pump, policy: Policy, startWrites: Generation, script: seq<Endpoints>)
    : (r: BatchResult)
    decreases |script|
  {
    if script == [] then BatchResult(p, OK, false, [])
    else
      var s := step(script[0], p, policy);
      if s.status != OK || !s.progress || s.pump.Complete() then
        BatchResult(s.pump, s.status, s.progress, [s])
      else
        var rest := BatchFrom(step, s.pump, AfterStep(policy, s.pump, startWrites), startWrites, script[1..]);
        BatchResult(rest.pump, rest.status, true, [s] + rest.trace)
  }

  function Batch(p: Pump, policy: Policy, env: nat -> Endpoints): BatchResult {
    if !p.Ok() || p.cancelled || p.failed then BatchResult(p, STATE, false, [])
    else BatchFrom(StepOn, p, policy, p.usbToTls.writeGen, Script(env))
  }

  function Script(env: nat -> Endpoints): (s: seq<Endpoints>)
    ensures |s| == BATCH_MAX_STEPS
  {
    seq(BATCH_MAX_STEPS, i requires 0 <= i => env(i))
  }

  function UpCalls(trace: seq<StepResult>): seq<Call> {
    if trace == [] then [] else trace[0].up + UpCalls(trace[1..])
  }

  function DownCalls(trace: seq<StepResult>): seq<Call> {
    if trace == [] then [] else trace[0].down + DownCalls(trace[1..])
  }

  lemma {:induction false} BatchFromConserves(
      step: Stepper, p: Pump, policy: Policy, startWrites: Generation, script: seq<Endpoints>)
    requires p.Ok()
    requires forall e, q: Pump, pol {:trigger step(e, q, pol)} :: q.Ok() ==> Lawful(q, step(e, q, pol))
    ensures var r := BatchFrom(step, p, policy, startWrites, script);
            && r.pump.Ok() && |r.trace| <= |script|
            && Conserves(p.usbToTls, r.pump.usbToTls, UpCalls(r.trace))
            && Conserves(p.tlsToUsb, r.pump.tlsToUsb, DownCalls(r.trace))
    decreases |script|
  {
    if script == [] {
      ConservesNothing(p.usbToTls);
      ConservesNothing(p.tlsToUsb);
    } else {
      var s := step(script[0], p, policy);
      if s.status != OK || !s.progress || s.pump.Complete() {
        LastStep(s);
      } else {
        var next := AfterStep(policy, s.pump, startWrites);
        var rest := BatchFrom(step, s.pump, next, startWrites, script[1..]);
        BatchFromConserves(step, s.pump, next, startWrites, script[1..]);
        ConservesCompose(p.usbToTls, s.pump.usbToTls, rest.pump.usbToTls, s.up, UpCalls(rest.trace));
        ConservesCompose(p.tlsToUsb, s.pump.tlsToUsb, rest.pump.tlsToUsb, s.down, DownCalls(rest.trace));
        FirstStep(s, rest.trace);
      }
    }
  }

  lemma LastStep(s: StepResult)
    ensures UpCalls([s]) == s.up && DownCalls([s]) == s.down
  {
    assert s.up + [] == s.up && s.down + [] == s.down;
  }

  lemma FirstStep(s: StepResult, rest: seq<StepResult>)
    ensures UpCalls([s] + rest) == s.up + UpCalls(rest) && DownCalls([s] + rest) == s.down + DownCalls(rest)
  {
    assert ([s] + rest)[1..] == rest;
  }

  /** A whole batch conserves both byte streams, even one that ends in a failure. */
  lemma BatchConserves(p: Pump, policy: Policy, env: nat -> Endpoints)
    requires p.Ok()
    ensures var r := Batch(p, policy, env);
            && r.pump.Ok() && |r.trace| <= BATCH_MAX_STEPS
            && Conserves(p.usbToTls, r.pump.usbToTls, UpCalls(r.trace))
            && Conserves(p.tlsToUsb, r.pump.tlsToUsb, DownCalls(r.trace))
  {
    if p.cancelled || p.failed {
      ConservesNothing(p.usbToTls);
      ConservesNothing(p.tlsToUsb);
    } else {
      forall e, q: Pump, pol | q.Ok() ensures Lawful(q, StepOn(e, q, pol)) {
        StepLawful(q, pol, e);
      }
      BatchFromConserves(StepOn, p, policy, p.usbToTls.writeGen, Script(env));
    }
  }

  // ----- reads and the read generation -----

  /** The read generation moves on exactly when a step took octets from the source. */
  predicate ReadLaw(p: Pump, s: StepResult) {
    && s.pump.Ok()
    && s.pump.usbToTls.readGen ==
       if AllTaken(s.up) == [] then p.usbToTls.readGen else NextGeneration(p.usbToTls.readGen)
  }

  lemma ReadCounts(d: Direction, policy: DirectionPolicy, source: Source)
    requires d.Ok() && d.counted
    ensures var o := ReadAvailable(d, policy, source);
            o.direction.readGen == if AllTaken(o.calls) == [] then d.readGen else NextGeneration(d.readGen)
  {
    if Reads(d, policy) {
      SettleReadCases(d, source(d.ring.Writable()));
    }
  }

  lemma WriteTakesNothing(d: Direction, policy: DirectionPolicy, sink: Sink)
    requires d.Ok()
    ensures var o := WritePending(d, policy, sink);
            AllTaken(o.calls) == [] && o.direction.readGen == d.readGen && o.direction.counted == d.counted
  {
    if Writes(d, policy) {
      SettleWriteCases(d, sink(Offered(d)));
    }
  }

  lemma ProcessReads(d: Direction, policy: DirectionPolicy, source: Source, sink: Sink)
    requires d.Ok() && d.counted
    ensures var o := Process(d, policy, source, sink);
            o.direction.readGen == if AllTaken(o.calls) == [] then d.readGen else NextGeneration(d.readGen)
  {
    WriteTakesNothing(d, policy, sink);
    var w := WritePending(d, policy, sink);
    if w.status == OK {
      WritePendingKeeps(d, policy, sink);
      ReadCounts(w.direction, policy, source);
      TakenConcat(w.calls, ReadAvailable(w.direction, policy, source).calls);
    }
  }

  lemma StepReadLaw(p: Pump, policy: Policy, env: Endpoints)
    requires p.Ok()
    ensures ReadLaw(p, Step(p, policy, env))
  {
    StepLawful(p, policy, env);
    ProcessReads(p.usbToTls, policy.Up(), env.usbRead, env.tlsWrite);
  }

  /** In how many steps octets were taken. */
  function ReadSteps(trace: seq<StepResult>): (n: nat)
    ensures n <= |trace|
  {
    if trace == [] then 0 else (if AllTaken(trace[0].up) == [] then 0 else 1) + ReadSteps(trace[1..])
  }

  lemma {:induction false} TakenInSteps(trace: seq<StepResult>)
    ensures AllTaken(UpCalls(trace)) == [] <==> ReadSteps(trace) == 0
    decreases |trace|
  {
    if trace != [] {
      TakenInSteps(trace[1..]);
      TakenConcat(trace[0].up, UpCalls(trace[1..]));
    }
  }

  function Later(g: Generation, n: nat): Generation {
    (g + n) % GENERATIONS
  }

  lemma LaterNext(g: Generation, n: nat)
    ensures Later(NextGeneration(g), n) == Later(g, n + 1) && Later(g, 0) == g
    ensures 0 < n < GENERATIONS ==> Later(g, n) != g
  {
  }

  lemma CountReads(s: StepResult, rest: seq<StepResult>)
    ensures ReadSteps([s] + rest) == (if AllTaken(s.up) == [] then 0 else 1) + ReadSteps(rest)
  {
    assert ([s] + rest)[1..] == rest;
  }

  lemma {:induction false} BatchFromReads(
      step: Stepper, p: Pump, policy: Policy, startWrites: Generation, script: seq<Endpoints>)
    requires p.Ok()
    requires forall e, q: Pump, pol {:trigger step(e, q, pol)} :: q.Ok() ==> ReadLaw(q, step(e, q, pol))
    ensures var r := BatchFrom(step, p, policy, startWrites, script);
            |r.trace| <= |script| && r.pump.usbToTls.readGen == Later(p.usbToTls.readGen, ReadSteps(r.trace))
    decreases |script|
  {
    var g := p.usbToTls.readGen;
    if script == [] {
      LaterNext(g, 0);
    } else {
      var s := step(script[0], p, policy);
      assert ReadLaw(p, s);
      var tail := [];
      if s.status == OK && s.progress && !s.pump.Complete() {
        var next := AfterStep(policy, s.pump, startWrites);
        BatchFromReads(step, s.pump, next, startWrites, script[1..]);
        tail := BatchFrom(step, s.pump, next, startWrites, script[1..]).trace;
      }
      CountReads(s, tail);
      LaterNext(g, ReadSteps(tail));
      LaterNext(s.pump.usbToTls.readGen, 0);
    }
  }

  /** A batch moves the read generation on exactly when it took octets: it cannot come full circle. */
  lemma BatchReads(p: Pump, policy: Policy, env: nat -> Endpoints)
    requires p.Ok()
    ensures var r := Batch(p, policy, env);
            r.pump.usbToTls.readGen == p.usbToTls.readGen <==> AllTaken(UpCalls(r.trace)) == []
  {
    if !p.cancelled && !p.failed {
      forall e, q: Pump, pol | q.Ok() ensures ReadLaw(q, StepOn(e, q, pol)) {
        StepReadLaw(q, pol, e);
      }
      BatchFromReads(StepOn, p, policy, p.usbToTls.writeGen, Script(env));
      var r := Batch(p, policy, env);
      TakenInSteps(r.trace);
      LaterNext(p.usbToTls.readGen, ReadSteps(r.trace));
    }
  }

  // ----- forced writes -----

  /** The step wrote although, without the force flag, the write would have been held back. */
  predicate Forced(before: Pump, policy: Policy, s: StepResult) {
    AllGiven(s.up) != [] && ShouldHold(before.usbToTls, policy.(force := false).Up())
  }

  function ForcedWrites(p: Pump, policy: Policy, trace: seq<StepResult>): nat
    decreases |trace|
  {
    if trace == [] then 0
    else (if Forced(p, policy, trace[0]) then 1 else 0) + ForcedWrites(trace[0].pump, policy, trace[1..])
  }

  /** How the write generation records a step's writes, and what the hold rule forbids. */
  predicate ForceLaw(p: Pump, policy: Policy, s: StepResult) {
    && s.pump.Ok()
    && (s.pump.usbToTls.writeGen == p.usbToTls.writeGen <==> AllGiven(s.up) == [])
    && (!policy.force ==> !Forced(p, policy, s))
  }

  lemma WriteCounts(d: Direction, policy: DirectionPolicy, sink: Sink)
    requires d.Ok() && d.counted
    ensures var o := WritePending(d, policy, sink);
            && (o.direction.writeGen == d.writeGen <==> AllGiven(o.calls) == [])
            && (ShouldHold(d, policy) ==> o.calls == [])
  {
    if Writes(d, policy) {
      SettleWriteCases(d, sink(Offered(d)));
    }
  }

  lemma ReadGivesNothing(d: Direction, policy: DirectionPolicy, source: Source)
    requires d.Ok()
    ensures var o := ReadAvailable(d, policy, source);
            AllGiven(o.calls) == [] && o.direction.writeGen == d.writeGen
  {
    if Reads(d, policy) {
      SettleReadCases(d, source(d.ring.Writable()));
    }
  }

  lemma ProcessWrites(d: Direction, policy: DirectionPolicy, source: Source, sink: Sink)
    requires d.Ok() && d.counted
    ensures var o := Process(d, policy, source, sink);
            && (o.direction.writeGen == d.writeGen <==> AllGiven(o.calls) == [])
            && (ShouldHold(d, policy) ==> AllGiven(o.calls) == [])
  {
    WriteCounts(d, policy, sink);
    var w := WritePending(d, policy, sink);
    if w.status == OK {
      WritePendingKeeps(d, policy, sink);
      ReadGivesNothing(w.direction, policy, source);
      var r := ReadAvailable(w.direction, policy, source);
      GivenConcat(w.calls, r.calls);
      assert AllGiven(w.calls) + [] == AllGiven(w.calls);
    }
  }

  lemma StepForceLaw(p: Pump, policy: Policy, env: Endpoints)
    requires p.Ok()
    ensures ForceLaw(p, policy, Step(p, policy, env))
  {
    StepLawful(p, policy, env);
    ProcessWrites(p.usbToTls, policy.Up(), env.usbRead, env.tlsWrite);
  }

  lemma {:induction false} BatchFromForced(
      step: Stepper, p: Pump, policy: Policy, startWrites: Generation, script: seq<Endpoints>)
    requires p.Ok()
    requires forall e, q: Pump, pol {:trigger step(e, q, pol)} :: q.Ok() ==> ForceLaw(q, pol, step(e, q, pol))
    requires policy.force ==> p.usbToTls.writeGen == startWrites
    ensures var r := BatchFrom(step, p, policy, startWrites, script);
            ForcedWrites(p, policy.(force := false), r.trace) <= if policy.force then 1 else 0
    decreases |script|
  {
    var base := policy.(force := false);
    if script != [] {
      var s := step(script[0], p, policy);
      assert ForceLaw(p, policy, s);
      var tail := [];
      if s.status == OK && s.progress && !s.pump.Complete() {
        var next := AfterStep(policy, s.pump, startWrites);
        BatchFromForced(step, s.pump, next, startWrites, script[1..]);
        tail := BatchFrom(step, s.pump, next, startWrites, script[1..]).trace;
        assert ForcedWrites(s.pump, base, tail) <= if next.force then 1 else 0;
      }
      CountFirst(p, base, s, tail);
    }
  }

  lemma CountFirst(p: Pump, policy: Policy, s: StepResult, rest: seq<StepResult>)
    ensures ForcedWrites(p, policy, [s] + rest) ==
            (if Forced(p, policy, s) then 1 else 0) + ForcedWrites(s.pump, policy, rest)
  {
    assert ([s] + rest)[1..] == rest;
  }

  /** A batch lets at most one write below the threshold through, and none unless it is forced. */
  lemma AtMostOneForcedWrite(p: Pump, policy: Policy, env: nat -> Endpoints)
    requires p.Ok()
    ensures ForcedWrites(p, policy.(force := false), Batch(p, policy, env).trace) <= if policy.force then 1 else 0
  {
    if !p.cancelled && !p.failed {
      forall e, q: Pump, pol | q.Ok() ensures ForceLaw(q, pol, StepOn(e, q, pol)) {
        StepForceLaw(q, pol, e);
      }
      BatchFromForced(StepOn, p, policy, p.usbToTls.writeGen, Script(env));
    }
  }

  // ----- the objects -----

  class PumpDirection {
    const ring: Rings.ByteRing
    const counted: bool
    var closed: bool
    var readGen: Generation
    var writeGen: Generation

    ghost predicate Valid()
      reads this, ring
    {
      ring.Valid() && ring.storage.Length > 0
    }

    ghost function View(): (d: Direction)
      requires Valid()
      reads this, ring, ring.storage
      ensures d.Ok()
    {
      Direction(ring.View(), closed, readGen, writeGen, counted)
    }

    constructor (storage: array<byte>, counted: bool)
      requires storage.Length > 0
      ensures Valid() && fresh(ring) && ring.storage == storage
      ensures View() == Direction(Ring(storage.Length, 0, []), false, 0, 0, counted)
    {
      ring := new Rings.ByteRing(storage);
      this.counted := counted;
      closed, readGen, writeGen := false, 0, 0;
    }

    /** `write_pending`. */
    method WriteOut(policy: DirectionPolicy, sink: Sink)
      returns (status: Status, progress: bool, ghost calls: seq<Call>)
      requires Valid()
      modifies this, ring
      ensures Valid()
      ensures Outcome(View(), status, progress, calls) == WritePending(old(View()), policy, sink)
    {
      progress, calls := false, [];
      var readable: seq<byte>;
      status, readable := ring.Readable();
      var size := ring.length;
      var hold := policy.minimumWrite != 0 && size < policy.minimumWrite && !policy.force
                  && !closed && size < ring.storage.Length;
      if |readable| != 0 && !hold {
        var reply := sink(readable);
        calls := [Offer(readable, reply)];
        if reply.status.Untyped? {
          status := IO;
        } else if reply.status == WOULD_BLOCK {
          status := if reply.written == 0 then OK else IO;
        } else if reply.status != OK {
          status := reply.status;
        } else if reply.written == 0 || reply.written > |readable| {
          status := IO;
        } else {
          status := ring.Consume(reply.written);
          if counted {
            writeGen := NextGeneration(writeGen);
          }
          progress := true;
        }
      }
    }

    /** `read_available`. */
    method ReadIn(policy: DirectionPolicy, source: Source)
      returns (status: Status, progress: bool, ghost calls: seq<Call>)
      requires Valid()
      modifies this, ring, ring.storage
      ensures Valid()
      ensures Outcome(View(), status, progress, calls) == ReadAvailable(old(View()), policy, source)
    {
      status, progress, calls := OK, false, [];
      var ready, offset, capacity := ring.Writable();
      if !closed && capacity != 0
         && !(policy.minimumWritable != 0 && ring.length != 0 && capacity < policy.minimumWritable) {
        var reply := source(capacity);
        calls := [Ask(capacity, reply)];
        if reply.status.Untyped? {
          status := IO;
        } else if reply.status == WOULD_BLOCK {
          status := if |reply.data| == 0 then OK else IO;
        } else if reply.status != OK {
          status := reply.status;
        } else if |reply.data| > capacity {
          status := IO;
        } else if |reply.data| == 0 {
          closed := true;
          progress := true;
        } else {
          status := ring.Accept(offset, reply.data);
          if counted {
            readGen := NextGeneration(readGen);
          }
          progress := true;
        }
      }
    }

    /** `process_direction`. */
    method Run(policy: DirectionPolicy, source: Source, sink: Sink)
      returns (status: Status, progress: bool, ghost calls: seq<Call>)
      requires Valid()
      modifies this, ring, ring.storage
      ensures Valid()
      ensures Outcome(View(), status, progress, calls) == Process(old(View()), policy, source, sink)
    {
      status, progress, calls := WriteOut(policy, sink);
      if status == OK {
        ghost var more: seq<Call>;
        var alsoRead: bool;
        status, alsoRead, more := ReadIn(policy, source);
        progress := progress || alsoRead;
        calls := calls + more;
      }
    }

    method Clear()
      requires Valid()
      modifies this, ring
      ensures Valid()
      ensures View() == old(View()).(ring := old(View()).ring.Emptied())
    {
      ring.Reset();
    }
  }

  /** `goal` is what the batch ends with when `script` is left and `trace` has been produced. */
  ghost predicate Remaining(
      goal: BatchResult, step: Stepper, p: Pump, policy: Policy, startWrites: Generation,
      script: seq<Endpoints>, progress: bool, trace: seq<StepResult>)
  {
    var rest := BatchFrom(step, p, policy, startWrites, script);
    goal == BatchResult(rest.pump, rest.status, progress || rest.progress, trace + rest.trace)
  }

  /** A name for an instant of a batch; `Follows` is about the instants that are named. */
  ghost predicate Mark(e: Endpoints, p: Pump, policy: Policy) {
    true
  }

  ghost predicate Follows(step: Stepper) {
    forall e, p, policy {:trigger Mark(e, p, policy)} :: Mark(e, p, policy) ==> step(e, p, policy) == Step(p, policy, e)
  }

  lemma StepOnFollows()
    ensures Follows(StepOn)
  {
  }

  lemma Starting(step: Stepper, p: Pump, policy: Policy, startWrites: Generation, script: seq<Endpoints>)
    ensures Remaining(BatchFrom(step, p, policy, startWrites, script), step, p, policy, startWrites, script, false, [])
  {
    var rest := BatchFrom(step, p, policy, startWrites, script);
    assert [] + rest.trace == rest.trace;
  }

  lemma Advance(
      goal: BatchResult, step: Stepper, p: Pump, policy: Policy, startWrites: Generation,
      script: seq<Endpoints>, progress: bool, trace: seq<StepResult>, s: StepResult)
    requires Remaining(goal, step, p, policy, startWrites, script, progress, trace)
    requires script != [] && s == step(script[0], p, policy)
    ensures if s.status != OK || !s.progress || s.pump.Complete()
            then goal == BatchResult(s.pump, s.status, progress || s.progress, trace + [s])
            else
              Remaining(goal, step, s.pump, AfterStep(policy, s.pump, startWrites), startWrites, script[1..], true,
                        trace + [s])
  {
    if !(s.status != OK || !s.progress || s.pump.Complete()) {
      var rest := BatchFrom(step, s.pump, AfterStep(policy, s.pump, startWrites), startWrites, script[1..]);
      Regroup(trace, [s], rest.trace);
    }
  }

  lemma Finished(
      goal: BatchResult, step: Stepper, p: Pump, policy: Policy, startWrites: Generation, progress: bool,
      trace: seq<StepResult>)
    requires Remaining(goal, step, p, policy, startWrites, [], progress, trace)
    ensures goal == BatchResult(p, OK, progress, trace)
  {
    assert trace + [] == trace;
  }

  class BytePump {
    const usbToTls: PumpDirection
    const tlsToUsb: PumpDirection
    var cancelled: bool
    var failed: bool

    /** The two directions share nothing. */
    ghost predicate Separate() {
      && usbToTls != tlsToUsb && usbToTls.ring != tlsToUsb.ring
      && usbToTls.ring.storage != tlsToUsb.ring.storage
    }

    ghost function Parts(): set<object> {
      {this, usbToTls, usbToTls.ring, usbToTls.ring.storage, tlsToUsb, tlsToUsb.ring, tlsToUsb.ring.storage}
    }

    ghost predicate Valid()
      reads this, usbToTls, usbToTls.ring, tlsToUsb, tlsToUsb.ring
    {
      Separate() && usbToTls.Valid() && tlsToUsb.Valid() && usbToTls.counted && !tlsToUsb.counted
    }

    ghost function View(): (p: Pump)
      requires Valid()
      reads this, usbToTls, usbToTls.ring, usbToTls.ring.storage, tlsToUsb, tlsToUsb.ring, tlsToUsb.ring.storage
      ensures p.Ok()
    {
      Pump(usbToTls.View(), tlsToUsb.View(), cancelled, failed)
    }

    constructor (usbToTlsStorage: array<byte>, tlsToUsbStorage: array<byte>)
      requires usbToTlsStorage.Length > 0 && tlsToUsbStorage.Length > 0 && usbToTlsStorage != tlsToUsbStorage
      ensures Valid() && fresh(Parts() - {usbToTlsStorage, tlsToUsbStorage})
      ensures View().usbToTls == Direction(Ring(usbToTlsStorage.Length, 0, []), false, 0, 0, true)
      ensures View().tlsToUsb == Direction(Ring(tlsToUsbStorage.Length, 0, []), false, 0, 0, false)
      ensures !cancelled && !failed
    {
      usbToTls := new PumpDirection(usbToTlsStorage, true);
      tlsToUsb := new PumpDirection(tlsToUsbStorage, false);
      cancelled, failed := false, false;
    }

    method Reset()
      requires Valid()
      modifies Parts()
      ensures Valid() && View() == old(View()).Reset()
    {
      usbToTls.Clear();
      tlsToUsb.Clear();
      usbToTls.closed, tlsToUsb.closed := false, false;
      usbToTls.readGen, usbToTls.writeGen := 0, 0;
      cancelled, failed := false, false;
    }

    method Cancel()
      requires Valid()
      modifies Parts()
      ensures Valid() && View() == old(View()).Cancel()
    {
      usbToTls.Clear();
      tlsToUsb.Clear();
      cancelled := true;
    }

    method IsComplete() returns (complete: bool)
      requires Valid()
      ensures complete <==> View().Complete()
    {
      complete := !cancelled && !failed && usbToTls.closed && tlsToUsb.closed
                  && usbToTls.ring.length == 0 && tlsToUsb.ring.length == 0;
    }

    /** `pbns_byte_pump_step_with_policy`. */
    method StepWithPolicy(policy: Policy, env: Endpoints)
      returns (status: Status, progress: bool, ghost up: seq<Call>, ghost down: seq<Call>)
      requires Valid()
      modifies Parts()
      ensures Valid()
      ensures StepResult(View(), status, progress, up, down) == Step(old(View()), policy, env)
    {
      status, progress, up, down := STATE, false, [], [];
      if !cancelled && !failed {
        var complete := IsComplete();
        status := OK;
        if !complete {
          status, progress, up := usbToTls.Run(policy.Up(), env.usbRead, env.tlsWrite);
          ghost var upView := usbToTls.View();
          assert tlsToUsb.View() == old(tlsToUsb.View());
          if status == OK {
            var alsoDown: bool;
            status, alsoDown, down := tlsToUsb.Run(policy.Down(), env.tlsRead, env.usbWrite);
            assert usbToTls.View() == upView;
            progress := progress || alsoDown;
          }
          failed := status != OK;
        }
      }
    }

    /** One step of a batch, described through the batch's stepper. */
    method BatchStep(ghost step: Stepper, env: Endpoints, policy: Policy)
      returns (status: Status, progress: bool, ghost s: StepResult)
      requires Valid() && Follows(step)
      modifies Parts()
      ensures Valid() && s.pump == View() && s.status == status && s.progress == progress
      ensures s == step(env, old(View()), policy)
    {
      ghost var up: seq<Call>, down: seq<Call>;
      ghost var before := View();
      status, progress, up, down := StepWithPolicy(policy, env);
      s := StepResult(View(), status, progress, up, down);
      assert Mark(env, before, policy);
    }

    /** The loop of `pbns_byte_pump_batch_with_policy`. */
    method BatchLoop(ghost step: Stepper, policy: Policy, env: nat -> Endpoints)
      returns (status: Status, steps: nat, progress: bool, ghost trace: seq<StepResult>)
      requires Valid() && Follows(step)
      modifies Parts()
      ensures Valid() && steps == |trace|
      ensures BatchResult(View(), status, progress, trace)
              == BatchFrom(step, old(View()), policy, old(usbToTls.writeGen), Script(env))
    {
      ghost var pump, script := View(), Script(env);
      ghost var goal := BatchFrom(step, pump, policy, usbToTls.writeGen, script);
      Starting(step, pump, policy, usbToTls.writeGen, script);
      status, steps, progress, trace := OK, 0, false, [];
      var batchPolicy := policy;
      var forcedWriteGeneration := usbToTls.writeGen;
      var running := true;
      while running && steps < BATCH_MAX_STEPS
        invariant Valid() && pump == View() && 0 <= steps == |trace| <= BATCH_MAX_STEPS
        invariant running ==> status == OK && script == Script(env)[steps..]
        invariant running ==> Remaining(goal, step, pump, batchPolicy, forcedWriteGeneration, script, progress, trace)
        invariant !running ==> goal == BatchResult(pump, status, progress, trace)
        decreases BATCH_MAX_STEPS - steps
      {
        var stepProgress: bool;
        ghost var s: StepResult;
        status, stepProgress, s := BatchStep(step, env(steps), batchPolicy);
        Advance(goal, step, pump, batchPolicy, forcedWriteGeneration, script, progress, trace, s);
        pump, script := s.pump, script[1..];
        trace := trace + [s];
        steps := steps + 1;
        progress := progress || stepProgress;
        var complete := IsComplete();
        if batchPolicy.force && usbToTls.writeGen != forcedWriteGeneration {
          batchPolicy := batchPolicy.(force := false);
        }
        running := status == OK && stepProgress && !complete;
      }
      if running {
        Finished(goal, step, pump, batchPolicy, forcedWriteGeneration, progress, trace);
      }
    }

    /** `pbns_byte_pump_batch_with_policy`. */
    method BatchWithPolicy(policy: Policy, env: nat -> Endpoints)
      returns (status: Status, steps: nat, progress: bool, ghost trace: seq<StepResult>)
      requires Valid()
      modifies Parts()
      ensures Valid() && steps == |trace|
      ensures BatchResult(View(), status, progress, trace) == Batch(old(View()), policy, env)
    {
      status, steps, progress, trace := STATE, 0, false, [];
      if !cancelled && !failed {
        StepOnFollows();
        status, steps, progress, trace := BatchLoop(StepOn, policy, env);
      }
    }
  }
}
