/** The firmware's tunnel task (pico/src/main.c) and its tail deadline (pico/src/tail_deadline.c). */
module TunnelTask {
  import opened Bytes
  import opened Pumps = BytePump
  import NetworkController

  const THRESHOLD: nat := 2048       // TUNNEL_AGGREGATION_THRESHOLD
  const DEADLINE_US: nat := 5000     // TUNNEL_AGGREGATION_DEADLINE_US
  const CLOCK: nat := 0x1_0000_0000_0000_0000

  datatype Tail = Tail(lastInput: u64, observed: Generation, pending: bool) {
    /** The unsigned subtraction wraps, as in C. */
    predicate ShouldForce(now: u64, delay: nat) {
      pending && (now - lastInput) % CLOCK >= delay
    }

    function Observe(generation: Generation, now: u64): Tail {
      if observed != generation then Tail(now, generation, pending) else this
    }
  }

  function ResetTail(generation: Generation): Tail {
    Tail(0, generation, false)
  }

  datatype Tunnel = Tunnel(pump: Pump, tail: Tail, sessionConnected: bool, wasReady: bool)

  /** What one call of `tunnel_task` finds: connection states, the two clock readings, the endpoints. */
  datatype Input = Input(usbConnected: bool, ready: bool, before: u64, after: u64, env: nat -> Endpoints)

  function PolicyFor(t: Tunnel, now: u64): Policy {
    Policy(THRESHOLD, THRESHOLD, t.tail.ShouldForce(now, DEADLINE_US))
  }

  function ResetTunnel(t: Tunnel): Tunnel {
    t.(pump := t.pump.Reset(), tail := ResetTail(t.pump.Reset().usbToTls.readGen))
  }

  /** The part of `tunnel_task` before the pump runs: resets on disconnection and on a change of readiness. */
  function Prepare(t: Tunnel, input: Input): Tunnel {
    SeeReady(SeeUsb(t, input.usbConnected), input.ready)
  }

  function SeeUsb(t: Tunnel, connected: bool): Tunnel {
    (if t.sessionConnected && !connected then ResetTunnel(t) else t).(sessionConnected := connected)
  }

  function SeeReady(t: Tunnel, ready: bool): Tunnel {
    if ready != t.wasReady then ResetTunnel(t).(wasReady := ready) else t
  }

  /** A short tail: data below the threshold waiting in an open direction. */
  predicate ShortTail(p: Pump) {
    0 < |p.usbToTls.ring.items| < THRESHOLD && !p.usbToTls.closed
  }

  /** The part of `tunnel_task` after the batch. */
  function Conclude(t: Tunnel, status: Status, after: u64): Tunnel {
    if status != OK || t.pump.Complete() then
      t.(pump := t.pump.Cancel(), tail := ResetTail(t.pump.usbToTls.readGen))
    else
      t.(tail := t.tail.Observe(t.pump.usbToTls.readGen, after).(pending := ShortTail(t.pump)))
  }

  /** `tunnel_task` proper: idle without a link, one batch with it. */
  function Transfer(t: Tunnel, input: Input): Tunnel {
    if !input.ready || !input.usbConnected then
      t.(tail := ResetTail(t.pump.usbToTls.readGen))
    else
      var batch := Batch(t.pump, PolicyFor(t, input.before), input.env);
      Conclude(t.(pump := batch.pump), batch.status, input.after)
  }

  function Task(t: Tunnel, input: Input): Tunnel {
    Transfer(Prepare(t, input), input)
  }

  /** The result of `tunnel_task`: whether the main loop may pause. */
  predicate Idle(t: Tunnel, input: Input, networkProgress: bool) {
    && !networkProgress
    && (input.ready && input.usbConnected ==>
          var p := Prepare(t, input);
          var u := Task(t, input);
          && !Batch(p.pump, PolicyFor(p, input.before), input.env).progress
          && u.pump.usbToTls.ring.items == [] && u.pump.tlsToUsb.ring.items == [] && !u.tail.pending)
  }

  /** What one call of `tunnel_task` finds before it steps the network controller. */
  datatype Turn = Turn(usbConnected: bool, replies: NetworkController.Replies, nowMs: u64, before: u64, after: u64,
                       env: nat -> Endpoints)

  function InputOf(turn: Turn, network: NetworkController.Network): Input {
    Input(turn.usbConnected, network.phase == NetworkController.Ready, turn.before, turn.after, turn.env)
  }

  /** What holds between any two calls of `tunnel_task`. */
  predicate Steady(t: Tunnel) {
    && t.pump.Ok()
    && (t.tail.pending <==> ShortTail(t.pump))
    && t.tail.observed == t.pump.usbToTls.readGen
    && (!t.wasReady || !t.sessionConnected || t.pump.cancelled || t.pump.failed ==> t.pump.usbToTls.ring.items == [])
    && (t.pump.failed ==> t.pump.cancelled)
  }

  lemma ResetIsSteady(t: Tunnel)
    requires t.pump.Ok()
    ensures Steady(ResetTunnel(t)) && ResetTunnel(t).pump.usbToTls.ring.items == []
  {
  }

  lemma PrepareIsSteady(t: Tunnel, input: Input)
    requires Steady(t)
    ensures var p := Prepare(t, input);
            Steady(p) && p.wasReady == input.ready && p.sessionConnected == input.usbConnected
  {
    ResetIsSteady(t);
  }

  lemma {:induction false} BatchFlags(
      step: Stepper, p: Pump, policy: Policy, startWrites: Generation, script: seq<Endpoints>)
    requires p.Ok() && !p.cancelled && !p.failed
    requires forall e, q: Pump, pol {:trigger step(e, q, pol)} :: q.Ok() ==> Lawful(q, step(e, q, pol))
    ensures var r := BatchFrom(step, p, policy, startWrites, script);
            r.pump.Ok() && !r.pump.cancelled && (r.pump.failed <==> r.status != OK)
    decreases |script|
  {
    if script != [] {
      var s := step(script[0], p, policy);
      assert Lawful(p, s);
      if s.status == OK && s.progress && !s.pump.Complete() {
        BatchFlags(step, s.pump, AfterStep(policy, s.pump, startWrites), startWrites, script[1..]);
      }
    }
  }

  lemma BatchFails(p: Pump, policy: Policy, env: nat -> Endpoints)
    requires p.Ok()
    ensures var r := Batch(p, policy, env);
            r.pump.Ok() && (r.pump.failed ==> r.status != OK) && (r.status == OK ==> !r.pump.cancelled)
  {
    if !p.cancelled && !p.failed {
      forall e, q: Pump, pol | q.Ok() ensures Lawful(q, StepOn(e, q, pol)) {
        StepLawful(q, pol, e);
      }
      BatchFlags(StepOn, p, policy, p.usbToTls.writeGen, Script(env));
    }
  }

  /** Every task keeps the tail in step with the ring, whatever its inputs and endpoint replies. */
  lemma TaskKeepsSteady(t: Tunnel, input: Input)
    requires Steady(t)
    ensures Steady(Task(t, input))
  {
    PrepareIsSteady(t, input);
    var ready := Prepare(t, input);
    if input.ready && input.usbConnected {
      BatchFails(ready.pump, PolicyFor(ready, input.before), input.env);
    }
  }

  /** The state after a sequence of tasks. */
  function After(t: Tunnel, inputs: seq<Input>): Tunnel
    decreases |inputs|
  {
    if inputs == [] then t else Task(After(t, inputs[..|inputs| - 1]), inputs[|inputs| - 1])
  }

  lemma {:induction false} RunKeepsSteady(t: Tunnel, inputs: seq<Input>)
    requires Steady(t)
    ensures Steady(After(t, inputs))
    decreases |inputs|
  {
    if inputs != [] {
      RunKeepsSteady(t, inputs[..|inputs| - 1]);
      TaskKeepsSteady(After(t, inputs[..|inputs| - 1]), inputs[|inputs| - 1]);
    }
  }

  lemma ForcedBatchOffers(p: Pump, policy: Policy, env: nat -> Endpoints)
    requires p.Ok() && !p.cancelled && !p.failed && ShortTail(p) && policy.force
    ensures var trace := Batch(p, policy, env).trace;
            trace != [] && trace[0].up != []
            && trace[0].up[0] == Offer(Offered(p.usbToTls), env(0).tlsWrite(Offered(p.usbToTls)))
  {
    var s := Step(p, policy, env(0));
    assert Writes(p.usbToTls, policy.Up());
    var w := WritePending(p.usbToTls, policy.Up(), env(0).tlsWrite);
    assert w.calls[0] == Offer(Offered(p.usbToTls), env(0).tlsWrite(Offered(p.usbToTls)));
    assert s.up[0] == w.calls[0];
    assert StepOn(Script(env)[0], p, policy) == s;
    assert Batch(p, policy, env).trace[0] == s;
  }

  /** The first call of the batch a task runs offers the whole contiguous tail to TCP. */
  predicate OffersTail(t: Tunnel, input: Input)
    requires t.pump.Ok()
  {
    var trace := Batch(t.pump, PolicyFor(t, input.before), input.env).trace;
    var waiting := Offered(t.pump.usbToTls);
    trace != [] && trace[0].up != [] && trace[0].up[0] == Offer(waiting, input.env(0).tlsWrite(waiting))
  }

  lemma SteadyTailIsOffered(t: Tunnel, input: Input)
    requires Steady(t) && input.ready && input.usbConnected
    requires ShortTail(t.pump) && (input.before - t.tail.lastInput) % CLOCK >= DEADLINE_US
    ensures Prepare(t, input) == t && OffersTail(t, input)
  {
    ForcedBatchOffers(t.pump, PolicyFor(t, input.before), input.env);
  }

  // ----- when input last came -----

  /** The batch this call of `tunnel_task` runs takes octets from USB. */
  predicate TakesInput(t: Tunnel, input: Input) {
    var p := Prepare(t, input);
    input.ready && input.usbConnected
    && AllTaken(UpCalls(Batch(p.pump, PolicyFor(p, input.before), input.env).trace)) != []
  }

  lemma PrepareKeepsWaiting(t: Tunnel, input: Input)
    ensures var p := Prepare(t, input);
            p.pump.usbToTls.ring.items != [] ==> p.pump == t.pump && p.tail == t.tail
  {
  }

  lemma NothingFromNothing<T>(given: seq<T>, after: seq<T>, before: seq<T>)
    requires given + after == before + [] && before == []
    ensures after == []
  {
    assert |given + after| == |before + []|;
  }

  /** What waits after a call was there before it, unless the call took input. */
  lemma BatchWaiting(p: Pump, policy: Policy, env: nat -> Endpoints)
    requires p.Ok()
    ensures var r := Batch(p, policy, env);
            AllTaken(UpCalls(r.trace)) == [] && r.pump.usbToTls.ring.items != [] ==> p.usbToTls.ring.items != []
  {
    BatchConserves(p, policy, env);
    var r := Batch(p, policy, env);
    if AllTaken(UpCalls(r.trace)) == [] && p.usbToTls.ring.items == [] {
      NothingFromNothing(AllGiven(UpCalls(r.trace)), r.pump.usbToTls.ring.items, p.usbToTls.ring.items);
    }
  }

  /** While octets wait, the tail's time is that of the call that last took input. */
  lemma TransferTracks(p: Tunnel, input: Input)
    requires Steady(p) && p.wasReady == input.ready && p.sessionConnected == input.usbConnected
    ensures var u := Transfer(p, input);
            var took := input.ready && input.usbConnected
                        && AllTaken(UpCalls(Batch(p.pump, PolicyFor(p, input.before), input.env).trace)) != [];
            u.pump.usbToTls.ring.items != [] ==>
              if took then u.tail.lastInput == input.after
              else p.pump.usbToTls.ring.items != [] && u.tail.lastInput == p.tail.lastInput
  {
    if input.ready && input.usbConnected {
      BatchReads(p.pump, PolicyFor(p, input.before), input.env);
      BatchWaiting(p.pump, PolicyFor(p, input.before), input.env);
    }
  }

  lemma TaskTracks(t: Tunnel, input: Input)
    requires Steady(t)
    ensures var u := Task(t, input);
            u.pump.usbToTls.ring.items != [] ==>
              if TakesInput(t, input) then u.tail.lastInput == input.after
              else t.pump.usbToTls.ring.items != [] && u.tail.lastInput == t.tail.lastInput
  {
    PrepareIsSteady(t, input);
    PrepareKeepsWaiting(t, input);
    TransferTracks(Prepare(t, input), input);
  }

  /** A tunnel nothing has come into. */
  predicate New(t: Tunnel) {
    Steady(t) && t.pump.usbToTls.ring.items == []
  }

  /** Of the first `n` events, `k` is the last with the property; -1 if none has it. */
  predicate LastOf(has: int -> bool, n: nat, k: int) {
    -1 <= k < n && (k >= 0 ==> has(k)) && forall j {:trigger has(j)} :: k < j < n ==> !has(j)
  }

  lemma LastOfNext(had: int -> bool, has: int -> bool, n: nat, k: int)
    requires LastOf(had, n, k) && forall j {:trigger has(j)} :: 0 <= j < n ==> had(j) == has(j)
    ensures LastOf(has, n + 1, if has(n) then n else k)
  {
    forall j | k < j < n ensures !has(j) {
      assert had(j) == has(j);
    }
  }

  /** Call `j` of a run took input. */
  predicate TookAt(t0: Tunnel, inputs: seq<Input>, j: int) {
    0 <= j < |inputs| && TakesInput(After(t0, inputs[..j]), inputs[j])
  }

  /** Call `k` took input and no later one did; `k` is -1 if none did. */
  predicate LastTook(t0: Tunnel, inputs: seq<Input>, k: int) {
    LastOf(j => TookAt(t0, inputs, j), |inputs|, k)
  }

  lemma TookAtPrefix(t0: Tunnel, inputs: seq<Input>, n: nat, j: int)
    requires j < n <= |inputs|
    ensures TookAt(t0, inputs[..n], j) == TookAt(t0, inputs, j)
  {
    if 0 <= j {
      assert inputs[..n][..j] == inputs[..j];
    }
  }

  lemma LastTookNext(t0: Tunnel, inputs: seq<Input>, k: int)
    requires inputs != [] && LastTook(t0, inputs[..|inputs| - 1], k)
    ensures var n := |inputs| - 1; LastTook(t0, inputs, if TookAt(t0, inputs, n) then n else k)
  {
    var n := |inputs| - 1;
    var earlier := inputs[..n];
    var had, has := j => TookAt(t0, earlier, j), j => TookAt(t0, inputs, j);
    forall j | 0 <= j < n ensures had(j) == has(j) {
      TookAtPrefix(t0, inputs, n, j);
    }
    LastOfNext(had, has, n, k);
  }

  /** In every run from a new tunnel: while octets wait, the tail's time is that of the last call that took input. */
  lemma {:induction false} LastInputIsTracked(t0: Tunnel, inputs: seq<Input>) returns (k: int)
    requires New(t0)
    ensures LastTook(t0, inputs, k)
    ensures After(t0, inputs).pump.usbToTls.ring.items != [] ==>
              k >= 0 && After(t0, inputs).tail.lastInput == inputs[k].after
    decreases |inputs|
  {
    if inputs == [] {
      k := -1;
    } else {
      var n := |inputs| - 1;
      var earlier := inputs[..n];
      var before := LastInputIsTracked(t0, earlier);
      RunKeepsSteady(t0, earlier);
      TaskTracks(After(t0, earlier), inputs[n]);
      LastTookNext(t0, inputs, before);
      k := if TookAt(t0, inputs, n) then n else before;
    }
  }

  /**
   * No short tail is stranded: after any run from a new tunnel in which less than the threshold is
   * left waiting, some call `k` was the last to take input, and the next call in which the link
   * is up runs a forced batch exactly when the delay since the end of call `k` has passed, and
   * then offers the waiting octets to TCP in its first step.
   */
  lemma TailIsOffered(t0: Tunnel, inputs: seq<Input>, t: Tunnel, input: Input) returns (k: nat)
    requires New(t0) && t == After(t0, inputs)
    requires input.ready && input.usbConnected && ShortTail(t.pump)
    ensures k < |inputs| && LastTook(t0, inputs, k)
    ensures t.pump.Ok() && Prepare(t, input) == t
    ensures var passed := (input.before - inputs[k].after) % CLOCK >= DEADLINE_US;
            (PolicyFor(t, input.before).force <==> passed) && (passed ==> OffersTail(t, input))
  {
    RunKeepsSteady(t0, inputs);
    var last := LastInputIsTracked(t0, inputs);
    k := last;
    SteadyTail(t, input, inputs[k].after);
  }

  lemma SteadyTail(t: Tunnel, input: Input, since: u64)
    requires Steady(t) && input.ready && input.usbConnected && ShortTail(t.pump) && t.tail.lastInput == since
    ensures Prepare(t, input) == t
    ensures var passed := (input.before - since) % CLOCK >= DEADLINE_US;
            (PolicyFor(t, input.before).force <==> passed) && (passed ==> OffersTail(t, input))
  {
    if (input.before - since) % CLOCK >= DEADLINE_US {
      SteadyTailIsOffered(t, input);
    }
  }

  class FirmwareTunnel {
    const pump: Pumps.BytePump
    const network: NetworkController.Controller
    var tail: Tail
    var sessionConnected: bool
    var wasReady: bool

    ghost predicate Valid()
      reads this, pump, pump.usbToTls, pump.usbToTls.ring, pump.tlsToUsb, pump.tlsToUsb.ring
    {
      pump.Valid()
    }

    ghost function View(): (t: Tunnel)
      requires Valid()
      reads this, pump, pump.usbToTls, pump.usbToTls.ring, pump.usbToTls.ring.storage,
            pump.tlsToUsb, pump.tlsToUsb.ring, pump.tlsToUsb.ring.storage
    {
      Tunnel(pump.View(), tail, sessionConnected, wasReady)
    }

    constructor (usbToTcp: array<byte>, tcpToUsb: array<byte>)
      requires usbToTcp.Length > 0 && tcpToUsb.Length > 0 && usbToTcp != tcpToUsb
      ensures Valid() && New(View())
      ensures fresh(network) && network.View() == NetworkController.INITIAL
    {
      pump := new Pumps.BytePump(usbToTcp, tcpToUsb);
      network := new NetworkController.Controller();
      tail := ResetTail(0);
      sessionConnected, wasReady := false, false;
    }

    method ResetPumpAndTail()
      requires Valid()
      modifies this, pump.Parts()
      ensures Valid() && View() == ResetTunnel(old(View()))
    {
      pump.Reset();
      tail := ResetTail(pump.usbToTls.readGen);
    }

    method CancelPumpAndTail()
      requires Valid()
      modifies this, pump.Parts()
      ensures Valid()
      ensures View() == old(View()).(pump := old(pump.View()).Cancel(),
                                     tail := ResetTail(old(pump.View()).usbToTls.readGen))
    {
      pump.Cancel();
      tail := ResetTail(pump.usbToTls.readGen);
    }

    method Settle(status: Status, after: u64)
      requires Valid()
      modifies this, pump.Parts()
      ensures Valid() && View() == Conclude(old(View()), status, after)
    {
      var complete := pump.IsComplete();
      if status != OK || complete {
        CancelPumpAndTail();
      } else {
        tail := tail.Observe(pump.usbToTls.readGen, after);
        var waiting := pump.usbToTls.ring.length;
        tail := tail.(pending := waiting != 0 && waiting < THRESHOLD && !pump.usbToTls.closed);
      }
    }

    method ObserveUsb(connected: bool)
      requires Valid()
      modifies this, pump.Parts()
      ensures Valid() && View() == SeeUsb(old(View()), connected)
    {
      if sessionConnected && !connected {
        ResetPumpAndTail();
      }
      sessionConnected := connected;
    }

    method ObserveReady(ready: bool)
      requires Valid()
      modifies this, pump.Parts()
      ensures Valid() && View() == SeeReady(old(View()), ready)
    {
      if ready != wasReady {
        ResetPumpAndTail();
        wasReady := ready;
      }
    }

    method Continue(input: Input) returns (progress: bool)
      requires Valid()
      modifies this, pump.Parts()
      ensures Valid() && View() == Transfer(old(View()), input)
      ensures progress == (input.ready && input.usbConnected
                           && Batch(old(pump.View()), PolicyFor(old(View()), input.before), input.env).progress)
    {
      progress := false;
      if !input.ready || !input.usbConnected {
        tail := ResetTail(pump.usbToTls.readGen);
      } else {
        ghost var before := View();
        var policy := Policy(THRESHOLD, THRESHOLD, tail.ShouldForce(input.before, DEADLINE_US));
        ghost var trace: seq<StepResult>;
        var status, steps;
        status, steps, progress, trace := pump.BatchWithPolicy(policy, input.env);
        ghost var batch := BatchResult(pump.View(), status, progress, trace);
        assert View() == before.(pump := batch.pump);
        Settle(status, input.after);
      }
    }

    /** What waits in the two rings, and a pending tail. */
    method Waiting() returns (waiting: bool)
      requires Valid()
      ensures waiting == (|| View().pump.usbToTls.ring.items != [] || View().pump.tlsToUsb.ring.items != []
                          || View().tail.pending)
    {
      waiting := pump.usbToTls.ring.length != 0 || pump.tlsToUsb.ring.length != 0 || tail.pending;
    }

    /** `tunnel_task`, with its step of the network controller. */
    method Run(turn: Turn) returns (idle: bool)
      requires Valid()
      modifies this, network, pump.Parts()
      ensures Valid()
      ensures var s := NetworkController.Step(old(network.View()), old(network.history), turn.replies, turn.nowMs,
                                              turn.usbConnected);
              && network.View() == s.network && network.history == s.history
              && View() == Task(old(View()), InputOf(turn, s.network))
              && idle == Idle(old(View()), InputOf(turn, s.network), s.progress)
    {
      ghost var was := View();
      ObserveUsb(turn.usbConnected);
      var status, networkProgress := network.Advance(turn.replies, turn.nowMs, turn.usbConnected);
      var ready := network.phase == NetworkController.Ready;
      var input := Input(turn.usbConnected, ready, turn.before, turn.after, turn.env);
      ObserveReady(input.ready);
      var pumpProgress := Continue(input);
      var waiting := Waiting();
      idle := !networkProgress && (input.ready && input.usbConnected ==> !pumpProgress && !waiting);
    }
  }
}
