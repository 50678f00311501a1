/**
 * The lwIP side of the tunnel (pico/src/pico_network.c and pico/src/tcp_write_outcome.c):
 * the receive callback, the two pump endpoints, and every interleaving of them with the pump.
 */
module TcpEndpoint {
  import opened Bytes
  import opened Rings = ByteRing
  import opened Pumps = BytePump

  const RX_CAPACITY: nat := 18432   // PBNS_PICO_TCP_RX_CAPACITY
  const TCP_WINDOW: nat := 16384    // TCP_WND

  /** `pbns_tcp_write_outcome`. */
  function TcpWriteOutcome(write: TcpIo, output: TcpIo, queued: nat): WriteReply {
    if queued == 0 then WriteReply(ARGUMENT, 0)
    else match write
      case Retry => WriteReply(if output == NotRun then WOULD_BLOCK else ARGUMENT, 0)
      case Failed => WriteReply(if output == NotRun then TRANSPORT else ARGUMENT, 0)
      case NotRun => WriteReply(ARGUMENT, 0)
      case Done =>
        match output
        case Done => WriteReply(OK, queued)
        case NotRun => WriteReply(ARGUMENT, 0)
        case _ => WriteReply(TRANSPORT, 0)
  }

  /** The part of `pbns_pico_network` the byte path uses; `pcb` says `connection` is not null. */
  datatype Net = Net(rx: Ring, pcb: bool, connected: bool, remoteClosed: bool, failure: Status) {
    predicate Ok() {
      rx.Ok() && rx.capacity == RX_CAPACITY
    }
  }

  datatype Received = Accepted | OutOfMemory | Aborted

  /** `tcp_received` for a packet with data; `copied` says every partial copy succeeded. */
  function Receive(net: Net, packet: seq<byte>, copied: bool): (Net, Received) {
    if |packet| > net.rx.capacity - |net.rx.items| then (net, OutOfMemory)
    else if packet == [] || copied then (net.(rx := net.rx.(items := net.rx.items + packet)), Accepted)
    else (net.(failure := STATE, pcb := false), Aborted)
  }

  datatype ReadResult = ReadResult(net: Net, reply: ReadReply, credit: nat)

  /** `tcp_read`: `credit` is what `tcp_recved` returns to the peer's window. */
  function TcpRead(net: Net, capacity: nat): ReadResult
    requires net.Ok()
  {
    if capacity == 0 then ReadResult(net, ReadReply(ARGUMENT, []), 0)
    else if net.rx.items != [] then
      var amount := Min(net.rx.Readable(), capacity);
      var rest := net.(rx := net.rx.Pop(amount));
      if !net.pcb || amount > U16_MAX then ReadResult(rest, ReadReply(TRANSPORT, []), 0)
      else ReadResult(rest, ReadReply(OK, net.rx.items[..amount]), amount)
    else if net.remoteClosed then ReadResult(net, ReadReply(OK, []), 0)
    else ReadResult(net, ReadReply(WOULD_BLOCK, []), 0)
  }

  datatype WriteResult = WriteResult(net: Net, reply: WriteReply, queued: nat)

  /** `tcp_write_endpoint`: `queued` is what a successful `tcp_write` handed to TCP, whatever is reported. */
  function TcpWrite(net: Net, source: seq<byte>, room: nat, write: TcpIo, output: TcpIo): WriteResult {
    var amount := Min(Min(|source|, room), U16_MAX);
    if source == [] then WriteResult(net, WriteReply(ARGUMENT, 0), 0)
    else if !net.connected || !net.pcb || amount == 0 then WriteResult(net, WriteReply(WOULD_BLOCK, 0), 0)
    else
      var ran := if write == Done then output else NotRun;
      var bad := write == Failed || (write == Done && ran != Done);
      WriteResult(if bad then net.(failure := TRANSPORT) else net, TcpWriteOutcome(write, ran, amount),
                  if write == Done then amount else 0)
  }

  /** TCP never holds more than is reported without the report being an error that stops the pump. */
  lemma WriteReportsWhatItQueued(net: Net, source: seq<byte>, room: nat, write: TcpIo, output: TcpIo)
    ensures var r := TcpWrite(net, source, room, write, output);
            && r.queued <= |source|
            && (r.reply.status == OK ==> r.reply.written == r.queued > 0)
            && (r.reply.status != OK ==> r.reply.written == 0)
            && (r.queued > 0 && r.reply.status != OK ==> r.reply.status == TRANSPORT || r.reply.status == ARGUMENT)
            && (r.reply.status == WOULD_BLOCK ==> r.queued == 0)
  {
  }

  // ----- every interleaving of callbacks and pump calls -----

  /**
   * The byte path of one connection together with its history: octets read from CDC0,
   * octets TCP took, octets accepted from TCP, octets delivered to CDC0, credit returned.
   */
  datatype Flow = Flow(up: Direction, down: Direction, failed: bool, net: Net,
                       usbIn: seq<byte>, tcpOut: seq<byte>, accepted: seq<byte>, usbOut: seq<byte>, credited: nat)

  /** What can happen between two moments at which the lwIP lock is free. */
  datatype Event =
    | PacketArrives(packet: seq<byte>, copied: bool)
    | ReceiveError
    | PeerCloses
    | ConnectionDrops
    | UpWrite(upPolicy: DirectionPolicy, room: nat, write: TcpIo, output: TcpIo)
    | UpRead(readPolicy: DirectionPolicy, usb: Source)
    | DownWrite(writePolicy: DirectionPolicy, usbSink: Sink)
    | DownRead(downPolicy: DirectionPolicy)

  /** TCP delivers no data after the peer's end of stream, and a failed pump makes no calls. */
  predicate Enabled(f: Flow, e: Event) {
    match e
    case PacketArrives(_, _) => !f.net.remoteClosed
    case ReceiveError => true
    case PeerCloses => true
    case ConnectionDrops => true
    case _ => !f.failed
  }

  predicate WellFormed(f: Flow) {
    f.up.Ok() && f.down.Ok() && f.net.Ok()
  }

  function Next(f: Flow, e: Event): Flow
    requires WellFormed(f)
  {
    match e
    case PacketArrives(packet, copied) =>
      var (net, result) := Receive(f.net, packet, copied);
      f.(net := net, accepted := if result == Accepted then f.accepted + packet else f.accepted)
    case ReceiveError => f.(net := f.net.(failure := TRANSPORT, pcb := false))
    case PeerCloses => f.(net := f.net.(remoteClosed := true))
    case ConnectionDrops => f.(net := f.net.(failure := TRANSPORT, pcb := false, connected := false))
    case UpWrite(policy, room, write, output) =>
      if !Writes(f.up, policy) then f
      else
        var r := TcpWrite(f.net, Offered(f.up), room, write, output);
        var o := SettleWrite(f.up, r.reply);
        f.(up := o.direction, net := r.net, failed := o.status != OK,
           tcpOut := f.tcpOut + Front(f.up.ring.items, r.queued))
    case UpRead(policy, usb) =>
      var o := ReadAvailable(f.up, policy, usb);
      f.(up := o.direction, failed := o.status != OK, usbIn := f.usbIn + AllTaken(o.calls))
    case DownWrite(policy, sink) =>
      var o := WritePending(f.down, policy, sink);
      f.(down := o.direction, failed := o.status != OK, usbOut := f.usbOut + AllGiven(o.calls))
    case DownRead(policy) =>
      if !Reads(f.down, policy) then f
      else
        var r := TcpRead(f.net, f.down.ring.Writable());
        var o := SettleRead(f.down, r.reply);
        f.(down := o.direction, net := r.net, failed := o.status != OK, credited := f.credited + r.credit)
  }

  function Front<T>(s: seq<T>, n: nat): seq<T> {
    if n <= |s| then s[..n] else s
  }

  /** The law of the byte path. */
  predicate Law(f: Flow) {
    && WellFormed(f)
    && (!f.failed ==> f.tcpOut + f.up.ring.items == f.usbIn)
    && f.tcpOut <= f.usbIn
    && (!f.failed ==> f.usbOut + f.down.ring.items + f.net.rx.items == f.accepted)
    && f.usbOut + f.down.ring.items <= f.accepted
    && (f.down.closed ==> f.net.remoteClosed && f.net.rx.items == [])
    && (!f.failed ==> |f.accepted| - f.credited == |f.net.rx.items|)
    && |f.accepted| - f.credited >= |f.net.rx.items|
  }

  lemma UpWriteKeepsLaw(f: Flow, e: Event)
    requires Law(f) && e.UpWrite? && !f.failed
    ensures Law(Next(f, e))
  {
    if Writes(f.up, e.upPolicy) {
      var g := Next(f, e);
      var items := f.up.ring.items;
      var r := TcpWrite(f.net, Offered(f.up), e.room, e.write, e.output);
      WriteReportsWhatItQueued(f.net, Offered(f.up), e.room, e.write, e.output);
      SettleWriteCases(f.up, r.reply);
      CutFront(f.tcpOut, items, r.queued);
    }
  }

  lemma CutFront(out: seq<byte>, items: seq<byte>, n: nat)
    requires n <= |items|
    ensures out + Front(items, n) + items[n..] == out + items
    ensures n == 0 ==> out + Front(items, n) == out
  {
  }

  lemma UpReadKeepsLaw(f: Flow, e: Event)
    requires Law(f) && e.UpRead? && !f.failed
    ensures Law(Next(f, e))
  {
    if Reads(f.up, e.readPolicy) {
      SettleReadCases(f.up, e.usb(f.up.ring.Writable()));
      var o := ReadAvailable(f.up, e.readPolicy, e.usb);
      Regroup(f.tcpOut, f.up.ring.items, AllTaken(o.calls));
    } else {
      assert f.usbIn + [] == f.usbIn;
    }
  }

  lemma DownWriteKeepsLaw(f: Flow, e: Event)
    requires Law(f) && e.DownWrite? && !f.failed
    ensures Law(Next(f, e))
  {
    if Writes(f.down, e.writePolicy) {
      var reply := e.usbSink(Offered(f.down));
      SettleWriteCases(f.down, reply);
      var n := if reply.status == OK && 0 < reply.written <= f.down.ring.Readable() then reply.written else 0;
      CutFront(f.usbOut, f.down.ring.items, n);
      assert f.down.ring.items[0..] == f.down.ring.items;
    } else {
      assert f.usbOut + [] == f.usbOut;
    }
  }

  lemma TcpReadCases(net: Net, capacity: nat)
    requires net.Ok() && capacity > 0
    ensures var r := TcpRead(net, capacity);
            && r.net.Ok()
            && (r.reply.status == OK ==> r.reply.data + r.net.rx.items == net.rx.items && r.credit == |r.reply.data|)
            && (r.reply.status == OK && r.reply.data == [] ==> net.remoteClosed && net.rx.items == [] && r.net == net)
            && (r.reply.status == WOULD_BLOCK ==> r.net == net && r.reply.data == [] && r.credit == 0)
            && (r.reply.status == OK || r.reply.status == WOULD_BLOCK || r.reply.status == TRANSPORT)
            && (r.reply.status == TRANSPORT ==>
                  r.reply.data == [] && r.credit == 0 && |r.net.rx.items| <= |net.rx.items|)
            && |r.reply.data| <= capacity
            && r.net.remoteClosed == net.remoteClosed
            && (net.rx.items == [] ==> r.net.rx.items == [])
  {
    if net.rx.items != [] {
      var amount := Min(net.rx.Readable(), capacity);
      assert net.rx.items[..amount] + net.rx.items[amount..] == net.rx.items;
    }
  }

  lemma DownReadKeepsLaw(f: Flow, e: Event)
    requires Law(f) && e.DownRead? && !f.failed
    ensures Law(Next(f, e))
  {
    if Reads(f.down, e.downPolicy) {
      var r := TcpRead(f.net, f.down.ring.Writable());
      TcpReadCases(f.net, f.down.ring.Writable());
      SettleReadCases(f.down, r.reply);
      Regroup(f.usbOut, f.down.ring.items, r.reply.data);
      Regroup(f.usbOut + f.down.ring.items, r.reply.data, r.net.rx.items);
    }
  }

  lemma CallbackKeepsLaw(f: Flow, e: Event)
    requires Law(f) && Enabled(f, e) && (e.PacketArrives? || e.ReceiveError? || e.PeerCloses? || e.ConnectionDrops?)
    ensures Law(Next(f, e))
  {
    if e.PacketArrives? {
      Regroup(f.usbOut + f.down.ring.items, f.net.rx.items, e.packet);
    }
  }

  lemma NextKeepsLaw(f: Flow, e: Event)
    requires Law(f) && Enabled(f, e)
    ensures Law(Next(f, e))
  {
    match e
    case UpWrite(_, _, _, _) => UpWriteKeepsLaw(f, e);
    case UpRead(_, _) => UpReadKeepsLaw(f, e);
    case DownWrite(_, _) => DownWriteKeepsLaw(f, e);
    case DownRead(_) => DownReadKeepsLaw(f, e);
    case _ => CallbackKeepsLaw(f, e);
  }

  /** `g` is reached from `f` by `events`, each enabled when it happens. */
  ghost predicate Reaches(f: Flow, events: seq<Event>, g: Flow)
    decreases |events|
  {
    && WellFormed(f)
    && if events == [] then f == g else Enabled(f, events[0]) && Reaches(Next(f, events[0]), events[1..], g)
  }

  lemma {:induction false} RunKeepsLaw(f: Flow, events: seq<Event>, g: Flow)
    requires Law(f) && Reaches(f, events, g)
    ensures Law(g)
    decreases |events|
  {
    if events != [] {
      NextKeepsLaw(f, events[0]);
      RunKeepsLaw(Next(f, events[0]), events[1..], g);
    }
  }

  /** A connection just opened: reset pump, empty receive ring, empty history. */
  predicate Fresh(f: Flow) {
    && WellFormed(f) && !f.failed && !f.net.remoteClosed
    && f.up.ring.items == [] && !f.up.closed && f.down.ring.items == [] && !f.down.closed && f.net.rx.items == []
    && f.usbIn == [] && f.tcpOut == [] && f.accepted == [] && f.usbOut == [] && f.credited == 0
  }

  /**
   * In every run of a connection, for all endpoint replies and all interleavings:
   * neither direction ever reorders, repeats or invents an octet; while the pump has not
   * failed nothing is lost either; the source counts as closed only when the receive ring
   * is empty; and a complete pump has delivered everything that was accepted.
   */
  lemma EndToEnd(f: Flow, events: seq<Event>, g: Flow)
    requires Fresh(f) && Reaches(f, events, g)
    ensures g.tcpOut <= g.usbIn && g.usbOut + g.down.ring.items <= g.accepted
    ensures !g.failed ==> g.tcpOut + g.up.ring.items == g.usbIn
    ensures !g.failed ==> g.usbOut + g.down.ring.items + g.net.rx.items == g.accepted
    ensures g.down.closed ==> g.net.remoteClosed && g.net.rx.items == []
    ensures Pump(g.up, g.down, false, g.failed).Complete() ==> g.usbOut == g.accepted && g.tcpOut == g.usbIn
  {
    RunKeepsLaw(f, events, g);
    assert g.usbOut + [] + [] == g.usbOut && g.tcpOut + [] == g.tcpOut;
  }

  /**
   * Credit conservation: what the peer may not yet send again is what the receive ring
   * holds, so a peer that respects the advertised window is never refused.
   */
  lemma WindowNeverOverruns(f: Flow, events: seq<Event>, g: Flow, packet: seq<byte>, copied: bool)
    requires Fresh(f) && Reaches(f, events, g)
    requires |g.accepted| - g.credited + |packet| <= TCP_WINDOW
    ensures !g.failed ==> |g.accepted| - g.credited == |g.net.rx.items|
    ensures Receive(g.net, packet, copied).1 != OutOfMemory
  {
    RunKeepsLaw(f, events, g);
  }

  // ----- the pump over the TCP endpoints is such a run -----

  /**
   * One step of the pump as the outside decides it: the answers of lwIP and of CDC0, and
   * the callbacks that run before the TCP write and between it and the TCP read. Callbacks
   * touch nothing the two CDC0 calls use, so those two places stand for every interleaving.
   */
  datatype Moment = Moment(room: nat, write: TcpIo, output: TcpIo, usbRead: Source, usbWrite: Sink,
                           beforeWrite: seq<Event>, beforeRead: seq<Event>)

  predicate IsCallback(e: Event) {
    e.PacketArrives? || e.ReceiveError? || e.PeerCloses? || e.ConnectionDrops?
  }

  lemma NextWellFormed(f: Flow, e: Event)
    requires WellFormed(f)
    ensures WellFormed(Next(f, e))
  {
  }

  /** The callbacks among `events` that TCP can deliver, one after another. */
  function AfterCallbacks(f: Flow, events: seq<Event>): (g: Flow)
    requires WellFormed(f)
    ensures WellFormed(g)
    decreases |events|
  {
    if events == [] then f
    else if IsCallback(events[0]) && Enabled(f, events[0]) then
      NextWellFormed(f, events[0]);
      AfterCallbacks(Next(f, events[0]), events[1..])
    else AfterCallbacks(f, events[1..])
  }

  function AtWrite(f: Flow, m: Moment): (g: Flow)
    requires WellFormed(f)
    ensures WellFormed(g)
  {
    AfterCallbacks(f, m.beforeWrite)
  }

  function UpWriteOf(policy: Policy, m: Moment): Event {
    UpWrite(policy.Up(), m.room, m.write, m.output)
  }

  function AtRead(f: Flow, policy: Policy, m: Moment): (g: Flow)
    requires WellFormed(f)
    ensures WellFormed(g)
  {
    NextWellFormed(AtWrite(f, m), UpWriteOf(policy, m));
    AfterCallbacks(Next(AtWrite(f, m), UpWriteOf(policy, m)), m.beforeRead)
  }

  /** The endpoints a step meets: CDC0's, and `tcp_read` and `tcp_write_endpoint` on the network as it then is. */
  function Wired(f: Flow, policy: Policy, m: Moment): Endpoints
    requires WellFormed(f)
  {
    var atWrite, atRead := AtWrite(f, m).net, AtRead(f, policy, m).net;
    Endpoints(m.usbRead, m.usbWrite, (capacity: nat) => TcpRead(atRead, capacity).reply,
              (offered: seq<byte>) => TcpWrite(atWrite, offered, m.room, m.write, m.output).reply)
  }

  /** `g` can be reached from `f`. */
  ghost predicate Leads(f: Flow, g: Flow) {
    exists events :: Reaches(f, events, g)
  }

  lemma LeadsHere(f: Flow)
    requires WellFormed(f)
    ensures Leads(f, f)
  {
    assert Reaches(f, [], f);
  }

  lemma {:induction false} ReachesOn(f: Flow, first: seq<Event>, g: Flow, second: seq<Event>, h: Flow)
    requires Reaches(f, first, g) && Reaches(g, second, h)
    ensures Reaches(f, first + second, h)
    decreases |first|
  {
    if first == [] {
      assert first + second == second;
    } else {
      ReachesOn(Next(f, first[0]), first[1..], g, second, h);
      assert (first + second)[1..] == first[1..] + second;
    }
  }

  lemma LeadsOn(f: Flow, g: Flow, h: Flow)
    requires Leads(f, g) && Leads(g, h)
    ensures Leads(f, h)
  {
    var first :| Reaches(f, first, g);
    var second :| Reaches(g, second, h);
    ReachesOn(f, first, g, second, h);
  }

  lemma LeadsByOne(f: Flow, g: Flow, e: Event)
    requires Leads(f, g) && WellFormed(g) && Enabled(g, e)
    ensures Leads(f, Next(g, e)) && WellFormed(Next(g, e))
  {
    NextWellFormed(g, e);
    assert [e][1..] == [] && Reaches(Next(g, e), [], Next(g, e));
    assert Reaches(g, [e], Next(g, e));
    LeadsOn(f, g, Next(g, e));
  }

  /** Callbacks change the network and what it has accepted; the pump's own state is left alone. */
  predicate SamePump(f: Flow, g: Flow) {
    && g.up == f.up && g.down == f.down && g.failed == f.failed
    && g.usbIn == f.usbIn && g.tcpOut == f.tcpOut && g.usbOut == f.usbOut && g.credited == f.credited
  }

  lemma {:induction false} CallbacksLead(f: Flow, g: Flow, events: seq<Event>)
    requires Leads(f, g) && WellFormed(g)
    ensures Leads(f, AfterCallbacks(g, events)) && SamePump(g, AfterCallbacks(g, events))
    decreases |events|
  {
    if events != [] {
      if IsCallback(events[0]) && Enabled(g, events[0]) {
        LeadsByOne(f, g, events[0]);
        CallbacksLead(f, Next(g, events[0]), events[1..]);
      } else {
        CallbacksLead(f, g, events[1..]);
      }
    }
  }

  /** The flow holds this pump. */
  predicate Holds(f: Flow, p: Pump) {
    WellFormed(f) && p.Ok() && !p.cancelled && f.up == p.usbToTls && f.down == p.tlsToUsb && f.failed == p.failed
  }

  /** What the calls of a step or a batch did to the history, the pump's own words against the flow's. */
  predicate Recorded(f: Flow, g: Flow, up: seq<Call>, down: seq<Call>) {
    && g.usbIn == f.usbIn + AllTaken(up)
    && g.usbOut == f.usbOut + AllGiven(down)
    && (!g.failed ==> g.tcpOut == f.tcpOut + AllGiven(up))
    && g.credited == f.credited + |AllTaken(down)|
  }

  lemma RecordedNothing(f: Flow, g: Flow)
    requires SamePump(f, g)
    ensures Recorded(f, g, [], [])
  {
    assert f.usbIn + [] == f.usbIn && f.usbOut + [] == f.usbOut && f.tcpOut + [] == f.tcpOut;
  }

  lemma RecordedOn(f: Flow, g: Flow, h: Flow, up1: seq<Call>, down1: seq<Call>, up2: seq<Call>, down2: seq<Call>)
    requires Recorded(f, g, up1, down1) && Recorded(g, h, up2, down2) && !g.failed
    ensures Recorded(f, h, up1 + up2, down1 + down2)
  {
    TakenConcat(up1, up2);
    GivenConcat(up1, up2);
    TakenConcat(down1, down2);
    GivenConcat(down1, down2);
    Regroup(f.usbIn, AllTaken(up1), AllTaken(up2));
    Regroup(f.usbOut, AllGiven(down1), AllGiven(down2));
    Regroup(f.tcpOut, AllGiven(up1), AllGiven(up2));
  }

  lemma UpWriteStage(f: Flow, policy: Policy, m: Moment, sink: Sink)
    requires WellFormed(f) && !f.failed
    requires Writes(f.up, policy.Up()) ==>
               sink(Offered(f.up)) == TcpWrite(f.net, Offered(f.up), m.room, m.write, m.output).reply
    ensures var g, o := Next(f, UpWriteOf(policy, m)), WritePending(f.up, policy.Up(), sink);
            && g.up == o.direction && g.down == f.down && (g.failed <==> o.status != OK)
            && Recorded(f, g, o.calls, [])
  {
    if Writes(f.up, policy.Up()) {
      var offered := Offered(f.up);
      WriteReportsWhatItQueued(f.net, offered, m.room, m.write, m.output);
      OneCall(Offer(offered, sink(offered)));
      var queued := TcpWrite(f.net, offered, m.room, m.write, m.output).queued;
      assert queued <= |offered| && offered[..queued] == f.up.ring.items[..queued];
      assert f.usbIn + [] == f.usbIn && f.usbOut + [] == f.usbOut;
    } else {
      RecordedNothing(f, f);
    }
  }

  lemma UpReadStage(f: Flow, policy: DirectionPolicy, source: Source)
    requires WellFormed(f) && !f.failed
    ensures var g, o := Next(f, UpRead(policy, source)), ReadAvailable(f.up, policy, source);
            && g.up == o.direction && g.down == f.down && (g.failed <==> o.status != OK)
            && Recorded(f, g, o.calls, [])
  {
    ReadGivesNothing(f.up, policy, source);
    assert f.usbOut + [] == f.usbOut && f.tcpOut + [] == f.tcpOut;
  }

  lemma DownWriteStage(f: Flow, policy: DirectionPolicy, sink: Sink)
    requires WellFormed(f) && !f.failed
    ensures var g, o := Next(f, DownWrite(policy, sink)), WritePending(f.down, policy, sink);
            && g.down == o.direction && g.up == f.up && (g.failed <==> o.status != OK)
            && Recorded(f, g, [], o.calls)
  {
    WriteTakesNothing(f.down, policy, sink);
    assert f.usbIn + [] == f.usbIn && f.tcpOut + [] == f.tcpOut;
  }

  lemma DownReadStage(f: Flow, policy: DirectionPolicy, source: Source)
    requires WellFormed(f) && !f.failed
    requires Reads(f.down, policy) ==> source(f.down.ring.Writable()) == TcpRead(f.net, f.down.ring.Writable()).reply
    ensures var g, o := Next(f, DownRead(policy)), ReadAvailable(f.down, policy, source);
            && g.down == o.direction && g.up == f.up && (g.failed <==> o.status != OK)
            && Recorded(f, g, [], o.calls)
  {
    ReadGivesNothing(f.down, policy, source);
    if Reads(f.down, policy) {
      var room := f.down.ring.Writable();
      TcpReadCases(f.net, room);
      OneCall(Ask(room, source(room)));
    }
    assert f.usbIn + [] == f.usbIn && f.tcpOut + [] == f.tcpOut && f.usbOut + [] == f.usbOut;
  }

  /** The flow after the first direction of a step. */
  function UpFlow(f: Flow, policy: Policy, m: Moment): (g: Flow)
    requires WellFormed(f)
    ensures WellFormed(g)
  {
    var g := AtRead(f, policy, m);
    NextWellFormed(g, UpRead(policy.Up(), m.usbRead));
    if g.failed then g else Next(g, UpRead(policy.Up(), m.usbRead))
  }

  /** The flow after the second direction of a step. */
  function DownFlow(f: Flow, policy: DirectionPolicy, sink: Sink): (g: Flow)
    requires WellFormed(f)
    ensures WellFormed(g)
  {
    NextWellFormed(f, DownWrite(policy, sink));
    var g := Next(f, DownWrite(policy, sink));
    NextWellFormed(g, DownRead(policy));
    if g.failed then g else Next(g, DownRead(policy))
  }

  function Pumped(f: Flow, p: Pump, policy: Policy, m: Moment): (g: Flow)
    requires WellFormed(f)
    ensures WellFormed(g)
  {
    if p.failed || p.Complete() then f
    else
      var g := UpFlow(f, policy, m);
      if g.failed then g else DownFlow(g, policy.Down(), m.usbWrite)
  }

  lemma UpHalf(f: Flow, policy: Policy, m: Moment, sink: Sink)
    requires WellFormed(f) && !f.failed
    requires forall offered ::
               sink(offered) == TcpWrite(AtWrite(f, m).net, offered, m.room, m.write, m.output).reply
    ensures var g, o := UpFlow(f, policy, m), Process(f.up, policy.Up(), m.usbRead, sink);
            && Leads(f, g)
            && g.up == o.direction && g.down == f.down && (g.failed <==> o.status != OK)
            && Recorded(f, g, o.calls, [])
            && (!g.failed ==> g.net == AtRead(f, policy, m).net)
  {
    var up, none: seq<Call> := policy.Up(), [];
    LeadsHere(f);
    CallbacksLead(f, f, m.beforeWrite);
    var f0 := AtWrite(f, m);
    RecordedNothing(f, f0);
    UpWriteStage(f0, policy, m, sink);
    LeadsByOne(f, f0, UpWriteOf(policy, m));
    var f1, w := Next(f0, UpWriteOf(policy, m)), WritePending(f0.up, up, sink);
    CallbacksLead(f, f1, m.beforeRead);
    var f2 := AtRead(f, policy, m);
    assert none + w.calls == w.calls;
    RecordedOn(f, f0, f2, none, none, w.calls, none);
    if !f2.failed {
      UpReadStage(f2, up, m.usbRead);
      LeadsByOne(f, f2, UpRead(up, m.usbRead));
      RecordedOn(f, f2, UpFlow(f, policy, m), w.calls, none, ReadAvailable(f2.up, up, m.usbRead).calls, none);
    }
  }

  lemma DownHalf(f: Flow, g: Flow, policy: DirectionPolicy, sink: Sink, source: Source)
    requires Leads(f, g) && WellFormed(g) && !g.failed
    requires forall capacity :: source(capacity) == TcpRead(g.net, capacity).reply
    ensures var h, o := DownFlow(g, policy, sink), Process(g.down, policy, source, sink);
            && Leads(f, h)
            && h.down == o.direction && h.up == g.up && (h.failed <==> o.status != OK)
            && Recorded(g, h, [], o.calls)
  {
    DownWriteStage(g, policy, sink);
    LeadsByOne(f, g, DownWrite(policy, sink));
    var g1, w := Next(g, DownWrite(policy, sink)), WritePending(g.down, policy, sink);
    if !g1.failed {
      DownReadStage(g1, policy, source);
      LeadsByOne(f, g1, DownRead(policy));
      RecordedOn(g, g1, Next(g1, DownRead(policy)), [], w.calls, [], ReadAvailable(g1.down, policy, source).calls);
    }
  }

  /** `pbns_byte_pump_step_with_policy` over the TCP endpoints is a run of the events above. */
  lemma StepIsRun(f: Flow, p: Pump, policy: Policy, m: Moment)
    requires Holds(f, p)
    ensures var s, g := Step(p, policy, Wired(f, policy, m)), Pumped(f, p, policy, m);
            Leads(f, g) && Holds(g, s.pump) && Recorded(f, g, s.up, s.down)
  {
    var env := Wired(f, policy, m);
    if p.failed || p.Complete() {
      LeadsHere(f);
      RecordedNothing(f, f);
    } else {
      StepLawful(p, policy, env);
      UpHalf(f, policy, m, env.tlsWrite);
      var g := UpFlow(f, policy, m);
      if !g.failed {
        DownHalf(f, g, policy.Down(), env.usbWrite, env.tlsRead);
        var s := Step(p, policy, env);
        assert s.up + [] == s.up && [] + s.down == s.down;
        RecordedOn(f, g, DownFlow(g, policy.Down(), m.usbWrite), s.up, [], [], s.down);
      }
    }
  }

  /** The endpoints the steps of a batch meet, each on the network as the steps before it left it. */
  function WiredAll(f: Flow, p: Pump, policy: Policy, startWrites: Generation, moments: seq<Moment>)
    : (script: seq<Endpoints>)
    requires WellFormed(f)
    ensures |script| == |moments|
    decreases |moments|
  {
    if moments == [] then []
    else
      var env := Wired(f, policy, moments[0]);
      var s := Step(p, policy, env);
      [env] + WiredAll(Pumped(f, p, policy, moments[0]), s.pump, AfterStep(policy, s.pump, startWrites), startWrites,
                       moments[1..])
  }

  /** `pbns_byte_pump_batch_with_policy` over the TCP endpoints is a run of the events above. */
  lemma {:induction false} BatchIsRun(
      f: Flow, p: Pump, policy: Policy, startWrites: Generation, moments: seq<Moment>) returns (g: Flow)
    requires Holds(f, p)
    ensures var r := BatchFrom(StepOn, p, policy, startWrites, WiredAll(f, p, policy, startWrites, moments));
            Leads(f, g) && Holds(g, r.pump) && Recorded(f, g, UpCalls(r.trace), DownCalls(r.trace))
    decreases |moments|
  {
    if moments == [] {
      LeadsHere(f);
      RecordedNothing(f, f);
      g := f;
    } else {
      var env := Wired(f, policy, moments[0]);
      var s, f1 := Step(p, policy, env), Pumped(f, p, policy, moments[0]);
      StepIsRun(f, p, policy, moments[0]);
      if s.status != OK || !s.progress || s.pump.Complete() {
        LastStep(s);
        g := f1;
      } else {
        var left := AfterStep(policy, s.pump, startWrites);
        var script := WiredAll(f1, s.pump, left, startWrites, moments[1..]);
        assert ([env] + script)[1..] == script;
        g := BatchIsRun(f1, s.pump, left, startWrites, moments[1..]);
        LeadsOn(f, f1, g);
        var rest := BatchFrom(StepOn, s.pump, left, startWrites, script);
        FirstStep(s, rest.trace);
        RecordedOn(f, f1, g, s.up, s.down, UpCalls(rest.trace), DownCalls(rest.trace));
      }
    }
  }

  /**
   * The order theorem for the pump itself: after any run of a connection, a batch over the
   * TCP endpoints goes on with that run. What its calls moved is appended to the two streams,
   * both stay in order, and a batch that completes the pump has delivered everything.
   */
  lemma BatchKeepsOrder(
      f0: Flow, f: Flow, p: Pump, policy: Policy, moments: seq<Moment>, env: nat -> Endpoints) returns (g: Flow)
    requires Fresh(f0) && Leads(f0, f) && Holds(f, p) && !p.failed && |moments| == BATCH_MAX_STEPS
    requires Script(env) == WiredAll(f, p, policy, p.usbToTls.writeGen, moments)
    ensures var r := Batch(p, policy, env);
            && Leads(f0, g) && Holds(g, r.pump)
            && g.usbIn == f.usbIn + AllTaken(UpCalls(r.trace))
            && g.usbOut == f.usbOut + AllGiven(DownCalls(r.trace))
            && g.tcpOut <= g.usbIn && g.usbOut + g.down.ring.items <= g.accepted
            && (!r.pump.failed ==> g.tcpOut == f.tcpOut + AllGiven(UpCalls(r.trace)))
            && (r.pump.Complete() ==> g.usbOut == g.accepted && g.tcpOut == g.usbIn)
  {
    g := BatchIsRun(f, p, policy, p.usbToTls.writeGen, moments);
    LeadsOn(f0, f, g);
    var events :| Reaches(f0, events, g);
    EndToEnd(f0, events, g);
  }

  // ----- the object -----

  class PicoNetwork {
    const rx: Rings.ByteRing
    var pcb: bool
    var connected: bool
    var remoteClosed: bool
    var failure: Status

    ghost predicate Valid()
      reads this, rx
    {
      rx.Valid() && rx.storage.Length == RX_CAPACITY
    }

    ghost function View(): (net: Net)
      requires Valid()
      reads this, rx, rx.storage
      ensures net.Ok()
    {
      Net(rx.View(), pcb, connected, remoteClosed, failure)
    }

    constructor (storage: array<byte>)
      requires storage.Length == RX_CAPACITY
      ensures Valid() && fresh(rx) && rx.storage == storage
      ensures View() == Net(Ring(RX_CAPACITY, 0, []), false, false, false, OK)
    {
      rx := new Rings.ByteRing(storage);
      pcb, connected, remoteClosed, failure := false, false, false, OK;
    }

    /** The copy loop of `tcp_received`; a partial copy at `offset` succeeds when `copies(offset)`. */
    method CopyPacket(packet: seq<byte>, copies: nat -> bool) returns (copied: bool)
      requires Valid() && |packet| <= RX_CAPACITY - rx.length
      modifies rx, rx.storage
      ensures Valid()
      ensures copied ==> rx.View() == old(rx.View()).(items := old(rx.Items()) + packet)
      ensures !copied ==> rx.View() == old(rx.View()) && packet != [] && exists offset :: !copies(offset)
    {
      var lengthBefore, done := rx.length, 0;
      ghost var before := rx.View();
      copied := true;
      assert before.items + packet[..0] == before.items;
      while copied && done < |packet|
        invariant Valid() && 0 <= done <= |packet| && before.Ok()
        invariant rx.View() == before.(items := before.items + packet[..done])
        invariant !copied ==> packet != [] && exists offset :: !copies(offset)
        decreases |packet| - done, copied
      {
        var status, offset, available := rx.Writable();
        var amount := Min(available, |packet| - done);
        if !copies(done) {
          copied := false;
        } else {
          ghost var sofar := rx.Items();
          var chunk := packet[done..done + amount];
          var committed := rx.Accept(offset, chunk);
          assert packet[..done + amount] == packet[..done] + chunk;
          assert sofar + chunk == before.items + packet[..done + amount];
          done := done + amount;
        }
      }
      if copied {
        assert packet[..done] == packet;
      } else {
        rx.Restore(lengthBefore);
        assert (before.items + packet[..done])[..lengthBefore] == before.items;
      }
    }

    /** `tcp_received` for a packet with data. */
    method Received(packet: seq<byte>, copies: nat -> bool) returns (result: Received, ghost copied: bool)
      requires Valid()
      modifies this, rx, rx.storage
      ensures Valid() && (View(), result) == Receive(old(View()), packet, copied)
      ensures (forall offset :: copies(offset)) ==> result != Aborted
    {
      copied := true;
      if |packet| > RX_CAPACITY - rx.length {
        result := OutOfMemory;
      } else {
        var complete := CopyPacket(packet, copies);
        copied := complete;
        if complete {
          result := Accepted;
        } else {
          failure, pcb := STATE, false;
          result := Aborted;
        }
      }
    }

    /** `tcp_read`. */
    method Read(capacity: nat) returns (reply: ReadReply, credit: nat)
      requires Valid()
      modifies rx
      ensures Valid() && ReadResult(View(), reply, credit) == TcpRead(old(View()), capacity)
    {
      credit := 0;
      reply := ReadReply(ARGUMENT, []);
      if capacity != 0 {
        var status, readable := rx.Readable();
        if |readable| > 0 {
          var amount := Min(|readable|, capacity);
          status := rx.Consume(amount);
          if !pcb || amount > U16_MAX {
            reply := ReadReply(TRANSPORT, []);
          } else {
            reply, credit := ReadReply(OK, readable[..amount]), amount;
          }
        } else {
          reply := ReadReply(if remoteClosed then OK else WOULD_BLOCK, []);
        }
      }
    }

    /** `tcp_write_endpoint`; `write` and `output` are what lwIP answers, `queued` what it has taken. */
    method Write(source: seq<byte>, room: nat, write: TcpIo, output: TcpIo) returns (reply: WriteReply, queued: nat)
      requires Valid()
      modifies this
      ensures Valid() && WriteResult(View(), reply, queued) == TcpWrite(old(View()), source, room, write, output)
    {
      reply, queued := WriteReply(ARGUMENT, 0), 0;
      if source != [] {
        var amount := if |source| < room then |source| else room;
        if amount > U16_MAX {
          amount := U16_MAX;
        }
        if !connected || !pcb || amount == 0 {
          reply := WriteReply(WOULD_BLOCK, 0);
        } else {
          var ran := NotRun;
          if write == Done {
            ran, queued := output, amount;
          }
          if write == Failed || (write == Done && ran != Done) {
            failure := TRANSPORT;
          }
          reply := TcpWriteOutcome(write, ran, amount);
        }
      }
    }
  }
}
