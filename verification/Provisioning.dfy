/**
 * Physical provisioning: the button gate and the session of pico/src/provision_gate.c and the
 * provisioning part of the main loop (pico/src/main.c). Safety is stated against the history
 * of observable events alone.
 */
module Provisioning {
  import opened Bytes

  const SAMPLE_INTERVAL_MS: nat := 50
  const HOLD_MS: nat := 2000
  const LINE_CAPACITY: nat := 608

  // ----- the gate -----

  datatype GateState = Idle | PressPending | Latched

  datatype Gate = Gate(state: GateState, pressStarted: u64, lastSample: u64, nextSample: u64, hasSample: bool)

  const CLOSED_GATE: Gate := Gate(Idle, 0, 0, 0, false)

  predicate SampleDue(g: Gate, now: u64) {
    && g.state != Latched
    && (!g.hasSample || now < g.lastSample || (g.lastSample != U64_MAX && now >= g.nextSample))
  }

  datatype GateResult = GateResult(gate: Gate, status: Status, activated: bool)

  /** `pbns_provision_gate_observe`. */
  function ObserveGate(g: Gate, now: u64, pressed: bool): GateResult {
    if g.state == Latched then GateResult(g, OK, false)
    else if !SampleDue(g, now) then GateResult(g, WOULD_BLOCK, false)
    else
      var regressed := g.hasSample && now < g.lastSample;
      var next: u64 := if now > U64_MAX - SAMPLE_INTERVAL_MS then U64_MAX else now + SAMPLE_INTERVAL_MS;
      var sampled :=
        Gate(if regressed then Idle else g.state, if regressed then 0 else g.pressStarted, now, next, true);
      if !pressed then GateResult(sampled.(state := Idle, pressStarted := 0), OK, false)
      else if sampled.state == Idle then GateResult(sampled.(state := PressPending, pressStarted := now), OK, false)
      else if now - sampled.pressStarted >= HOLD_MS then GateResult(sampled.(state := Latched), OK, true)
      else GateResult(sampled, OK, false)
  }

  // ----- the session -----

  datatype SessionState = Inactive | WaitDisconnect | WaitConnect | Ready

  function Activate(connected: bool): SessionState {
    if connected then WaitDisconnect else WaitConnect
  }

  /** `pbns_provision_session_observe`: the next state. */
  function ObserveSession(s: SessionState, connected: bool): SessionState {
    match s
    case Inactive => Inactive
    case WaitDisconnect => if connected then WaitDisconnect else WaitConnect
    case WaitConnect => if connected then Ready else WaitConnect
    case Ready => if connected then Ready else WaitConnect
  }

  /** ... and whether the session has just opened. */
  predicate Opens(s: SessionState, connected: bool) {
    s == WaitConnect && connected
  }

  // ----- what an observer sees -----

  /** How far a `SET` line got: bad record, failed store, stored but the reply was lost, stored and confirmed. */
  datatype SetResult = Rejected | StoreFailed | Unconfirmed | Confirmed

  datatype Outcome = Oversized | Processed(result: SetResult)

  /**
   * Button samples; activation with the link state found then; link observations in provisioning
   * mode with the number of octets that have arrived so far; and completed lines, `first` and
   * `end` being the positions of the first octet and of the newline in all that ever arrived.
   */
  datatype Event =
    | Sample(now: u64, pressed: bool)
    | Activated(linkUp: bool)
    | Link(connected: bool, arrived: nat)
    | Line(first: nat, end: nat, outcome: Outcome)
    | Reboot(first: nat, end: nat)

  datatype History = Nothing | Then(earlier: History, event: Event)

  /** When the button was last sampled. */
  function LastSample(h: History): Option<u64> {
    match h
    case Nothing => None
    case Then(_, Sample(now, _)) => Some(now)
    case Then(earlier, _) => LastSample(earlier)
  }

  /** The current uninterrupted press: every sample pressed, the times strictly increasing. */
  datatype Press = Released | Pressed(first: u64, last: u64)

  function PressOf(h: History): Press {
    match h
    case Nothing => Released
    case Then(earlier, Sample(now, pressed)) =>
      if !pressed then Released
      else (match PressOf(earlier)
            case Released => Pressed(now, now)
            case Pressed(first, last) => if now > last then Pressed(first, now) else Pressed(now, now))
    case Then(earlier, _) => PressOf(earlier)
  }

  predicate Held(h: History) {
    PressOf(h).Pressed? && PressOf(h).last - PressOf(h).first >= HOLD_MS
  }

  /** Whether provisioning input may be interpreted, and from which octet on. */
  datatype Mode = Locked | MustClose | MustOpen | Open(since: nat)

  function ModeOf(h: History): Mode {
    match h
    case Nothing => Locked
    case Then(_, Activated(linkUp)) => if linkUp then MustClose else MustOpen
    case Then(earlier, Link(connected, arrived)) =>
      (match ModeOf(earlier)
       case Locked => Locked
       case MustClose => if connected then MustClose else MustOpen
       case MustOpen => if connected then Open(arrived) else MustOpen
       case Open(since) => if connected then Open(since) else MustOpen)
    case Then(earlier, _) => ModeOf(earlier)
  }

  /** Whether the last line of this session that was not oversized stored a record and confirmed it. */
  predicate LastConfirmed(h: History) {
    match h
    case Nothing => false
    case Then(earlier, Line(_, _, Oversized)) => LastConfirmed(earlier)
    case Then(_, Line(_, _, Processed(result))) => result == Confirmed
    case Then(earlier, Link(connected, _)) => connected && ModeOf(earlier).Open? && LastConfirmed(earlier)
    case Then(earlier, Sample(_, _)) => LastConfirmed(earlier)
    case Then(_, _) => false
  }

  /** Where the next line begins: after the last line of this session, or at its opening. */
  function Cursor(h: History): nat {
    match h
    case Nothing => 0
    case Then(_, Line(_, end, _)) => end + 1
    case Then(_, Reboot(_, end)) => end + 1
    case Then(earlier, Link(connected, arrived)) =>
      if connected && ModeOf(earlier).MustOpen? then arrived else Cursor(earlier)
    case Then(earlier, _) => Cursor(earlier)
  }

  const NEWLINE: byte := 0x0a
  const RETURN: byte := 0x0d
  const SET_PREFIX: seq<byte> := [0x53, 0x45, 0x54, 0x20]
  const REBOOT_LINE: seq<byte> := [0x52, 0x45, 0x42, 0x4f, 0x4f, 0x54]

  function StripReturn(line: seq<byte>): seq<byte> {
    if line != [] && line[|line| - 1] == RETURN then line[..|line| - 1] else line
  }

  predicate IsSet(line: seq<byte>) {
    |line| > 4 && SET_PREFIX <= line
  }

  /** `stream[first..end]` is the next line of this session, with its newline at `end`. */
  predicate IsLine(h: History, stream: seq<byte>, first: nat, end: nat) {
    && ModeOf(h).Open?
    && ModeOf(h).since <= first == Cursor(h) <= end < |stream|
    && NEWLINE !in stream[first..end]
    && stream[end] == NEWLINE
  }

  /** The safety rule, event by event; `stream` is all that ever arrived on CDC1. */
  predicate Permitted(h: History, e: Event, stream: seq<byte>) {
    match e
    case Sample(now, _) =>
      ModeOf(h) == Locked
      && (LastSample(h).Some? ==>
            var last := LastSample(h).value;
            now < last || now - last >= SAMPLE_INTERVAL_MS || last < now == U64_MAX)
    case Activated(_) => ModeOf(h) == Locked && Held(h)
    case Link(_, arrived) => ModeOf(h) != Locked && arrived <= |stream|
    case Line(first, end, outcome) =>
      && IsLine(h, stream, first, end)
      && (outcome.Oversized? <==> end - first > LINE_CAPACITY)
      && (outcome.Processed? && outcome.result != Rejected ==> IsSet(StripReturn(stream[first..end])))
    case Reboot(first, end) =>
      && IsLine(h, stream, first, end)
      && StripReturn(stream[first..end]) == REBOOT_LINE
      && LastConfirmed(h)
  }

  predicate Safe(h: History, stream: seq<byte>) {
    h.Then? ==> Safe(h.earlier, stream) && Permitted(h.earlier, h.event, stream)
  }

  lemma PermittedExtends(h: History, e: Event, stream: seq<byte>, more: seq<byte>)
    requires Permitted(h, e, stream)
    ensures Permitted(h, e, stream + more)
  {
    if e.Line? || e.Reboot? {
      assert (stream + more)[e.first..e.end] == stream[e.first..e.end];
    }
  }

  /** What has been judged safe stays safe as more octets arrive. */
  lemma {:induction false} SafeExtends(h: History, stream: seq<byte>, more: seq<byte>)
    requires Safe(h, stream)
    ensures Safe(h, stream + more)
  {
    if h.Then? {
      SafeExtends(h.earlier, stream, more);
      PermittedExtends(h.earlier, h.event, stream, more);
    }
  }

  // ----- the firmware -----

  /** `provision_parser`; `first` is where the current line begins. */
  datatype Parser = Parser(line: seq<byte>, discarding: bool, readySent: bool, provisioned: bool, first: nat)

  function Fresh(first: nat): Parser {
    Parser([], false, false, false, first)
  }

  /** The firmware's state; `stream[consumed..]` waits in the USB queue. */
  datatype Device = Device(gate: Gate, session: SessionState, parser: Parser, provisioning: bool,
                           stream: seq<byte>, consumed: nat, history: History)

  /** What `process_set_command` makes of a well-formed `SET` line. */
  type SetCommand = seq<byte> -> SetResult

  function ProcessSet(line: seq<byte>, command: SetCommand): SetResult {
    if IsSet(line) then command(line) else Rejected
  }

  /** A newline, found at position `at`, in the read loop of `provisioning_task`. */
  function EndLine(p: Parser, h: History, at: nat, command: SetCommand): (Parser, History) {
    if p.discarding then
      (p.(line := [], discarding := false, first := at + 1), Then(h, Line(p.first, at, Oversized)))
    else if StripReturn(p.line) == REBOOT_LINE && p.provisioned then
      (Fresh(at + 1), Then(h, Reboot(p.first, at)))
    else
      var result := ProcessSet(StripReturn(p.line), command);
      (p.(line := [], provisioned := result == Confirmed, first := at + 1),
       Then(h, Line(p.first, at, Processed(result))))
  }

  /** Any other octet. */
  function Collect(p: Parser, octet: byte): Parser {
    if p.discarding then p
    else if |p.line| >= LINE_CAPACITY then p.(line := [], discarding := true)
    else p.(line := p.line + [octet])
  }

  function Feed(p: Parser, h: History, octet: byte, at: nat, command: SetCommand): (Parser, History) {
    if octet == NEWLINE then EndLine(p, h, at, command) else (Collect(p, octet), h)
  }

  /** The whole read loop. */
  function FeedAll(p: Parser, h: History, stream: seq<byte>, consumed: nat, command: SetCommand): (Parser, History)
    requires consumed <= |stream|
    decreases |stream| - consumed
  {
    if consumed == |stream| then (p, h)
    else
      var r := Feed(p, h, stream[consumed], consumed, command);
      FeedAll(r.0, r.1, stream, consumed + 1, command)
  }

  lemma FeedNext(p: Parser, h: History, stream: seq<byte>, at: nat, command: SetCommand)
    requires at < |stream|
    ensures var r := Feed(p, h, stream[at], at, command);
            FeedAll(p, h, stream, at, command) == FeedAll(r.0, r.1, stream, at + 1, command)
  {
  }

  /** What one turn of the main loop finds; octets may arrive before it and while it sends text. */
  datatype Input = Input(now: u64, pressed: bool, connected: bool, early: seq<byte>, late: seq<byte>,
                         sent: bool, command: SetCommand)

  /** `physical_gate_task`, with `activate_provisioning`. */
  function GateStep(d: Device, input: Input): Device {
    if !SampleDue(d.gate, input.now) then d
    else
      var r := ObserveGate(d.gate, input.now, input.pressed);
      var sampled := d.(gate := r.gate, history := Then(d.history, Sample(input.now, input.pressed)));
      if !r.activated then sampled
      else sampled.(consumed := |d.stream|, parser := Fresh(|d.stream|), session := Activate(input.connected),
                    provisioning := true, history := Then(sampled.history, Activated(input.connected)))
  }

  /** `provisioning_task` up to the read loop: the session is observed, an opening flushes, `READY` is sent. */
  function Attend(d: Device, input: Input): Device {
    var session := ObserveSession(d.session, input.connected);
    var seen := d.(session := session, history := Then(d.history, Link(input.connected, |d.stream|)));
    if session != Ready then seen.(parser := Fresh(|d.stream|))
    else if Opens(d.session, input.connected) then
      seen.(consumed := |d.stream|, parser := Fresh(|d.stream|).(readySent := input.sent))
    else seen.(parser := d.parser.(readySent := d.parser.readySent || input.sent))
  }

  /** The read loop of `provisioning_task`, over what has arrived by then. */
  function Interpret(d: Device, input: Input): Device
    requires d.consumed <= |d.stream|
  {
    var stream := d.stream + input.late;
    var r := FeedAll(d.parser, d.history, stream, d.consumed, input.command);
    d.(parser := r.0, history := r.1, stream := stream, consumed := |stream|)
  }

  function ProvisioningStep(d: Device, input: Input): Device
    requires d.consumed <= |d.stream|
  {
    var attended := Attend(d, input);
    if attended.session == Ready then Interpret(attended, input) else attended
  }

  /** One turn of the main loop, as far as provisioning goes. */
  function Turn(d: Device, input: Input): Device
    requires d.consumed <= |d.stream|
  {
    var arrived := d.(stream := d.stream + input.early);
    var gated := if arrived.provisioning then arrived else GateStep(arrived, input);
    if gated.provisioning then ProvisioningStep(gated, input) else gated
  }

  const POWERED_ON: Device := Device(CLOSED_GATE, Inactive, Fresh(0), false, [], 0, Nothing)

  /** The state after a run of the main loop from power-on. */
  function Turns(inputs: seq<Input>): (d: Device)
    ensures d.consumed <= |d.stream|
    decreases |inputs|
  {
    if inputs == [] then POWERED_ON else Turn(Turns(inputs[..|inputs| - 1]), inputs[|inputs| - 1])
  }

  // ----- the invariant -----

  /** The gate agrees with what the samples show. */
  predicate GateAgrees(g: Gate, h: History) {
    && g.state != Latched
    && LastSample(h) == (if g.hasSample then Some(g.lastSample) else None)
    && g.nextSample <= g.lastSample + SAMPLE_INTERVAL_MS
    && (g.hasSample ==> g.nextSample == U64_MAX || g.nextSample == g.lastSample + SAMPLE_INTERVAL_MS)
    && (g.state == Idle ==> PressOf(h) == Released)
    && (g.state == PressPending ==>
          && g.hasSample && g.pressStarted <= g.lastSample
          && PressOf(h) == Pressed(g.pressStarted, g.lastSample) && !Held(h))
  }

  predicate SessionAgrees(session: SessionState, provisioning: bool, h: History, consumed: nat) {
    match ModeOf(h)
    case Locked => !provisioning && session == Inactive
    case MustClose => provisioning && session == WaitDisconnect
    case MustOpen => provisioning && session == WaitConnect
    case Open(since) => provisioning && session == Ready && since <= consumed
  }

  /** The parser holds the unfinished line of this session, or notes that it is too long. */
  predicate ParserAgrees(p: Parser, h: History, stream: seq<byte>, consumed: nat) {
    && (p.provisioned <==> LastConfirmed(h))
    && (ModeOf(h).Open? ==>
          && ModeOf(h).since <= p.first == Cursor(h) <= consumed <= |stream|
          && NEWLINE !in stream[p.first..consumed]
          && (if p.discarding then consumed - p.first > LINE_CAPACITY
              else p.line == stream[p.first..consumed] && |p.line| <= LINE_CAPACITY))
  }

  predicate Invariant(d: Device) {
    && d.consumed <= |d.stream|
    && Safe(d.history, d.stream)
    && (!d.provisioning ==> GateAgrees(d.gate, d.history))
    && SessionAgrees(d.session, d.provisioning, d.history, d.consumed)
    && ParserAgrees(d.parser, d.history, d.stream, d.consumed)
  }

  lemma ArrivalKeeps(d: Device, octets: seq<byte>)
    requires Invariant(d)
    ensures Invariant(d.(stream := d.stream + octets))
  {
    SafeExtends(d.history, d.stream, octets);
    if ModeOf(d.history).Open? {
      assert (d.stream + octets)[d.parser.first..d.consumed] == d.stream[d.parser.first..d.consumed];
    }
  }

  lemma EndLineKeeps(p: Parser, h: History, stream: seq<byte>, at: nat, command: SetCommand)
    requires at < |stream| && stream[at] == NEWLINE
    requires Safe(h, stream) && ModeOf(h).Open? && ParserAgrees(p, h, stream, at)
    ensures var r := EndLine(p, h, at, command);
            Safe(r.1, stream) && ModeOf(r.1) == ModeOf(h) && ParserAgrees(r.0, r.1, stream, at + 1)
  {
    assert IsLine(h, stream, p.first, at);
    assert stream[at + 1..at + 1] == [];
  }

  lemma CollectKeeps(p: Parser, h: History, stream: seq<byte>, at: nat)
    requires at < |stream| && stream[at] != NEWLINE && ModeOf(h).Open? && ParserAgrees(p, h, stream, at)
    ensures ParserAgrees(Collect(p, stream[at]), h, stream, at + 1)
  {
    assert stream[p.first..at + 1] == stream[p.first..at] + [stream[at]];
  }

  lemma FeedKeeps(p: Parser, h: History, stream: seq<byte>, at: nat, command: SetCommand)
    requires at < |stream| && Safe(h, stream) && ModeOf(h).Open? && ParserAgrees(p, h, stream, at)
    ensures var r := Feed(p, h, stream[at], at, command);
            Safe(r.1, stream) && ModeOf(r.1) == ModeOf(h) && ParserAgrees(r.0, r.1, stream, at + 1)
  {
    if stream[at] == NEWLINE {
      EndLineKeeps(p, h, stream, at, command);
    } else {
      CollectKeeps(p, h, stream, at);
    }
  }

  lemma {:induction false} FeedAllKeeps(p: Parser, h: History, stream: seq<byte>, consumed: nat, command: SetCommand)
    requires consumed <= |stream| && Safe(h, stream) && ModeOf(h).Open? && ParserAgrees(p, h, stream, consumed)
    ensures var r := FeedAll(p, h, stream, consumed, command);
            Safe(r.1, stream) && ModeOf(r.1) == ModeOf(h) && ParserAgrees(r.0, r.1, stream, |stream|)
    decreases |stream| - consumed
  {
    if consumed < |stream| {
      FeedKeeps(p, h, stream, consumed, command);
      var r := Feed(p, h, stream[consumed], consumed, command);
      FeedAllKeeps(r.0, r.1, stream, consumed + 1, command);
    }
  }

  /** The gate opens exactly at the sample that completes the hold, never later and never earlier. */
  lemma GateStepKeeps(d: Device, input: Input)
    requires Invariant(d) && !d.provisioning
    ensures Invariant(GateStep(d, input))
    ensures GateStep(d, input).provisioning
            <==> SampleDue(d.gate, input.now) && Held(Then(d.history, Sample(input.now, input.pressed)))
  {
  }

  lemma AttendKeeps(d: Device, input: Input)
    requires Invariant(d) && d.provisioning
    ensures Invariant(Attend(d, input))
  {
  }

  lemma InterpretKeeps(d: Device, input: Input)
    requires Invariant(d) && d.session == Ready
    ensures Invariant(Interpret(d, input))
  {
    ArrivalKeeps(d, input.late);
    FeedAllKeeps(d.parser, d.history, d.stream + input.late, d.consumed, input.command);
  }

  lemma TurnKeeps(d: Device, input: Input)
    requires Invariant(d)
    ensures Invariant(Turn(d, input))
  {
    ArrivalKeeps(d, input.early);
    var arrived := d.(stream := d.stream + input.early);
    if !arrived.provisioning {
      GateStepKeeps(arrived, input);
    }
    var gated := if arrived.provisioning then arrived else GateStep(arrived, input);
    if gated.provisioning {
      AttendKeeps(gated, input);
      if Attend(gated, input).session == Ready {
        InterpretKeeps(Attend(gated, input), input);
      }
    }
  }

  /**
   * In every run: the button is sampled at most every 50 ms, and only while locked; provisioning
   * is activated only by an uninterrupted press of at least two seconds; a line is interpreted
   * only in a session opened after that, and the lines of a session are the stretches between
   * the newlines of what arrived after the opening, none left out; a line is refused as
   * oversized exactly when it is longer than the buffer, and reaches the credential store only
   * if it is a `SET` line; a reboot happens only on a `REBOOT` line when the last line of the
   * session that was not oversized was confirmed.
   */
  lemma {:induction false} EveryRunIsSafe(inputs: seq<Input>)
    ensures Invariant(Turns(inputs))
    ensures Safe(Turns(inputs).history, Turns(inputs).stream)
    decreases |inputs|
  {
    if inputs != [] {
      EveryRunIsSafe(inputs[..|inputs| - 1]);
      TurnKeeps(Turns(inputs[..|inputs| - 1]), inputs[|inputs| - 1]);
    }
  }

  predicate Prefix(g: History, h: History) {
    g == h || (h.Then? && Prefix(g, h.earlier))
  }

  lemma {:induction false} SafePrefix(g: History, h: History, stream: seq<byte>)
    requires Safe(h, stream) && Prefix(g, h)
    ensures Safe(g, stream)
    decreases h
  {
    if g != h {
      SafePrefix(g, h.earlier, stream);
    }
  }

  lemma {:induction false} ActivationBefore(h: History, stream: seq<byte>) returns (activation: History)
    requires Safe(h, stream) && ModeOf(h) != Locked
    ensures Prefix(activation, h) && activation.Then? && activation.event.Activated? && Held(activation.earlier)
  {
    if h.event.Activated? {
      activation := h;
    } else {
      activation := ActivationBefore(h.earlier, stream);
    }
  }

  /** When a run reaches the credential store, a held press came before, and the line arrived in the open session. */
  lemma StoreIsAuthorised(inputs: seq<Input>, g: History) returns (activation: History)
    requires Prefix(g, Turns(inputs).history) && g.Then? && g.event.Line?
    requires g.event.outcome.Processed? && g.event.outcome.result != Rejected
    ensures Prefix(activation, g.earlier) && activation.Then? && activation.event.Activated? && Held(activation.earlier)
    ensures IsLine(g.earlier, Turns(inputs).stream, g.event.first, g.event.end)
    ensures IsSet(StripReturn(Turns(inputs).stream[g.event.first..g.event.end]))
  {
    var d := Turns(inputs);
    EveryRunIsSafe(inputs);
    SafePrefix(g, d.history, d.stream);
    activation := ActivationBefore(g.earlier, d.stream);
  }

  // ----- lines that fit -----

  lemma Peel(front: seq<byte>, stream: seq<byte>, at: nat, n: nat)
    requires 0 < n && at + n <= |stream| && NEWLINE !in stream[at..at + n]
    ensures stream[at] != NEWLINE && NEWLINE !in stream[at + 1..at + n]
    ensures front + [stream[at]] + stream[at + 1..at + n] == front + stream[at..at + n]
  {
    assert stream[at..at + n] == [stream[at]] + stream[at + 1..at + n];
  }

  lemma CollectOne(p: Parser, h: History, stream: seq<byte>, at: nat, command: SetCommand)
    requires !p.discarding && |p.line| < LINE_CAPACITY && at < |stream| && stream[at] != NEWLINE
    ensures FeedAll(p, h, stream, at, command) == FeedAll(p.(line := p.line + [stream[at]]), h, stream, at + 1, command)
  {
  }

  lemma {:induction false} CollectLine(p: Parser, h: History, stream: seq<byte>, at: nat, n: nat, command: SetCommand)
    requires !p.discarding && |p.line| + n <= LINE_CAPACITY && at + n <= |stream| && NEWLINE !in stream[at..at + n]
    ensures FeedAll(p, h, stream, at, command) ==
            FeedAll(p.(line := p.line + stream[at..at + n]), h, stream, at + n, command)
    decreases n
  {
    if n == 0 {
      assert p.line + stream[at..at] == p.line;
    } else {
      Peel(p.line, stream, at, n);
      CollectOne(p, h, stream, at, command);
      CollectLine(p.(line := p.line + [stream[at]]), h, stream, at + 1, n - 1, command);
    }
  }

  /** The length of a `SET` line for a record of `size` octets in base64. */
  function SetLineLength(size: nat): nat {
    |SET_PREFIX| + 4 * ((size + 2) / 3)
  }

  /** A `SET` line for a record of up to 448 octets always fits the buffer and is interpreted as it stands. */
  lemma SetLineIsInterpreted(p: Parser, h: History, stream: seq<byte>, at: nat, size: nat, command: SetCommand)
    requires !p.discarding && p.line == [] && 0 < size <= 448
    requires at + SetLineLength(size) < |stream| && stream[at + SetLineLength(size)] == NEWLINE
    requires var line := stream[at..at + SetLineLength(size)];
             SET_PREFIX <= line && NEWLINE !in line && line[|line| - 1] != RETURN
    ensures var n := SetLineLength(size);
            var result := command(stream[at..at + n]);
            FeedAll(p, h, stream, at, command) ==
            FeedAll(p.(provisioned := result == Confirmed, first := at + n + 1),
                    Then(h, Line(p.first, at + n, Processed(result))), stream, at + n + 1, command)
  {
    var n := SetLineLength(size);
    var line := stream[at..at + n];
    CollectLine(p, h, stream, at, n, command);
    assert p.line + line == line && StripReturn(line) == line && IsSet(line) && line[0] != REBOOT_LINE[0];
    FeedNext(p.(line := line), h, stream, at + n, command);
  }

  // ----- the objects -----

  class ProvisionGate {
    var state: GateState
    var pressStarted: u64
    var lastSample: u64
    var nextSample: u64
    var hasSample: bool

    ghost function View(): Gate
      reads this
    {
      Gate(state, pressStarted, lastSample, nextSample, hasSample)
    }

    constructor ()
      ensures View() == CLOSED_GATE
    {
      state, pressStarted, lastSample, nextSample, hasSample := Idle, 0, 0, 0, false;
    }

    predicate Due(now: u64)
      reads this
      ensures Due(now) <==> SampleDue(View(), now)
    {
      if state == Latched then false
      else if !hasSample || now < lastSample then true
      else lastSample != U64_MAX && now >= nextSample
    }

    method Observe(now: u64, pressed: bool) returns (status: Status, activated: bool)
      modifies this
      ensures GateResult(View(), status, activated) == ObserveGate(old(View()), now, pressed)
    {
      activated := false;
      if state == Latched {
        return OK, false;
      }
      if !Due(now) {
        return WOULD_BLOCK, false;
      }
      if hasSample && now < lastSample {
        state := Idle;
        pressStarted := 0;
      }
      hasSample := true;
      lastSample := now;
      nextSample := if now > U64_MAX - SAMPLE_INTERVAL_MS then U64_MAX else now + SAMPLE_INTERVAL_MS;
      status := OK;
      if !pressed {
        state := Idle;
        pressStarted := 0;
      } else if state == Idle {
        state := PressPending;
        pressStarted := now;
      } else if now - pressStarted >= HOLD_MS {
        state := Latched;
        activated := true;
      }
    }
  }

  class ProvisionSession {
    var state: SessionState

    constructor ()
      ensures state == Inactive
    {
      state := Inactive;
    }

    method Start(connected: bool)
      modifies this
      ensures state == Activate(connected)
    {
      state := if connected then WaitDisconnect else WaitConnect;
    }

    method Observe(connected: bool) returns (status: Status, nowOpen: bool)
      modifies this
      ensures state == ObserveSession(old(state), connected)
      ensures nowOpen <==> Opens(old(state), connected)
      ensures status == if old(state) == Inactive then STATE else OK
    {
      status, nowOpen := OK, false;
      match state {
        case Inactive =>
          status := STATE;
        case WaitDisconnect =>
          if !connected {
            state := WaitConnect;
          }
        case WaitConnect =>
          if connected {
            state := Ready;
            nowOpen := true;
          }
        case Ready =>
          if !connected {
            state := WaitConnect;
          }
      }
    }
  }

  /** `provision_parser`, with its fixed line buffer. */
  class ProvisionParser {
    const buffer: array<byte>
    var length: nat
    var discarding: bool
    var readySent: bool
    var provisioned: bool
    ghost var first: nat

    ghost predicate Valid()
      reads this
    {
      buffer.Length == LINE_CAPACITY && length <= LINE_CAPACITY
    }

    ghost function View(): Parser
      requires Valid()
      reads this, buffer
    {
      Parser(buffer[..length], discarding, readySent, provisioned, first)
    }

    constructor ()
      ensures Valid() && fresh(buffer) && View() == Fresh(0)
    {
      buffer := new byte[LINE_CAPACITY];
      length, discarding, readySent, provisioned, first := 0, false, false, false, 0;
    }

    method Reset(ghost at: nat)
      requires Valid()
      modifies this
      ensures Valid() && View() == Fresh(at)
    {
      length, discarding, readySent, provisioned, first := 0, false, false, false, at;
    }

    /** A newline: the completed line is acted on and the buffer emptied. */
    method FinishLine(command: SetCommand, ghost h: History, ghost at: nat) returns (ghost g: History)
      requires Valid()
      modifies this
      ensures Valid() && (View(), g) == old(EndLine(View(), h, at, command))
    {
      if discarding {
        g := Then(h, Line(first, at, Oversized));
      } else {
        if length > 0 && buffer[length - 1] == RETURN {
          length := length - 1;
        }
        assert buffer[..length] == StripReturn(old(View().line));
        if length == |REBOOT_LINE| && buffer[..length] == REBOOT_LINE && provisioned {
          g := Then(h, Reboot(first, at));
          Reset(at + 1);
        } else {
          var result := ProcessSet(buffer[..length], command);
          provisioned := result == Confirmed;
          g := Then(h, Line(first, at, Processed(result)));
        }
      }
      length := 0;
      discarding := false;
      first := at + 1;
    }

    /** Any other octet: it is collected, or the line is given up. */
    method Take(octet: byte)
      requires Valid()
      modifies this, buffer
      ensures Valid() && View() == Collect(old(View()), octet)
    {
      if !discarding {
        if length >= buffer.Length {
          length := 0;
          discarding := true;
        } else {
          buffer[length] := octet;
          length := length + 1;
        }
      }
    }

    /** One octet of the read loop of `provisioning_task`. */
    method ReadOne(octet: byte, command: SetCommand, ghost h: History, ghost at: nat) returns (ghost g: History)
      requires Valid()
      modifies this, buffer
      ensures Valid() && (View(), g) == old(Feed(View(), h, octet, at, command))
    {
      g := h;
      if octet == NEWLINE {
        g := FinishLine(command, h, at);
      } else {
        Take(octet);
      }
    }

    /** The whole loop: it empties the queue. */
    method ReadAll(queue: seq<byte>, command: SetCommand, ghost h: History, ghost stream: seq<byte>)
        returns (ghost g: History)
      requires Valid() && |queue| <= |stream| && stream[|stream| - |queue|..] == queue
      modifies this, buffer
      ensures Valid() && (View(), g) == old(FeedAll(View(), h, stream, |stream| - |queue|, command))
    {
      g := h;
      var i := 0;
      ghost var consumed, p := |stream| - |queue|, View();
      ghost var all := FeedAll(p, h, stream, consumed, command);
      while i < |queue|
        invariant 0 <= i <= |queue| && Valid() && View() == p
        invariant FeedAll(p, g, stream, consumed + i, command) == all
      {
        assert queue[i] == stream[consumed + i];
        FeedNext(p, g, stream, consumed + i, command);
        g := ReadOne(queue[i], command, g, consumed + i);
        p := View();
        i := i + 1;
      }
    }
  }

  /** The provisioning part of the main loop over its global state. */
  class Provisioner {
    const gate: ProvisionGate
    const session: ProvisionSession
    const parser: ProvisionParser
    var provisioningMode: bool
    var queue: seq<byte>
    ghost var stream: seq<byte>
    ghost var history: History

    ghost predicate Valid()
      reads this, parser
    {
      parser.Valid() && |queue| <= |stream| && stream[|stream| - |queue|..] == queue
    }

    ghost function View(): (d: Device)
      requires Valid()
      reads this, gate, session, parser, parser.buffer
      ensures d.consumed <= |d.stream|
    {
      Device(gate.View(), session.state, parser.View(), provisioningMode, stream, |stream| - |queue|, history)
    }

    constructor ()
      ensures Valid() && View() == POWERED_ON
      ensures fresh(gate) && fresh(session) && fresh(parser) && fresh(parser.buffer)
    {
      gate := new ProvisionGate();
      session := new ProvisionSession();
      parser := new ProvisionParser();
      provisioningMode, queue, stream, history := false, [], [], Nothing;
    }

    /** Octets arrive on CDC1. */
    method Arrive(octets: seq<byte>)
      requires Valid()
      modifies this
      ensures Valid() && View() == old(View()).(stream := old(stream) + octets)
    {
      stream := stream + octets;
      queue := queue + octets;
    }

    /** `tud_cdc_n_read_flush` and the parser's reset. */
    method Flush()
      requires Valid()
      modifies this, parser
      ensures Valid() && View() == old(View()).(consumed := |stream|, parser := Fresh(|stream|))
    {
      queue := [];
      parser.Reset(|stream|);
    }

    method GateTask(input: Input)
      requires Valid()
      modifies this, gate, session, parser
      ensures Valid() && View() == GateStep(old(View()), input)
    {
      if gate.Due(input.now) {
        var status, activated := gate.Observe(input.now, input.pressed);
        history := Then(history, Sample(input.now, input.pressed));
        if activated {
          Flush();
          session.Start(input.connected);
          provisioningMode := true;
          history := Then(history, Activated(input.connected));
        }
      }
    }

    method ResetParser()
      requires Valid()
      modifies parser
      ensures Valid() && View() == old(View()).(parser := Fresh(|stream|))
    {
      parser.Reset(|stream|);
    }

    method ObserveLink(connected: bool) returns (status: Status, nowOpen: bool)
      requires Valid()
      modifies this, session
      ensures Valid()
      ensures var d := old(View());
              && View() == d.(session := ObserveSession(d.session, connected),
                              history := Then(d.history, Link(connected, |d.stream|)))
              && (status == OK <==> d.session != Inactive) && (nowOpen <==> Opens(d.session, connected))
    {
      status, nowOpen := session.Observe(connected);
      history := Then(history, Link(connected, |stream|));
    }

    method Greet(sent: bool)
      requires Valid()
      modifies parser
      ensures Valid()
      ensures View() == old(View()).(parser := old(parser.View()).(readySent := old(parser.readySent) || sent))
    {
      if !parser.readySent {
        parser.readySent := sent;
      }
    }

    /** `provisioning_task` before its read loop. */
    method AttendSession(input: Input) returns (ready: bool)
      requires Valid()
      modifies this, session, parser
      ensures Valid() && View() == Attend(old(View()), input)
      ensures ready <==> session.state == Ready
    {
      var status, nowOpen := ObserveLink(input.connected);
      ready := session.state == Ready;
      if status != OK || !input.connected {
        ResetParser();
      } else {
        if nowOpen {
          Flush();
        }
        if !ready {
          ResetParser();
        } else {
          Greet(input.sent);
        }
      }
    }

    /** The read loop of `provisioning_task`. */
    method InterpretQueue(input: Input)
      requires Valid()
      modifies this, parser, parser.buffer
      ensures Valid() && View() == Interpret(old(View()), input)
    {
      Arrive(input.late);
      history := parser.ReadAll(queue, input.command, history, stream);
      queue := [];
    }

    method ProvisioningTask(input: Input)
      requires Valid()
      modifies this, session, parser, parser.buffer
      ensures Valid() && View() == ProvisioningStep(old(View()), input)
    {
      var ready := AttendSession(input);
      if ready {
        InterpretQueue(input);
      }
    }

    /** One turn of the main loop keeps the whole safety invariant. */
    method MainTurn(input: Input)
      requires Valid()
      modifies this, gate, session, parser, parser.buffer
      ensures Valid() && View() == Turn(old(View()), input)
      ensures old(Invariant(View())) ==> Invariant(View())
    {
      ghost var was := View();
      Arrive(input.early);
      if !provisioningMode {
        GateTask(input);
      }
      if provisioningMode {
        ProvisioningTask(input);
      }
      if Invariant(was) {
        TurnKeeps(was, input);
      }
    }
  }
}
