/**
 * The raw tunnel diagnostic (pico/src/raw_tunnel_diagnostic.c): the observations, the
 * consistency of what was observed, its classification, and the eight scratch words that carry
 * it over a watchdog reboot (pico/src/raw_tunnel_diagnostic_main.c). The record is stated for
 * any checksum that detects a change of four consecutive octets.
 */
module Diagnostic {
  import opened Bytes
  import Crc32c

  // ----- what is observed -----

  /** The milestone bits, lowest first. */
  const NONE: seq<bool> := [false, false, false, false, false, false, false, false, false, false, false, false, false]

  type Milestones = m: seq<bool> | |m| == 13 witness NONE

  const DTR: nat := 0
  const CREDENTIALS: nat := 1
  const NETWORK: nat := 2
  const WIFI_STARTED: nat := 3
  const WIFI_READY: nat := 4
  const TCP_READY: nat := 5
  const CDC_RX: nat := 6
  const TCP_WRITE: nat := 7
  const TCP_OUTPUT: nat := 8
  const TCP_RX: nat := 9
  const ENQUEUE: nat := 10
  const FLUSH: nat := 11
  const COMPLETE: nat := 12

  datatype State = State(milestones: Milestones, cdcRx: u16, tcpRx: u16, enqueues: u16, flushes: u16, completions: u16,
                         write: TcpIo, output: TcpIo)

  const INITIAL: State := State(NONE, 0, 0, 0, 0, 0, NotRun, NotRun)

  predicate IoPair(write: TcpIo, output: TcpIo) {
    write != Done <==> output == NotRun
  }

  /** The first `n` milestones and no others. */
  predicate AtStage(m: Milestones, n: nat) {
    && m[0] == (n > 0) && m[1] == (n > 1) && m[2] == (n > 2) && m[3] == (n > 3) && m[4] == (n > 4)
    && m[5] == (n > 5) && m[6] == (n > 6) && m[7] == (n > 7) && m[8] == (n > 8) && m[9] == (n > 9)
    && m[10] == (n > 10) && m[11] == (n > 11) && m[12] == (n > 12)
  }

  predicate Connected(m: Milestones) {
    m[DTR] && m[CREDENTIALS] && m[NETWORK] && m[WIFI_STARTED] && m[WIFI_READY] && m[TCP_READY]
  }

  predicate AnyData(m: Milestones) {
    m[CDC_RX] || m[TCP_WRITE] || m[TCP_OUTPUT] || m[TCP_RX] || m[ENQUEUE] || m[FLUSH] || m[COMPLETE]
  }

  predicate Progression(m: Milestones) {
    && (m[CREDENTIALS] ==> m[DTR])
    && (m[NETWORK] ==> m[DTR] && m[CREDENTIALS])
    && (m[WIFI_STARTED] ==> m[DTR] && m[CREDENTIALS] && m[NETWORK])
    && (m[WIFI_READY] ==> m[DTR] && m[CREDENTIALS] && m[NETWORK] && m[WIFI_STARTED])
    && (m[TCP_READY] ==> m[DTR] && m[CREDENTIALS] && m[NETWORK] && m[WIFI_STARTED] && m[WIFI_READY])
    && (AnyData(m) ==> Connected(m))
  }

  /** `state_is_consistent`. */
  predicate Consistent(s: State) {
    var m := s.milestones;
    && Progression(m)
    && IoPair(s.write, s.output)
    && s.completions <= s.flushes <= s.enqueues
    && m[CDC_RX] == (s.cdcRx != 0)
    && m[TCP_RX] == (s.tcpRx != 0)
    && m[ENQUEUE] == (s.enqueues != 0)
    && m[FLUSH] == (s.flushes != 0)
    && m[COMPLETE] == (s.completions != 0)
    && m[TCP_WRITE] == (s.write != NotRun)
    && m[TCP_OUTPUT] == (s.output != NotRun)
  }

  datatype Observation =
    | Milestone(bit: nat)
    | CdcRx | TcpRx | CdcEnqueue | CdcFlush | CdcComplete
    | TcpIo(write: TcpIo, output: TcpIo)

  function Saturated(counter: u16): u16 {
    if counter == U16_MAX then counter else counter + 1
  }

  /** The observers; an observation they refuse changes nothing. */
  function Observe(s: State, o: Observation): State {
    var m := s.milestones;
    match o
    case Milestone(bit) => if bit < 13 then s.(milestones := m[bit := true]) else s
    case CdcRx => s.(cdcRx := Saturated(s.cdcRx), milestones := m[CDC_RX := true])
    case TcpRx => s.(tcpRx := Saturated(s.tcpRx), milestones := m[TCP_RX := true])
    case CdcEnqueue => s.(enqueues := Saturated(s.enqueues), milestones := m[ENQUEUE := true])
    case CdcFlush => s.(flushes := Saturated(s.flushes), milestones := m[FLUSH := true])
    case CdcComplete => s.(completions := Saturated(s.completions), milestones := m[COMPLETE := true])
    case TcpIo(write, output) =>
      if write == NotRun || !IoPair(write, output) then s
      else s.(write := write, output := output, milestones := m[TCP_WRITE := true][TCP_OUTPUT := output != NotRun])
  }

  /** What the firmware must see to before each observation. */
  predicate InOrder(s: State, o: Observation) {
    var m := s.milestones;
    match o
    case Milestone(bit) => bit >= 13 || m[bit] || bit == DTR || (bit <= TCP_READY && m[bit - 1])
    case CdcFlush => Connected(m) && (s.flushes < s.enqueues || s.flushes == U16_MAX)
    case CdcComplete => Connected(m) && (s.completions < s.flushes || s.completions == U16_MAX)
    case TcpIo(write, output) => write == NotRun || !IoPair(write, output) || Connected(m)
    case _ => Connected(m)
  }

  /** An observation keeps the state consistent exactly when it comes in order. */
  lemma OrderIsNeeded(s: State, o: Observation)
    requires Consistent(s)
    ensures Consistent(Observe(s, o)) <==> InOrder(s, o)
  {
    if o.Milestone? && o.bit < 13 {
      MilestoneOrder(s, o.bit);
    }
  }

  lemma MilestoneOrder(s: State, bit: nat)
    requires Consistent(s) && bit < 13
    ensures Consistent(Observe(s, Milestone(bit))) <==> InOrder(s, Milestone(bit))
  {
    var m, n := s.milestones, s.milestones[bit := true];
    if m[bit] {
      assert n == m;
    }
  }

  function ObserveAll(observations: seq<Observation>): State {
    if observations == [] then INITIAL
    else Observe(ObserveAll(observations[..|observations| - 1]), observations[|observations| - 1])
  }

  predicate AllInOrder(observations: seq<Observation>) {
    observations == []
    || (AllInOrder(observations[..|observations| - 1])
        && InOrder(ObserveAll(observations[..|observations| - 1]), observations[|observations| - 1]))
  }

  /** Any run of observations, each in order, ends in a consistent state. */
  lemma {:induction false} OrderlyRunIsConsistent(observations: seq<Observation>)
    requires AllInOrder(observations)
    ensures Consistent(ObserveAll(observations))
  {
    if observations != [] {
      OrderlyRunIsConsistent(observations[..|observations| - 1]);
      OrderIsNeeded(ObserveAll(observations[..|observations| - 1]), observations[|observations| - 1]);
    }
  }

  /** `pbns_raw_diagnostic_state` and its observers. */
  class RawState {
    var milestones: Milestones
    var cdcRx: u16
    var tcpRx: u16
    var enqueues: u16
    var flushes: u16
    var completions: u16
    var write: TcpIo
    var output: TcpIo

    ghost function View(): State
      reads this
    {
      State(milestones, cdcRx, tcpRx, enqueues, flushes, completions, write, output)
    }

    constructor ()
      ensures View() == INITIAL
    {
      milestones, cdcRx, tcpRx, enqueues, flushes, completions := NONE, 0, 0, 0, 0, 0;
      write, output := NotRun, NotRun;
    }

    method ObserveMilestone(bit: nat) returns (status: Status)
      modifies this
      ensures View() == Observe(old(View()), Milestone(bit)) && status == if bit < 13 then OK else ARGUMENT
    {
      if bit >= 13 {
        return ARGUMENT;
      }
      milestones := milestones[bit := true];
      status := OK;
    }

    method ObserveCdcRx()
      modifies this
      ensures View() == Observe(old(View()), CdcRx)
    {
      cdcRx := Saturated(cdcRx);
      milestones := milestones[CDC_RX := true];
    }

    method ObserveTcpRx()
      modifies this
      ensures View() == Observe(old(View()), TcpRx)
    {
      tcpRx := Saturated(tcpRx);
      milestones := milestones[TCP_RX := true];
    }

    method ObserveEnqueue()
      modifies this
      ensures View() == Observe(old(View()), CdcEnqueue)
    {
      enqueues := Saturated(enqueues);
      milestones := milestones[ENQUEUE := true];
    }

    method ObserveFlush()
      modifies this
      ensures View() == Observe(old(View()), CdcFlush)
    {
      flushes := Saturated(flushes);
      milestones := milestones[FLUSH := true];
    }

    method ObserveComplete()
      modifies this
      ensures View() == Observe(old(View()), CdcComplete)
    {
      completions := Saturated(completions);
      milestones := milestones[COMPLETE := true];
    }

    method ObserveTcpIo(newWrite: TcpIo, newOutput: TcpIo) returns (status: Status)
      modifies this
      ensures View() == Observe(old(View()), TcpIo(newWrite, newOutput))
      ensures status == if newWrite == NotRun || !IoPair(newWrite, newOutput) then ARGUMENT else OK
    {
      if newWrite == NotRun || !IoPair(newWrite, newOutput) {
        return ARGUMENT;
      }
      write, output := newWrite, newOutput;
      milestones := milestones[TCP_WRITE := true];
      if newOutput != NotRun {
        milestones := milestones[TCP_OUTPUT := true];
      } else {
        milestones := milestones[TCP_OUTPUT := false];
      }
      status := OK;
    }
  }

  // ----- classification -----

  datatype Result =
    | CredentialFailure | NetworkInitFailure | WifiStartFailure | WifiFailure | WifiTimeout
    | TcpFailure | TcpTimeout | NoCdcCiphertext | TcpWriteFailure | TcpOutputFailure | NoTcpRx
    | TcpRxWithoutCdcTx | EnqueueWithoutFlush | ApplicationTimeout | FlushWithoutComplete
    | Completed | InternalFailure

  datatype Trigger =
    | OnCredentialFailure | OnNetworkInitFailure | OnWifiStartFailure | OnWifiFailure | OnWifiTimeout
    | OnTcpFailure | OnTcpTimeout | OnTcpWriteFailure | OnTcpOutputFailure | OnApplicationTimeout
    | OnDtrClosed | OnComplete | OnInternalFailure

  predicate Quiet(s: State) {
    !AnyData(s.milestones) && s.cdcRx == 0 && s.tcpRx == 0 && s.enqueues == 0 && s.flushes == 0 && s.completions == 0
    && s.write == NotRun && s.output == NotRun
  }

  predicate PipelineComplete(s: State) {
    AtStage(s.milestones, 13) && s.cdcRx != 0 && s.tcpRx != 0 && s.enqueues != 0 && s.flushes != 0
    && s.completions != 0 && s.write == Done && s.output == Done
  }

  /** `result_matches_state`. */
  predicate Matches(s: State, r: Result) {
    && Consistent(s)
    && match r
       case CredentialFailure => AtStage(s.milestones, 1) && Quiet(s)
       case NetworkInitFailure => AtStage(s.milestones, 2) && Quiet(s)
       case WifiStartFailure => AtStage(s.milestones, 3) && Quiet(s)
       case WifiFailure => AtStage(s.milestones, 4) && Quiet(s)
       case WifiTimeout => AtStage(s.milestones, 4) && Quiet(s)
       case TcpFailure => AtStage(s.milestones, 5) && Quiet(s)
       case TcpTimeout => AtStage(s.milestones, 5) && Quiet(s)
       case NoCdcCiphertext => (AtStage(s.milestones, 0) || AtStage(s.milestones, 6)) && Quiet(s)
       case TcpWriteFailure =>
         s.cdcRx != 0 && s.write != Done && s.output == NotRun && s.tcpRx == 0 && s.enqueues == 0 && s.flushes == 0
         && ((s.write == NotRun && AtStage(s.milestones, 7)) || (s.write != NotRun && AtStage(s.milestones, 8)))
       case TcpOutputFailure =>
         AtStage(s.milestones, 9) && s.cdcRx != 0 && s.write == Done && s.output != Done && s.output != NotRun
         && s.tcpRx == 0 && s.enqueues == 0 && s.flushes == 0
       case NoTcpRx =>
         AtStage(s.milestones, 9) && s.cdcRx != 0 && s.write == Done && s.output == Done
         && s.tcpRx == 0 && s.enqueues == 0 && s.flushes == 0
       case TcpRxWithoutCdcTx =>
         AtStage(s.milestones, 10) && s.cdcRx != 0 && s.tcpRx != 0 && s.write == Done && s.output == Done
         && s.enqueues == 0 && s.flushes == 0
       case EnqueueWithoutFlush =>
         AtStage(s.milestones, 11) && s.cdcRx != 0 && s.tcpRx != 0 && s.enqueues != 0 && s.flushes == 0
         && s.completions == 0 && s.write == Done && s.output == Done
       case FlushWithoutComplete =>
         AtStage(s.milestones, 12) && s.cdcRx != 0 && s.tcpRx != 0 && s.enqueues != 0 && s.flushes != 0
         && s.completions == 0 && s.write == Done && s.output == Done
       case ApplicationTimeout => PipelineComplete(s)
       case Completed => PipelineComplete(s)
       case InternalFailure => true
  }

  function IncompleteResult(s: State): Result {
    if s.cdcRx == 0 then NoCdcCiphertext
    else if s.write != Done then TcpWriteFailure
    else if s.output != Done then TcpOutputFailure
    else if s.tcpRx == 0 then NoTcpRx
    else if s.enqueues == 0 then TcpRxWithoutCdcTx
    else if s.flushes == 0 then EnqueueWithoutFlush
    else if s.completions == 0 then FlushWithoutComplete
    else ApplicationTimeout
  }

  function Candidate(s: State, trigger: Trigger): Result {
    match trigger
    case OnCredentialFailure => CredentialFailure
    case OnNetworkInitFailure => NetworkInitFailure
    case OnWifiStartFailure => WifiStartFailure
    case OnWifiFailure => WifiFailure
    case OnWifiTimeout => WifiTimeout
    case OnTcpFailure => TcpFailure
    case OnTcpTimeout => TcpTimeout
    case OnTcpWriteFailure => TcpWriteFailure
    case OnTcpOutputFailure => TcpOutputFailure
    case OnInternalFailure => InternalFailure
    case OnDtrClosed => if PipelineComplete(s) then Completed else IncompleteResult(s)
    case OnApplicationTimeout => IncompleteResult(s)
    case OnComplete => Completed
  }

  /** `pbns_raw_diagnostic_classify`. */
  function Classify(s: State, trigger: Trigger): (r: Result)
    ensures Consistent(s) ==> Matches(s, r)
    ensures !Consistent(s) ==> r == InternalFailure
  {
    if Consistent(s) && Matches(s, Candidate(s, trigger)) then Candidate(s, trigger) else InternalFailure
  }

  /** What the milestones alone say about a session that ended after `n` of them, in order. */
  function Diagnosis(n: nat, output: TcpIo): Result {
    if n == 0 || n == 6 then NoCdcCiphertext
    else if n == 7 || n == 8 then TcpWriteFailure
    else if n == 9 then (if output == Done then NoTcpRx else TcpOutputFailure)
    else if n == 10 then TcpRxWithoutCdcTx
    else if n == 11 then EnqueueWithoutFlush
    else if n == 12 then FlushWithoutComplete
    else if n == 13 then ApplicationTimeout
    else InternalFailure
  }

  /** A session that can be diagnosed: its milestones came in order, up to none, or to a point in the transfer. */
  predicate Diagnosable(s: State, n: nat) {
    AtStage(s.milestones, n) && (n == 0 || 6 <= n <= 13) && (n >= 10 ==> s.output == Done)
  }

  /** A timeout names the first missing milestone exactly when the session is diagnosable. */
  lemma TimeoutNamesFirstMissing(s: State, n: nat)
    requires Consistent(s) && AtStage(s.milestones, n) && n <= 13
    ensures Diagnosable(s, n) ==> Classify(s, OnApplicationTimeout) == Diagnosis(n, s.output)
    ensures !Diagnosable(s, n) ==> Classify(s, OnApplicationTimeout) == InternalFailure
    ensures Classify(s, OnDtrClosed) ==
            if Diagnosable(s, n) && n == 13 then Completed else Classify(s, OnApplicationTimeout)
  {
  }

  /** Milestones out of order are never given a cause. */
  lemma DisorderIsInternal(s: State, trigger: Trigger)
    requires Consistent(s) && forall n {:trigger AtStage(s.milestones, n)} :: 0 <= n <= 13 ==> !AtStage(s.milestones, n)
    ensures Classify(s, trigger) == InternalFailure
  {
  }

  // ----- the scratch record -----

  type Words = w: seq<u32> | |w| == 8 witness [0, 0, 0, 0, 0, 0, 0, 0]

  const MAGIC: u32 := 0x5042_5244

  function Code(r: Result): u32 {
    match r
    case CredentialFailure => 0x9201
    case NetworkInitFailure => 0x9202
    case WifiStartFailure => 0x9203
    case WifiFailure => 0x9204
    case WifiTimeout => 0x9205
    case TcpFailure => 0x9206
    case TcpTimeout => 0x9207
    case NoCdcCiphertext => 0x9208
    case TcpWriteFailure => 0x9209
    case TcpOutputFailure => 0x9210
    case NoTcpRx => 0x9211
    case TcpRxWithoutCdcTx => 0x9212
    case EnqueueWithoutFlush => 0x9213
    case ApplicationTimeout => 0x9214
    case FlushWithoutComplete => 0x9215
    case Completed => 0x9298
    case InternalFailure => 0x9299
  }

  /** The result a code stands for, if it is terminal. */
  function ResultOf(code: u32): (r: Option<Result>)
    ensures r.Some? ==> Code(r.value) == code
  {
    if code == 0x9201 then Some(CredentialFailure)
    else if code == 0x9202 then Some(NetworkInitFailure)
    else if code == 0x9203 then Some(WifiStartFailure)
    else if code == 0x9204 then Some(WifiFailure)
    else if code == 0x9205 then Some(WifiTimeout)
    else if code == 0x9206 then Some(TcpFailure)
    else if code == 0x9207 then Some(TcpTimeout)
    else if code == 0x9208 then Some(NoCdcCiphertext)
    else if code == 0x9209 then Some(TcpWriteFailure)
    else if code == 0x9210 then Some(TcpOutputFailure)
    else if code == 0x9211 then Some(NoTcpRx)
    else if code == 0x9212 then Some(TcpRxWithoutCdcTx)
    else if code == 0x9213 then Some(EnqueueWithoutFlush)
    else if code == 0x9214 then Some(ApplicationTimeout)
    else if code == 0x9215 then Some(FlushWithoutComplete)
    else if code == 0x9298 then Some(Completed)
    else if code == 0x9299 then Some(InternalFailure)
    else None
  }

  lemma CodesAreDistinct(r: Result)
    ensures ResultOf(Code(r)) == Some(r)
  {
  }

  /** A bit field as a number, lowest bit first. */
  function Value(bits: seq<bool>): nat {
    if bits == [] then 0 else (if bits[0] then 1 else 0) + 2 * Value(bits[1..])
  }

  function Bits(value: nat, width: nat): (bits: seq<bool>)
    ensures |bits| == width
  {
    if width == 0 then [] else [value % 2 == 1] + Bits(value / 2, width - 1)
  }

  lemma {:induction false} BitsOfValue(bits: seq<bool>)
    ensures Bits(Value(bits), |bits|) == bits
    decreases |bits|
  {
    if bits != [] {
      BitsOfValue(bits[1..]);
    }
  }

  function Power2(width: nat): nat {
    if width == 0 then 1 else 2 * Power2(width - 1)
  }

  lemma {:induction false} ValueOfBits(value: nat, width: nat)
    requires value < Power2(width)
    ensures Value(Bits(value, width)) == value
    decreases width
  {
    if width != 0 {
      ValueOfBits(value / 2, width - 1);
      assert Bits(value, width)[1..] == Bits(value / 2, width - 1);
    }
  }

  lemma {:induction false} ValueBound(bits: seq<bool>)
    ensures Value(bits) < Power2(|bits|)
    decreases |bits|
  {
    if bits != [] {
      ValueBound(bits[1..]);
    }
  }

  const MILESTONE_LIMIT: nat := 0x2000

  lemma ThirteenBits()
    ensures Power2(13) == MILESTONE_LIMIT
  {
    assert Power2(4) == 16;
    assert Power2(8) == 256;
    assert Power2(12) == 4096;
  }

  function MilestoneWord(m: Milestones): (w: u32)
    ensures w < MILESTONE_LIMIT
  {
    ValueBound(m);
    ThirteenBits();
    Value(m)
  }

  function IoCode(io: TcpIo): (c: byte)
    ensures c < 4
  {
    match io
    case NotRun => 0
    case Done => 1
    case Retry => 2
    case Failed => 3
  }

  function IoOf(code: nat): TcpIo
    requires code < 4
  {
    if code == 0 then NotRun else if code == 1 then Done else if code == 2 then Retry else Failed
  }

  /** Two halves in one word. */
  function Join(low: u16, high: u16): u32 {
    var l: int, h: int := low, high;
    l + h * 0x1_0000
  }

  function Low(w: u32): u16 {
    w % 0x1_0000
  }

  function High(w: u32): u16 {
    w / 0x1_0000
  }

  lemma HalvesOfJoin(low: u16, high: u16)
    ensures Low(Join(low, high)) == low && High(Join(low, high)) == high
  {
  }

  lemma JoinOfHalves(w: u32)
    ensures Join(Low(w), High(w)) == w
  {
  }

  /** The two results share the low half of word 6. */
  function IoHalf(write: TcpIo, output: TcpIo): u16 {
    var w: int, o: int := IoCode(write), IoCode(output);
    w + o * 0x100
  }

  lemma IoHalfRoundTrip(half: u16)
    requires half % 0x100 < 4 && half / 0x100 < 4
    ensures IoHalf(IoOf(half % 0x100), IoOf(half / 0x100)) == half
  {
  }

  lemma IoOfHalf(write: TcpIo, output: TcpIo)
    ensures var half := IoHalf(write, output);
            half % 0x100 == IoCode(write) && half / 0x100 == IoCode(output)
  {
  }

  function HalfOctets(h: u16): (s: seq<byte>)
    ensures |s| == 2
  {
    [h % 0x100, h / 0x100]
  }

  lemma HalfOctetsInjective(a: u16, b: u16)
    requires HalfOctets(a) == HalfOctets(b)
    ensures a == b
  {
    assert HalfOctets(a)[0] == HalfOctets(b)[0] && HalfOctets(a)[1] == HalfOctets(b)[1];
  }

  /** `store_u32_le`. */
  function LittleEndian(w: u32): (s: seq<byte>)
    ensures |s| == 4
  {
    HalfOctets(Low(w)) + HalfOctets(High(w))
  }

  function Octets(words: seq<u32>): (s: seq<byte>)
    ensures |s| == 4 * |words|
  {
    if words == [] then [] else LittleEndian(words[0]) + Octets(words[1..])
  }

  /** `scratch_crc`. */
  function ScratchCheck(check: Check, words: Words): u32 {
    check(Octets(words[1..7]))
  }

  /** Words 1 to 6. */
  function Fields(s: State, r: Result): (w: seq<u32>)
    ensures |w| == 6
  {
    [Code(r), 0xffff_ffff - Code(r), MilestoneWord(s.milestones), Join(s.cdcRx, s.tcpRx),
     Join(s.enqueues, s.flushes), Join(IoHalf(s.write, s.output), s.completions)]
  }

  /** `pbns_raw_diagnostic_scratch_encode`; None is the argument error, which leaves the words zero. */
  function Encode(check: Check, s: State, r: Result): Option<Words> {
    if !Matches(s, r) then None
    else Some([MAGIC] + Fields(s, r) + [check(Octets(Fields(s, r)))])
  }

  /** The state in words 3 to 6, if they are well formed. */
  function StateOf(w: Words): Option<State> {
    var io := Low(w[6]);
    if io % 0x100 >= 4 || io / 0x100 >= 4 || w[3] >= MILESTONE_LIMIT then None
    else Some(State(Bits(w[3], 13), Low(w[4]), High(w[4]), Low(w[5]), High(w[5]), High(w[6]),
                    IoOf(io % 0x100), IoOf(io / 0x100)))
  }

  datatype Decoded = Decoded(state: State, result: Result)

  /** `pbns_raw_diagnostic_scratch_decode`; None is the format error. */
  function Decode(check: Check, w: Words): Option<Decoded> {
    if w[0] != MAGIC || w[2] != 0xffff_ffff - w[1] || ResultOf(w[1]).None? || w[7] != ScratchCheck(check, w) then None
    else
      var s := StateOf(w);
      if s.None? || !Matches(s.value, ResultOf(w[1]).value) then None
      else Some(Decoded(s.value, ResultOf(w[1]).value))
  }

  lemma StateOfFields(s: State, r: Result, w: Words)
    requires w[1..7] == Fields(s, r)
    ensures StateOf(w) == Some(s)
  {
    assert w[3] == w[1..7][2] && w[4] == w[1..7][3] && w[5] == w[1..7][4] && w[6] == w[1..7][5];
    BitsOfValue(s.milestones);
    HalvesOfJoin(s.cdcRx, s.tcpRx);
    HalvesOfJoin(s.enqueues, s.flushes);
    HalvesOfJoin(IoHalf(s.write, s.output), s.completions);
    IoOfHalf(s.write, s.output);
  }

  lemma FieldsOfState(w: Words)
    requires StateOf(w).Some? && w[2] == 0xffff_ffff - w[1] && ResultOf(w[1]).Some?
    ensures w[1..7] == Fields(StateOf(w).value, ResultOf(w[1]).value)
  {
    ThirteenBits();
    ValueOfBits(w[3], 13);
    JoinOfHalves(w[4]);
    JoinOfHalves(w[5]);
    JoinOfHalves(w[6]);
    IoHalfRoundTrip(Low(w[6]));
  }

  lemma EncodedWords(check: Check, s: State, r: Result)
    requires Matches(s, r)
    ensures var w := Encode(check, s, r).value; |w| == 8 && w[1..7] == Fields(s, r)
  {
  }

  /** Decoding accepts exactly what encoding writes, and gives back what was encoded. */
  lemma DecodeExactly(check: Check, w: Words, s: State, r: Result)
    ensures Decode(check, w) == Some(Decoded(s, r)) <==> Encode(check, s, r) == Some(w)
  {
    if Encode(check, s, r) == Some(w) {
      EncodedWords(check, s, r);
      StateOfFields(s, r, w);
      CodesAreDistinct(r);
    }
    if Decode(check, w) == Some(Decoded(s, r)) {
      FieldsOfState(w);
      assert w == [w[0]] + w[1..7] + [w[7]];
    }
  }

  /** Every consistent state and trigger: the classified result can be encoded and decodes to itself. */
  lemma ClassifiedRoundTrip(check: Check, s: State, trigger: Trigger)
    requires Consistent(s)
    ensures var w := Encode(check, s, Classify(s, trigger));
            w.Some? && Decode(check, w.value) == Some(Decoded(s, Classify(s, trigger)))
  {
    var r := Classify(s, trigger);
    DecodeExactly(check, Encode(check, s, r).value, s, r);
  }

  lemma LittleEndianInjective(a: u32, b: u32)
    requires LittleEndian(a) == LittleEndian(b)
    ensures a == b
  {
    assert LittleEndian(a)[..2] == HalfOctets(Low(a)) && LittleEndian(a)[2..] == HalfOctets(High(a));
    assert LittleEndian(b)[..2] == HalfOctets(Low(b)) && LittleEndian(b)[2..] == HalfOctets(High(b));
    HalfOctetsInjective(Low(a), Low(b));
    HalfOctetsInjective(High(a), High(b));
    JoinOfHalves(a);
    JoinOfHalves(b);
  }

  /** One changed word changes at most four consecutive octets, and at least one. */
  lemma {:induction false} OneWordIsAWindow(a: seq<u32>, b: seq<u32>, k: nat)
    requires |a| == |b| && k < |a| && a[..k] == b[..k] && a[k] != b[k] && a[k + 1..] == b[k + 1..]
    ensures Crc32c.AgreeOutside(Octets(a), Octets(b), 4 * k) && Octets(a) != Octets(b)
    decreases k
  {
    if k == 0 {
      assert a[1..] == b[1..];
      if Octets(a) == Octets(b) {
        assert Octets(a)[..4] == LittleEndian(a[0]) && Octets(b)[..4] == LittleEndian(b[0]);
        LittleEndianInjective(a[0], b[0]);
      }
    } else {
      assert a[0] == a[..k][0] && b[0] == b[..k][0];
      assert a[1..][..k - 1] == a[..k][1..] && b[1..][..k - 1] == b[..k][1..];
      OneWordIsAWindow(a[1..], b[1..], k - 1);
      Shifted(LittleEndian(a[0]), Octets(a[1..]), Octets(b[1..]), 4 * (k - 1));
    }
  }

  lemma Shifted(head: seq<byte>, a: seq<byte>, b: seq<byte>, at: nat)
    requires |head| == 4 && Crc32c.AgreeOutside(a, b, at) && a != b
    ensures Crc32c.AgreeOutside(head + a, head + b, at + 4) && head + a != head + b
  {
    assert (head + a)[4..] == a && (head + b)[4..] == b;
  }

  /** A record in which any one of the eight words has changed is refused. */
  lemma OneWordIsDetected(check: Check, w: Words, k: nat, v: u32)
    requires Crc32c.Detects(check)
    requires k < 8 && Decode(check, w).Some? && v != w[k]
    ensures Decode(check, w[k := v]).None?
  {
    var x: Words := w[k := v];
    if 1 <= k <= 6 {
      OneWordIsAWindow(w[1..7], x[1..7], k - 1);
    } else {
      assert x[1..7] == w[1..7];
    }
  }

  // ----- the reboot -----

  lemma InitialMatches()
    ensures Matches(INITIAL, InternalFailure)
  {
    assert NONE[0] == NONE[1] == NONE[2] == NONE[3] == NONE[4] == NONE[5] == NONE[6] == false;
    assert NONE[7] == NONE[8] == NONE[9] == NONE[10] == NONE[11] == NONE[12] == false;
  }

  /** The record `write_scratch_and_reboot` leaves: the one asked for, or an internal failure with nothing observed. */
  function Record(s: State, r: Result): Decoded {
    if Matches(s, r) then Decoded(s, r) else Decoded(INITIAL, InternalFailure)
  }

  /**
   * The contents of the scratch registers after each write of the reboot path: first the
   * register that arming the watchdog overwrites, then the cleared magic and the copied words,
   * last the magic.
   */
  predicate Trace(log: seq<Words>, before: Words, sdk: u32, words: Words) {
    && |log| == 10
    && log[0] == before[4 := sdk]
    && (forall i {:trigger log[i]} :: 1 <= i < 9 ==> log[i][0] == 0)
    && log[9] == words
  }

  method CopyRecord(scratch: array<u32>, words: Words, sdk: u32) returns (ghost log: seq<Words>)
    requires scratch.Length == 8
    modifies scratch
    ensures Trace(log, old(scratch[..]), sdk, words) && scratch[..] == words
  {
    scratch[4] := sdk;
    log := [scratch[..]];
    scratch[0] := 0;
    log := log + [scratch[..]];
    for i := 1 to 8
      invariant |log| == i + 1 && log[0] == old(scratch[..])[4 := sdk]
      invariant forall k {:trigger log[k]} :: 1 <= k <= i ==> log[k][0] == 0
      invariant scratch[0] == 0
      invariant forall k :: 1 <= k < i ==> scratch[k] == words[k]
    {
      scratch[i] := words[i];
      log := log + [scratch[..]];
    }
    scratch[0] := words[0];
    assert scratch[..] == words;
    log := log + [scratch[..]];
  }

  /**
   * A restart finds nothing readable once the copy has begun and until its last write, and then
   * the new record. Before the copy it finds what arming the watchdog left, which is unreadable
   * or the old record if there was one.
   */
  predicate Recoverable(check: Check, log: seq<Words>, before: Words, after: Decoded) {
    && |log| == 10
    && (forall i {:trigger log[i]} :: 1 <= i < 9 ==> Decode(check, log[i]).None?)
    && Decode(check, log[9]) == Some(after)
    && (Decode(check, before).Some? ==> Decode(check, log[0]).None? || log[0] == before)
    && (before[0] != MAGIC ==> Decode(check, log[0]).None?)
  }

  lemma NoMagicNoRecord(check: Check, w: Words)
    requires w[0] != MAGIC
    ensures Decode(check, w).None?
  {
  }

  lemma OverwrittenIsRecoverable(check: Check, before: Words, sdk: u32)
    requires Crc32c.Detects(check) && Decode(check, before).Some?
    ensures Decode(check, before[4 := sdk]).None? || before[4 := sdk] == before
  {
    if sdk != before[4] {
      OneWordIsDetected(check, before, 4, sdk);
    }
  }

  /** Registers one word away from a record are unreadable, and arming the watchdog can make them readable. */
  lemma OverwriteCanRestore(check: Check, w: Words, v: u32)
    requires Crc32c.Detects(check) && Decode(check, w).Some? && v != w[4]
    ensures Decode(check, w[4 := v]).None? && Decode(check, w[4 := v][4 := w[4]]) == Decode(check, w)
  {
    OneWordIsDetected(check, w, 4, v);
    assert w[4 := v][4 := w[4]] == w;
  }

  lemma TraceIsRecoverable(check: Check, log: seq<Words>, before: Words, sdk: u32, words: Words, after: Decoded)
    requires Crc32c.Detects(check) && Trace(log, before, sdk, words) && Decode(check, words) == Some(after)
    ensures Recoverable(check, log, before, after)
  {
    forall i | 1 <= i < 9 ensures Decode(check, log[i]).None? {
      NoMagicNoRecord(check, log[i]);
    }
    if Decode(check, before).Some? {
      OverwrittenIsRecoverable(check, before, sdk);
    }
    if before[0] != MAGIC {
      NoMagicNoRecord(check, log[0]);
    }
  }

  method RecordWords(check: Check, s: State, r: Result) returns (words: Words)
    ensures Decode(check, words) == Some(Record(s, r))
  {
    var encoded := Encode(check, s, r);
    if encoded.None? {
      InitialMatches();
      encoded := Encode(check, INITIAL, InternalFailure);
    }
    words := encoded.value;
    DecodeExactly(check, words, Record(s, r).state, Record(s, r).result);
  }
}

/** The diagnostic with CRC-32C, as the firmware uses it. */
module RawTunnelDiagnostic {
  import opened Bytes
  import opened Diagnostic
  import Crc32c

  lemma AnyOneWordIsDetected(w: Words, k: nat, v: u32)
    requires k < 8 && Decode(Crc32c.Checksum, w).Some? && v != w[k]
    ensures Decode(Crc32c.Checksum, w[k := v]).None?
  {
    Crc32c.ChecksumDetects();
    OneWordIsDetected(Crc32c.Checksum, w, k, v);
  }

  /**
   * The reboot path, for any state and result, whatever the registers held and whatever arming
   * the watchdog leaves in register 4 (`sdk`): the new record is there at the end, and a restart
   * after any of the writes finds no mixture of the two.
   */
  method WriteScratchAndReboot(s: State, r: Result, scratch: array<u32>, sdk: u32) returns (ghost log: seq<Words>)
    requires scratch.Length == 8
    modifies scratch
    ensures Decode(Crc32c.Checksum, scratch[..]) == Some(Record(s, r))
    ensures Recoverable(Crc32c.Checksum, log, old(scratch[..]), Record(s, r)) && log[0] == old(scratch[..])[4 := sdk]
  {
    var words := RecordWords(Crc32c.Checksum, s, r);
    log := CopyRecord(scratch, words, sdk);
    Crc32c.ChecksumDetects();
    TraceIsRecoverable(Crc32c.Checksum, log, old(scratch[..]), sdk, words, Record(s, r));
  }
}
