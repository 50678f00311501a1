/** The connection controller (pico/src/network.c) as a step machine, and its whole runs. */
module NetworkController {
  import opened Bytes

  const U32_MAX: u32 := 0xffff_ffff
  const BACKOFF_MAX_MS: nat := 8000
  const BACKOFF_MAX_SHIFT: nat := 5

  datatype Phase = Down | WifiConnecting | TcpConnecting | SessionConnecting | Ready | Backoff

  /** What the operations answer if this step calls them. */
  datatype Replies = Replies(wifiStart: Status, wifiPoll: Status, tcpPoll: Status, sessionPoll: Status,
                             random: Status, randomValue: u32)

  datatype Call =
    | Start(startStatus: Status) | WifiPoll(wifiStatus: Status) | TcpPoll(tcpStatus: Status)
    | SessionPoll(sessionStatus: Status) | Close | Random(randomStatus: Status)

  /** The calls made so far, latest first. */
  datatype History = Nothing | Then(earlier: History, call: Call)

  datatype Network = Network(phase: Phase, failureCount: u32, retryDeadline: u64, entered: u64,
                             failure: Status, active: bool)

  /** The outcome of a step; `delay` is the back-off it scheduled, if any. */
  datatype Stepped = Stepped(network: Network, status: Status, progress: bool, history: History, delay: Option<nat>)

  const INITIAL: Network := Network(Down, 0, 0, 0, OK, false)

  function Timeout(phase: Phase): nat {
    match phase
    case WifiConnecting => 30000
    case TcpConnecting => 10000
    case SessionConnecting => 15000
    case _ => 0
  }

  /** A quarter of a second, doubled for each failure up to the largest shift. */
  function Nominal(failures: nat): nat {
    match (if failures < BACKOFF_MAX_SHIFT then failures else BACKOFF_MAX_SHIFT)
    case 0 => 250
    case 1 => 500
    case 2 => 1000
    case 3 => 2000
    case 4 => 4000
    case _ => 8000
  }

  function Delay(failures: nat, random: u32): nat {
    var nominal := Nominal(failures);
    var jitter := random % (nominal / 4 + 1);
    if jitter > BACKOFF_MAX_MS - nominal then BACKOFF_MAX_MS else nominal + jitter
  }

  /** `close_active_connection`. */
  function Closing(n: Network, h: History): History {
    if n.active then Then(h, Call.Close) else h
  }

  /** `schedule_backoff`. */
  function ScheduleBackoff(n: Network, h: History, now: u64, replies: Replies, cause: Status): Stepped {
    var closed := n.(active := false);
    var asked := Then(Closing(n, h), Random(replies.random));
    if replies.random != OK then
      Stepped(closed.(phase := Down, retryDeadline := 0, entered := now, failure := replies.random),
              replies.random, true, asked, None)
    else
      var delay := Delay(n.failureCount, replies.randomValue);
      Stepped(closed.(phase := Backoff, entered := now, retryDeadline := Saturated(now, delay),
                      failureCount := if n.failureCount < U32_MAX then n.failureCount + 1 else n.failureCount),
              cause, true, asked, Some(delay))
  }

  function Saturated(now: u64, delay: nat): u64 {
    if now > U64_MAX - delay then U64_MAX else now + delay
  }

  /** `poll_connecting_stage`, whose poll has been added to the history. */
  function PollStage(n: Network, poll: Status, h: History, next: Phase, now: u64, replies: Replies): Stepped {
    if poll == WOULD_BLOCK then Stepped(n, OK, false, h, None)
    else if poll != OK then ScheduleBackoff(n, h, now, replies, poll)
    else
      var moved := n.(phase := next, entered := now);
      Stepped(if next == Ready then moved.(failureCount := 0, retryDeadline := 0) else moved, OK, true, h, None)
  }

  predicate TimedOut(n: Network, now: u64) {
    Timeout(n.phase) > 0 && now >= n.entered && now - n.entered >= Timeout(n.phase)
  }

  /** `pbns_network_step`, adding its calls to the history. */
  function Step(n: Network, h: History, replies: Replies, now: u64, usb: bool): Stepped {
    if n.failure != OK then Stepped(n, n.failure, false, h, None)
    else if !usb then
      if n.phase == Down then Stepped(n, OK, false, h, None)
      else Stepped(Network(Down, 0, 0, 0, OK, false), OK, true, Closing(n, h), None)
    else if TimedOut(n, now) then ScheduleBackoff(n, h, now, replies, TIMEOUT)
    else match n.phase
      case Down =>
        var started, h1 := n.(active := true), Then(h, Start(replies.wifiStart));
        if replies.wifiStart != OK then ScheduleBackoff(started, h1, now, replies, replies.wifiStart)
        else Stepped(started.(phase := WifiConnecting, entered := now), OK, true, h1, None)
      case WifiConnecting =>
        PollStage(n, replies.wifiPoll, Then(h, WifiPoll(replies.wifiPoll)), TcpConnecting, now, replies)
      case TcpConnecting =>
        PollStage(n, replies.tcpPoll, Then(h, TcpPoll(replies.tcpPoll)), SessionConnecting, now, replies)
      case SessionConnecting =>
        PollStage(n, replies.sessionPoll, Then(h, SessionPoll(replies.sessionPoll)), Ready, now, replies)
      case Ready =>
        var h1 := Then(h, SessionPoll(replies.sessionPoll));
        if replies.sessionPoll == OK || replies.sessionPoll == WOULD_BLOCK then Stepped(n, OK, false, h1, None)
        else ScheduleBackoff(n, h1, now, replies, replies.sessionPoll)
      case Backoff =>
        if now >= n.retryDeadline then Stepped(n.(phase := Down, entered := now), OK, true, h, None)
        else Stepped(n, OK, false, h, None)
  }

  // ----- the order of calls -----

  /** How far one connection attempt has come, judged from the calls alone. */
  datatype Stage = Closed | Started | WifiUp | TcpUp | SessionUp | Failing | Illegal

  /** What a call does to the stage; anything out of order is illegal. */
  function After(stage: Stage, call: Call): Stage {
    match call
    case Start(s) => if stage == Closed then (if s == OK then Started else Failing) else Illegal
    case WifiPoll(s) => if stage == Started then Polled(s, Started, WifiUp) else Illegal
    case TcpPoll(s) => if stage == WifiUp then Polled(s, WifiUp, TcpUp) else Illegal
    case SessionPoll(s) =>
      if stage == TcpUp then Polled(s, TcpUp, SessionUp)
      else if stage == SessionUp then Polled(s, SessionUp, SessionUp) else Illegal
    case Close => if stage == Closed || stage == Illegal then Illegal else Closed
    case Random(_) => if stage == Closed then Closed else Illegal
  }

  function Polled(status: Status, waiting: Stage, done: Stage): Stage {
    if status == OK then done else if status == WOULD_BLOCK then waiting else Failing
  }

  function StageOf(h: History): Stage {
    match h
    case Nothing => Closed
    case Then(earlier, call) => After(StageOf(earlier), call)
  }

  function Expected(phase: Phase): Stage {
    match phase
    case WifiConnecting => Started
    case TcpConnecting => WifiUp
    case SessionConnecting => TcpUp
    case Ready => SessionUp
    case _ => Closed
  }

  function Starts(h: History): nat {
    match h
    case Nothing => 0
    case Then(earlier, call) => Starts(earlier) + if call.Start? then 1 else 0
  }

  function Closes(h: History): nat {
    match h
    case Nothing => 0
    case Then(earlier, call) => Closes(earlier) + if call.Close? then 1 else 0
  }

  /** In any legal sequence of calls every start is matched by one close, except one that is still open. */
  lemma {:induction false} LegalCallsBalance(h: History)
    requires StageOf(h) != Illegal
    ensures Starts(h) == Closes(h) + if StageOf(h) == Closed then 0 else 1
  {
    if h.Then? {
      LegalCallsBalance(h.earlier);
    }
  }

  // ----- back-off -----

  /** A delay lies between its nominal value and a quarter more, and never exceeds eight seconds. */
  lemma DelayBounds(failures: nat, random: u32)
    ensures Nominal(failures) <= Delay(failures, random) <= BACKOFF_MAX_MS
    ensures 4 * Delay(failures, random) <= 5 * Nominal(failures)
    ensures failures >= BACKOFF_MAX_SHIFT ==> Delay(failures, random) == BACKOFF_MAX_MS
  {
  }

  lemma NominalDoubles(failures: nat, later: nat)
    requires failures < later
    ensures Nominal(later) >= if failures < BACKOFF_MAX_SHIFT then 2 * Nominal(failures) else Nominal(failures)
  {
  }

  /** The delays of a streak of failures: the k-th is a possible k-th delay. */
  predicate Streak(delays: seq<nat>) {
    forall k :: 0 <= k < |delays| ==>
      && Nominal(k) <= delays[k] <= BACKOFF_MAX_MS && 4 * delays[k] <= 5 * Nominal(k)
      && (k >= BACKOFF_MAX_SHIFT ==> delays[k] == BACKOFF_MAX_MS)
  }

  lemma StreakIsSorted(delays: seq<nat>, i: nat, j: nat)
    requires Streak(delays) && i <= j < |delays|
    ensures delays[i] <= delays[j]
  {
    if i < j {
      NominalDoubles(i, j);
    }
  }

  // ----- runs -----

  datatype Input = Input(replies: Replies, now: u64, usb: bool)

  /** A controller with its history: all calls so far, and the delays of the current streak of failures. */
  datatype Run = Run(network: Network, history: History, streak: seq<nat>)

  const START: Run := Run(INITIAL, Nothing, [])

  /** The streak ends when the failure count is reset. */
  function NextStreak(streak: seq<nat>, s: Stepped): seq<nat> {
    if s.network.failureCount == 0 then [] else if s.delay.Some? then streak + [s.delay.value] else streak
  }

  function RunStep(r: Run, input: Input): Run {
    var s := Step(r.network, r.history, input.replies, input.now, input.usb);
    Run(s.network, s.history, NextStreak(r.streak, s))
  }

  function RunAll(r: Run, inputs: seq<Input>): Run
    decreases |inputs|
  {
    if inputs == [] then r else RunStep(RunAll(r, inputs[..|inputs| - 1]), inputs[|inputs| - 1])
  }

  /** The order of calls. */
  predicate InOrder(n: Network, h: History) {
    && StageOf(h) == Expected(n.phase) && n.active == (Expected(n.phase) != Closed)
    && (n.failure != OK ==> n.phase == Down)
  }

  /** The delays. */
  predicate InStreak(n: Network, streak: seq<nat>) {
    && n.failureCount == (if |streak| < U32_MAX then |streak| else U32_MAX)
    && Streak(streak)
    && (n.phase == Backoff ==> streak != [] && n.retryDeadline == Saturated(n.entered, streak[|streak| - 1]))
  }

  predicate Invariant(r: Run) {
    InOrder(r.network, r.history) && InStreak(r.network, r.streak)
  }

  lemma BackoffInOrder(n: Network, h: History, now: u64, replies: Replies, cause: Status)
    requires n.failure == OK && StageOf(h) != Illegal && n.active == (StageOf(h) != Closed)
    ensures var s := ScheduleBackoff(n, h, now, replies, cause); InOrder(s.network, s.history)
  {
    assert StageOf(Closing(n, h)) == Closed;
  }

  lemma PollInOrder(n: Network, poll: Status, h: History, next: Phase, now: u64, replies: Replies)
    requires n.failure == OK && n.active && Expected(n.phase) != Closed && Expected(next) != Closed
    requires StageOf(h) == Polled(poll, Expected(n.phase), Expected(next))
    ensures var s := PollStage(n, poll, h, next, now, replies); InOrder(s.network, s.history)
  {
    if poll != OK && poll != WOULD_BLOCK {
      BackoffInOrder(n, h, now, replies, poll);
    }
  }

  lemma StepInOrder(n: Network, h: History, input: Input)
    requires InOrder(n, h)
    ensures var s := Step(n, h, input.replies, input.now, input.usb); InOrder(s.network, s.history)
  {
    var replies, now := input.replies, input.now;
    if n.failure == OK && input.usb {
      if TimedOut(n, now) {
        BackoffInOrder(n, h, now, replies, TIMEOUT);
      } else {
        match n.phase
        case Down =>
          BackoffInOrder(n.(active := true), Then(h, Start(replies.wifiStart)), now, replies, replies.wifiStart);
        case WifiConnecting =>
          PollInOrder(n, replies.wifiPoll, Then(h, WifiPoll(replies.wifiPoll)), TcpConnecting, now, replies);
        case TcpConnecting =>
          PollInOrder(n, replies.tcpPoll, Then(h, TcpPoll(replies.tcpPoll)), SessionConnecting, now, replies);
        case SessionConnecting =>
          PollInOrder(n, replies.sessionPoll, Then(h, SessionPoll(replies.sessionPoll)), Ready, now, replies);
        case Ready =>
          BackoffInOrder(n, Then(h, SessionPoll(replies.sessionPoll)), now, replies, replies.sessionPoll);
        case Backoff =>
      }
    }
  }

  lemma StreakGrows(streak: seq<nat>, delay: nat, failures: nat)
    requires Streak(streak) && failures == (if |streak| < U32_MAX then |streak| else U32_MAX)
    requires Nominal(failures) <= delay <= BACKOFF_MAX_MS && 4 * delay <= 5 * Nominal(failures)
    requires failures >= BACKOFF_MAX_SHIFT ==> delay == BACKOFF_MAX_MS
    ensures Streak(streak + [delay])
  {
    assert Nominal(failures) == Nominal(|streak|);
  }

  /** What a step does to the failure count and the deadline. */
  lemma StepDelays(n: Network, h: History, input: Input)
    ensures var s := Step(n, h, input.replies, input.now, input.usb);
            if s.delay.Some? then
              && s.delay.value == Delay(n.failureCount, input.replies.randomValue)
              && s.network.phase == Backoff && s.network.entered == input.now
              && s.network.retryDeadline == Saturated(input.now, s.delay.value)
              && s.network.failureCount == (if n.failureCount < U32_MAX then n.failureCount + 1 else n.failureCount)
            else
              && (s.network.failureCount == n.failureCount || s.network.failureCount == 0)
              && (s.network.phase == Backoff ==> s.network == n)
  {
  }

  lemma StepInStreak(n: Network, h: History, streak: seq<nat>, input: Input)
    requires InStreak(n, streak)
    ensures var s := Step(n, h, input.replies, input.now, input.usb); InStreak(s.network, NextStreak(streak, s))
  {
    var s := Step(n, h, input.replies, input.now, input.usb);
    StepDelays(n, h, input);
    if s.delay.Some? {
      DelayBounds(n.failureCount, input.replies.randomValue);
      StreakGrows(streak, s.delay.value, n.failureCount);
    }
  }

  lemma {:induction false} RunKeepsInvariant(inputs: seq<Input>)
    ensures Invariant(RunAll(START, inputs))
    decreases |inputs|
  {
    if inputs != [] {
      var r, input := RunAll(START, inputs[..|inputs| - 1]), inputs[|inputs| - 1];
      RunKeepsInvariant(inputs[..|inputs| - 1]);
      StepInOrder(r.network, r.history, input);
      StepInStreak(r.network, r.history, r.streak, input);
    }
  }

  /**
   * After any run, for all clocks and replies: the operations were called in a legal order,
   * so the controller is ready exactly when start, WiFi, TCP and session succeeded in that
   * order since the last close; starts and closes balance except in the four open phases;
   * the delays of the current streak of failures never decrease and lie between their nominal
   * value and eight seconds; and a deadline is the time of the failure plus the last delay.
   */
  lemma EveryRun(inputs: seq<Input>, r: Run)
    requires r == RunAll(START, inputs)
    ensures StageOf(r.history) == Expected(r.network.phase)
    ensures r.network.phase == Ready <==> StageOf(r.history) == SessionUp
    ensures Starts(r.history) - Closes(r.history) ==
            if r.network.phase in {WifiConnecting, TcpConnecting, SessionConnecting, Ready} then 1 else 0
    ensures forall i, j :: 0 <= i <= j < |r.streak| ==> r.streak[i] <= r.streak[j] <= BACKOFF_MAX_MS
    ensures forall k :: 0 <= k < |r.streak| ==> Nominal(k) <= r.streak[k]
    ensures r.network.phase == Backoff ==>
              r.streak != [] && r.network.retryDeadline == Saturated(r.network.entered, r.streak[|r.streak| - 1])
  {
    RunKeepsInvariant(inputs);
    LegalCallsBalance(r.history);
    forall i, j | 0 <= i <= j < |r.streak| ensures r.streak[i] <= r.streak[j] {
      StreakIsSorted(r.streak, i, j);
    }
  }

  /**
   * A connecting phase is polled until its deadline of 30, 10 or 15 seconds and given up from
   * then on, unless the clock has gone back behind its start.
   */
  lemma DeadlinesAreExact(n: Network, h: History, replies: Replies, now: u64)
    requires n.failure == OK && (n.phase == WifiConnecting || n.phase == TcpConnecting || n.phase == SessionConnecting)
    ensures var limit := if n.phase == WifiConnecting then 30000 else if n.phase == TcpConnecting then 10000 else 15000;
            var s := Step(n, h, replies, now, true);
            var polled := Then(h, if n.phase == WifiConnecting then WifiPoll(replies.wifiPoll)
                                  else if n.phase == TcpConnecting then TcpPoll(replies.tcpPoll)
                                  else SessionPoll(replies.sessionPoll));
            if now >= n.entered + limit then
              s.history == Then(Closing(n, h), Random(replies.random)) && (replies.random == OK ==> s.status == TIMEOUT)
            else
              s.history == polled || s.history == Then(Closing(n, polled), Random(replies.random))
  {
  }

  /** A failing random source stops the controller for good: no further call, no further change. */
  lemma {:induction false} RandomFailureIsSticky(r: Run, inputs: seq<Input>)
    requires r.network.failure != OK && (r.network.failureCount == 0 ==> r.streak == [])
    ensures RunAll(r, inputs) == r
    decreases |inputs|
  {
    if inputs != [] {
      RandomFailureIsSticky(r, inputs[..|inputs| - 1]);
    }
  }

  /**
   * The manual promises that USB disconnection resets the retry state. The code resets it
   * exactly when the controller is neither down nor stopped, or there is nothing to reset.
   */
  lemma UsbLossResets(r: Run, replies: Replies, now: u64)
    ensures var after := RunStep(r, Input(replies, now, false)).network;
            && (after.failureCount == 0 <==>
                  r.network.failureCount == 0 || (r.network.failure == OK && r.network.phase != Down))
            && (r.network.failure == OK && r.network.phase != Down ==> after == INITIAL)
            && (r.network.failure != OK || r.network.phase == Down ==> after == r.network)
  {
  }

  /** A run in which it is not reset: a start fails, the back-off expires, and only then USB is lost. */
  lemma RetrySurvivesUsbLoss(replies: Replies)
    requires replies.wifiStart == TRANSPORT && replies.random == OK && replies.randomValue == 0
    ensures var inputs := [Input(replies, 0, true), Input(replies, 250, true), Input(replies, 251, false)];
            RunAll(START, inputs).network.phase == Down && RunAll(START, inputs).network.failureCount == 1
  {
    var failed, expired, lost := Input(replies, 0, true), Input(replies, 250, true), Input(replies, 251, false);
    var one := RunStep(START, failed);
    var two := RunStep(one, expired);
    assert one.network == Network(Backoff, 1, 250, 0, OK, false);
    assert two.network == Network(Down, 1, 250, 250, OK, false);
    assert RunStep(two, lost).network == two.network;
    assert [failed, expired, lost][..2] == [failed, expired];
    assert [failed, expired][..1] == [failed] && [failed][..0] == [];
    assert RunAll(START, [failed]) == RunStep(RunAll(START, []), failed);
    assert RunAll(START, [failed, expired]) == RunStep(RunAll(START, [failed]), expired);
  }

  // ----- the object -----

  class Controller {
    var phase: Phase
    var failureCount: u32
    var retryDeadline: u64
    var entered: u64
    var failure: Status
    var active: bool
    ghost var history: History

    ghost function View(): Network
      reads this
    {
      Network(phase, failureCount, retryDeadline, entered, failure, active)
    }

    constructor ()
      ensures View() == INITIAL && history == Nothing
    {
      phase, failureCount, retryDeadline, entered, failure, active := Down, 0, 0, 0, OK, false;
      history := Nothing;
    }

    /** The current phase has lasted too long. */
    predicate Expired(now: u64)
      reads this
      ensures Expired(now) <==> TimedOut(View(), now)
    {
      Timeout(phase) > 0 && now >= entered && now - entered >= Timeout(phase)
    }

    method CloseActive()
      modifies this
      ensures View() == old(View()).(active := false) && history == Closing(old(View()), old(history))
    {
      if active {
        history := Then(history, Call.Close);
        active := false;
      }
    }

    method Schedule(now: u64, replies: Replies, cause: Status) returns (status: Status)
      modifies this
      ensures var s := ScheduleBackoff(old(View()), old(history), now, replies, cause);
              View() == s.network && history == s.history && status == s.status
    {
      CloseActive();
      history := Then(history, Random(replies.random));
      if replies.random != OK {
        phase := Down;
        retryDeadline := 0;
        entered := now;
        failure := replies.random;
        status := replies.random;
      } else {
        var nominal := Nominal(failureCount);
        var jitter := replies.randomValue % (nominal / 4 + 1);
        var delay := if jitter > BACKOFF_MAX_MS - nominal then BACKOFF_MAX_MS else nominal + jitter;
        retryDeadline := if now > U64_MAX - delay then U64_MAX else now + delay;
        if failureCount < U32_MAX {
          failureCount := failureCount + 1;
        }
        phase := Backoff;
        entered := now;
        status := cause;
      }
    }

    method Poll(poll: Status, next: Phase, now: u64, replies: Replies) returns (status: Status, progress: bool)
      modifies this
      ensures var s := PollStage(old(View()), poll, old(history), next, now, replies);
              View() == s.network && history == s.history && status == s.status && progress == s.progress
    {
      status, progress := OK, false;
      if poll != WOULD_BLOCK {
        progress := true;
        if poll != OK {
          status := Schedule(now, replies, poll);
        } else {
          phase := next;
          entered := now;
          if next == Ready {
            failureCount := 0;
            retryDeadline := 0;
          }
        }
      }
    }

    /** `pbns_network_step`. */
    method Advance(replies: Replies, now: u64, usb: bool) returns (status: Status, progress: bool)
      modifies this
      ensures var s := Step(old(View()), old(history), replies, now, usb);
              View() == s.network && history == s.history && status == s.status && progress == s.progress
    {
      status, progress := failure, false;
      if failure == OK {
        if !usb {
          if phase != Down {
            CloseActive();
            phase := Down;
            failureCount := 0;
            retryDeadline := 0;
            entered := 0;
            progress := true;
          }
        } else if Expired(now) {
          status := Schedule(now, replies, TIMEOUT);
          progress := true;
        } else {
          match phase
          case Down =>
            active := true;
            history := Then(history, Start(replies.wifiStart));
            progress := true;
            if replies.wifiStart != OK {
              status := Schedule(now, replies, replies.wifiStart);
            } else {
              phase := WifiConnecting;
              entered := now;
            }
          case WifiConnecting =>
            history := Then(history, WifiPoll(replies.wifiPoll));
            status, progress := Poll(replies.wifiPoll, TcpConnecting, now, replies);
          case TcpConnecting =>
            history := Then(history, TcpPoll(replies.tcpPoll));
            status, progress := Poll(replies.tcpPoll, SessionConnecting, now, replies);
          case SessionConnecting =>
            history := Then(history, SessionPoll(replies.sessionPoll));
            status, progress := Poll(replies.sessionPoll, Ready, now, replies);
          case Ready =>
            history := Then(history, SessionPoll(replies.sessionPoll));
            if replies.sessionPoll != OK && replies.sessionPoll != WOULD_BLOCK {
              status := Schedule(now, replies, replies.sessionPoll);
              progress := true;
            }
          case Backoff =>
            if now >= retryDeadline {
              phase := Down;
              entered := now;
              progress := true;
            }
        }
      }
    }
  }
}
