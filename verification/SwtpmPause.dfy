/**
 * The pause transaction of integration/swtpm/quiesce-swtpm-runtime.py as a machine: one step
 * per change it makes to the file system or per check of the process table. Between any two
 * steps processes may exit, swtpm may remove its own files, process numbers may be used
 * again, and the transaction may be killed and started over.
 */
module SwtpmPause {
  import opened Bytes

  type Name = nat
  type Inode = nat

  /** A process is known by its number and its start time. */
  datatype Identity = Identity(pid: nat, start: nat)

  datatype Socket = ServerSocket | ControlSocket

  datatype Marker = NoMarker | PausedV2 | OtherMarker

  /** `pause.intent`. */
  datatype Intent = Intent(identity: Identity, runtime: Name, inode: Inode, quarantine: Name)

  /**
   * The state directory, the directories under the temporary directory, and the processes.
   * `everLive` remembers every process there has been and `subject` the last intent written.
   */
  datatype World = World(
    managed: bool, marker: Marker, intent: Option<Intent>,
    pidFile: Option<nat>, ownerFile: Option<nat>, runtimeFile: Option<Name>, socketFile: Option<Name>,
    identityFile: Option<Identity>,
    entries: map<Name, Inode>, contents: map<Inode, set<Socket>>, processes: map<nat, nat>,
    everLive: set<Identity>, subject: Option<Intent>)

  /** Where the transaction stands. */
  datatype Step =
    | Begin | FreshGone | WriteIntent(identity: Identity, runtime: Name)
    | Transition
    | QuarantineGone | QuarantineUnlinkPid | QuarantineRemove
    | NeitherGone | Missing | MissingGone
    | Original | OriginalEmptyGone | OriginalStaleGone | OriginalUnlinkPid | CheckLive | Kill
    | UnlinkServer | UnlinkControl | CheckEmpty | Rename | RemoveMoved
    | Unlink(k: nat) | Mark | UnlinkIntent
    | Finished | GaveUp

  datatype Machine = Machine(world: World, step: Step)

  const BOTH: set<Socket> := {ServerSocket, ControlSocket}

  function Contents(w: World, inode: Inode): set<Socket> {
    if inode in w.contents then w.contents[inode] else {}
  }

  /** `_gone`: no process has the recorded number. */
  predicate NoSuchPid(w: World, id: Identity) {
    id.pid !in w.processes
  }

  predicate IsLive(w: World, id: Identity) {
    id.pid in w.processes && w.processes[id.pid] == id.start
  }

  function Fail(w: World): Machine {
    Machine(w, GaveUp)
  }

  // ----- the steps -----

  /** From the start to the intent; `drawn` is the quarantine name drawn. */
  function StartStep(w: World, step: Step, drawn: Name): Machine {
    match step
    case Begin =>
      if !w.managed || w.marker == OtherMarker then Fail(w)
      else if w.marker == PausedV2 then Machine(w, if w.intent.Some? then UnlinkIntent else Finished)
      else if w.intent.Some? then Machine(w, Transition)
      else if w.ownerFile.None? || w.runtimeFile.None? || w.socketFile != w.runtimeFile || w.identityFile.None? then
        Fail(w)
      else if w.runtimeFile.value !in w.entries then Fail(w)
      else
        var sockets := Contents(w, w.entries[w.runtimeFile.value]);
        if w.pidFile.None? then (if sockets == {} then Machine(w, FreshGone) else Fail(w))
        else if w.pidFile.value != w.identityFile.value.pid || sockets != BOTH then Fail(w)
        else Machine(w, WriteIntent(w.identityFile.value, w.runtimeFile.value))
    case FreshGone =>
      if w.identityFile.None? || w.runtimeFile.None? || !NoSuchPid(w, w.identityFile.value) then Fail(w)
      else Machine(w, WriteIntent(w.identityFile.value, w.runtimeFile.value))
    case WriteIntent(identity, runtime) =>
      if runtime !in w.entries || drawn in w.entries then Fail(w)
      else
        var intent := Intent(identity, runtime, w.entries[runtime], drawn);
        Machine(w.(intent := Some(intent), subject := Some(intent)), Transition)
    case _ => Fail(w)
  }

  /** What is retained of the metadata agrees with the intent. */
  predicate Agrees(w: World, intent: Intent) {
    && (w.identityFile.Some? ==> w.identityFile.value == intent.identity)
    && (w.runtimeFile.Some? ==> w.runtimeFile.value == intent.runtime)
    && (w.socketFile.Some? ==> w.socketFile.value == intent.runtime)
  }

  /** The choice by what directories there are, and the branch for a quarantined one. */
  function TransitionStep(w: World, step: Step, intent: Intent): Machine {
    match step
    case Transition =>
      if !Agrees(w, intent) then Fail(w)
      else if intent.runtime in w.entries then
        if intent.quarantine in w.entries then Fail(w) else Machine(w, Original)
      else if intent.quarantine in w.entries then
        if w.entries[intent.quarantine] != intent.inode then Fail(w) else Machine(w, QuarantineGone)
      else if w.pidFile.Some? then Fail(w)
      else Machine(w, NeitherGone)
    case QuarantineGone =>
      if (w.pidFile.Some? && w.pidFile.value != intent.identity.pid) || !NoSuchPid(w, intent.identity) then Fail(w)
      else Machine(w, if w.pidFile.Some? then QuarantineUnlinkPid else QuarantineRemove)
    case QuarantineUnlinkPid => Machine(w.(pidFile := None), QuarantineRemove)
    case QuarantineRemove =>
      if intent.quarantine !in w.entries || Contents(w, w.entries[intent.quarantine]) != {} then Fail(w)
      else Machine(w.(entries := w.entries - {intent.quarantine}), Missing)
    case NeitherGone => if NoSuchPid(w, intent.identity) then Machine(w, Missing) else Fail(w)
    case Missing =>
      if intent.runtime in w.entries then Machine(w, Original)
      else if w.pidFile.Some? then Fail(w)
      else Machine(w, MissingGone)
    case MissingGone => if NoSuchPid(w, intent.identity) then Machine(w, Unlink(0)) else Fail(w)
    case _ => Fail(w)
  }

  function Without(w: World, inode: Inode, socket: Socket): World {
    w.(contents := w.contents[inode := Contents(w, inode) - {socket}])
  }

  /** The branch for the original directory, up to the end of the process; `dies`: it ends within the waits. */
  function StopStep(w: World, step: Step, intent: Intent, dies: bool): Machine {
    match step
    case Original =>
      if intent.runtime !in w.entries || w.entries[intent.runtime] != intent.inode then Fail(w)
      else if w.pidFile.None? then Machine(w, OriginalEmptyGone)
      else if w.pidFile.value != intent.identity.pid then Fail(w)
      else if Contents(w, intent.inode) == BOTH then Machine(w, CheckLive)
      else if Contents(w, intent.inode) == {} then Machine(w, OriginalStaleGone)
      else Fail(w)
    case OriginalEmptyGone =>
      if Contents(w, intent.inode) == {} && NoSuchPid(w, intent.identity) then Machine(w, UnlinkServer) else Fail(w)
    case OriginalStaleGone => if NoSuchPid(w, intent.identity) then Machine(w, OriginalUnlinkPid) else Fail(w)
    case OriginalUnlinkPid => Machine(w.(pidFile := None), UnlinkServer)
    case CheckLive => if IsLive(w, intent.identity) then Machine(w, Kill) else Fail(w)
    case Kill =>
      if !dies then Fail(w)
      else if IsLive(w, intent.identity) then
        Machine(w.(processes := w.processes - {intent.identity.pid}), UnlinkServer)
      else Machine(w, UnlinkServer)
    case _ => Fail(w)
  }

  /** The sockets are removed and the directory is moved to its quarantine name and removed there. */
  function MoveStep(w: World, step: Step, intent: Intent): Machine {
    match step
    case UnlinkServer => Machine(Without(w, intent.inode, ServerSocket), UnlinkControl)
    case UnlinkControl => Machine(Without(w, intent.inode, ControlSocket), CheckEmpty)
    case CheckEmpty =>
      if Contents(w, intent.inode) == {} && intent.quarantine !in w.entries then Machine(w, Rename) else Fail(w)
    case Rename =>
      if intent.runtime !in w.entries || w.entries[intent.runtime] != intent.inode then Fail(w)
      else Machine(w.(entries := w.entries[intent.quarantine := intent.inode] - {intent.runtime}), RemoveMoved)
    case RemoveMoved =>
      if intent.quarantine !in w.entries || Contents(w, intent.inode) != {} then Fail(w)
      else Machine(w.(entries := w.entries - {intent.quarantine}), Unlink(0))
    case _ => Fail(w)
  }

  function Unlinked(w: World, k: nat): World {
    if k == 0 then w.(pidFile := None)
    else if k == 1 then w.(ownerFile := None)
    else if k == 2 then w.(runtimeFile := None)
    else if k == 3 then w.(socketFile := None)
    else w.(identityFile := None)
  }

  /** The metadata files, the marker, the intent. */
  function FinishStep(w: World, step: Step): Machine {
    match step
    case Unlink(k) => Machine(Unlinked(w, k), if k < 4 then Unlink(k + 1) else Mark)
    case Mark => if w.marker == NoMarker then Machine(w.(marker := PausedV2), UnlinkIntent) else Fail(w)
    case UnlinkIntent => Machine(w.(intent := None), Finished)
    case _ => Machine(w, step)
  }

  predicate InStart(step: Step) {
    step.Begin? || step.FreshGone? || step.WriteIntent?
  }

  predicate InTransition(step: Step) {
    step.Transition? || step.QuarantineGone? || step.QuarantineUnlinkPid? || step.QuarantineRemove?
    || step.NeitherGone? || step.Missing? || step.MissingGone?
  }

  predicate InStop(step: Step) {
    step.Original? || step.OriginalEmptyGone? || step.OriginalStaleGone? || step.OriginalUnlinkPid?
    || step.CheckLive? || step.Kill?
  }

  predicate InFinish(step: Step) {
    step.Unlink? || step.Mark? || step.UnlinkIntent? || step.Finished? || step.GaveUp?
  }

  function Advance(m: Machine, drawn: Name, dies: bool): Machine {
    if InStart(m.step) then StartStep(m.world, m.step, drawn)
    else if InFinish(m.step) then FinishStep(m.world, m.step)
    else if m.world.intent.None? then Fail(m.world)
    else if InTransition(m.step) then TransitionStep(m.world, m.step, m.world.intent.value)
    else if InStop(m.step) then StopStep(m.world, m.step, m.world.intent.value, dies)
    else MoveStep(m.world, m.step, m.world.intent.value)
  }

  // ----- the environment -----

  datatype Action =
    | Next(drawn: Name, dies: bool)
    | Restart
    | Exit(pid: nat)
    | Spawn(id: Identity)
    | DropPidFile
    | DropSocket(inode: Inode, socket: Socket)

  /** A process that starts is a new one, and its number is free. */
  predicate Enabled(m: Machine, a: Action) {
    a.Spawn? ==> a.id.pid !in m.world.processes && a.id !in m.world.everLive
  }

  function Act(m: Machine, a: Action): Machine
    requires Enabled(m, a)
  {
    var w := m.world;
    match a
    case Next(drawn, dies) => Advance(m, drawn, dies)
    case Restart => m.(step := Begin)
    case Exit(pid) => m.(world := w.(processes := w.processes - {pid}))
    case Spawn(id) => m.(world := w.(processes := w.processes[id.pid := id.start], everLive := w.everLive + {id}))
    case DropPidFile => m.(world := w.(pidFile := None))
    case DropSocket(inode, socket) => m.(world := Without(w, inode, socket))
  }

  /** Before the transaction: nothing has been decided, and the recorded process is one that did exist. */
  predicate Untouched(m: Machine) {
    && m.step == Begin && m.world.marker == NoMarker && m.world.intent.None? && m.world.subject.None?
    && (m.world.identityFile.Some? ==> m.world.identityFile.value in m.world.everLive)
  }

  datatype History = Start(first: Machine) | Then(earlier: History, action: Action)

  ghost predicate IsRun(h: History) {
    match h
    case Start(first) => Untouched(first)
    case Then(earlier, action) => IsRun(earlier) && Enabled(Reached(earlier), action)
  }

  ghost function Reached(h: History): Machine {
    match h
    case Start(first) => first
    case Then(earlier, action) =>
      if Enabled(Reached(earlier), action) then Act(Reached(earlier), action) else Reached(earlier)
  }

  // ----- the invariant -----

  /** The process the transaction is about has ended, for good. */
  predicate Ended(w: World, intent: Intent) {
    intent.identity in w.everLive && !IsLive(w, intent.identity)
  }

  predicate NoDirectories(w: World, intent: Intent) {
    intent.runtime !in w.entries && intent.quarantine !in w.entries
  }

  /** The first `k` of the five metadata files are gone. */
  predicate Removed(w: World, k: nat) {
    && (k > 0 ==> w.pidFile.None?)
    && (k > 1 ==> w.ownerFile.None?)
    && (k > 2 ==> w.runtimeFile.None?)
    && (k > 3 ==> w.socketFile.None?)
    && (k > 4 ==> w.identityFile.None?)
  }

  /** What the paused marker promises. */
  predicate Quiesced(w: World) {
    && w.subject.Some?
    && Ended(w, w.subject.value)
    && NoDirectories(w, w.subject.value)
    && Removed(w, 5)
  }

  predicate PastCheck(step: Step) {
    step.QuarantineUnlinkPid? || step.QuarantineRemove? || step.Missing? || step.OriginalUnlinkPid?
    || step.UnlinkServer? || step.UnlinkControl? || step.CheckEmpty? || step.Rename? || step.RemoveMoved?
    || step.Unlink? || step.Mark? || step.UnlinkIntent?
  }

  /** What holds at each step of a transaction under way. */
  predicate Underway(w: World, intent: Intent, step: Step) {
    && (PastCheck(step) ==> Ended(w, intent))
    && (step.QuarantineGone? || step.QuarantineUnlinkPid? || step.QuarantineRemove? ==> intent.runtime !in w.entries)
    && (step.NeitherGone? || step.Missing? || step.MissingGone? ==> NoDirectories(w, intent))
    && (step.RemoveMoved? ==> intent.runtime !in w.entries)
    && (step.Unlink? ==> NoDirectories(w, intent) && Removed(w, step.k) && step.k <= 4)
    && (step.Mark? ==> NoDirectories(w, intent) && Removed(w, 5))
  }

  predicate Invariant(m: Machine) {
    var w := m.world;
    && (w.identityFile.Some? ==> w.identityFile.value in w.everLive)
    && (w.intent.Some? ==> w.intent == w.subject)
    && (w.subject.Some? ==>
          w.subject.value.identity in w.everLive && w.subject.value.runtime != w.subject.value.quarantine)
    && (w.marker != NoMarker ==> w.marker == PausedV2 && Quiesced(w))
    && (w.marker == NoMarker ==> w.intent == w.subject && m.step != UnlinkIntent && m.step != Finished)
    && (m.step.FreshGone? ==> w.marker == NoMarker && w.intent.None?)
    && (m.step.WriteIntent? ==> w.marker == NoMarker && w.intent.None? && m.step.identity in w.everLive)
    && (!InStart(m.step) && m.step != UnlinkIntent && m.step != Finished && m.step != GaveUp ==>
          w.marker == NoMarker && w.intent.Some? && Underway(w, w.intent.value, m.step))
  }

  lemma StartKeeps(m: Machine, drawn: Name)
    requires Invariant(m) && InStart(m.step)
    ensures Invariant(StartStep(m.world, m.step, drawn))
  {
  }

  lemma TransitionKeeps(m: Machine)
    requires Invariant(m) && InTransition(m.step) && m.world.intent.Some?
    ensures Invariant(TransitionStep(m.world, m.step, m.world.intent.value))
  {
  }

  lemma StopKeeps(m: Machine, dies: bool)
    requires Invariant(m) && InStop(m.step) && m.world.intent.Some?
    ensures Invariant(StopStep(m.world, m.step, m.world.intent.value, dies))
  {
  }

  lemma MoveKeeps(m: Machine)
    requires Invariant(m) && !InStart(m.step) && !InTransition(m.step) && !InStop(m.step) && !InFinish(m.step)
    requires m.world.intent.Some?
    ensures Invariant(MoveStep(m.world, m.step, m.world.intent.value))
  {
  }

  lemma FinishKeeps(m: Machine)
    requires Invariant(m) && InFinish(m.step)
    ensures Invariant(FinishStep(m.world, m.step))
  {
  }

  lemma ActKeeps(m: Machine, a: Action)
    requires Invariant(m) && Enabled(m, a)
    ensures Invariant(Act(m, a))
  {
    if a.Next? {
      if InStart(m.step) {
        StartKeeps(m, a.drawn);
      } else if InFinish(m.step) {
        FinishKeeps(m);
      } else if InTransition(m.step) {
        TransitionKeeps(m);
      } else if InStop(m.step) {
        StopKeeps(m, a.dies);
      } else {
        MoveKeeps(m);
      }
    }
  }

  lemma {:induction false} RunKeepsInvariant(h: History)
    requires IsRun(h)
    ensures Invariant(Reached(h))
  {
    if h.Then? {
      RunKeepsInvariant(h.earlier);
      ActKeeps(Reached(h.earlier), h.action);
    }
  }

  /**
   * Over any number of attempts, each killed anywhere, and whatever processes do meanwhile: the
   * paused marker exists only if the recorded process has ended, the runtime directory is there
   * neither under its own name nor in quarantine, and all five metadata files are gone; and an
   * intent once written is there until the marker is.
   */
  lemma PausedIsQuiesced(h: History)
    requires IsRun(h)
    ensures Reached(h).world.marker != NoMarker ==> Quiesced(Reached(h).world)
    ensures Reached(h).world.subject.Some? && Reached(h).world.intent.None? ==> Reached(h).world.marker == PausedV2
  {
    RunKeepsInvariant(h);
  }

  // ----- one attempt without interruption -----

  function Rank(step: Step): nat {
    match step
    case Begin => 30
    case FreshGone => 29
    case WriteIntent(_, _) => 28
    case Transition => 27
    case QuarantineGone => 26
    case QuarantineUnlinkPid => 25
    case QuarantineRemove => 24
    case NeitherGone => 24
    case Missing => 23
    case Original => 22
    case OriginalEmptyGone => 21
    case OriginalStaleGone => 21
    case OriginalUnlinkPid => 20
    case CheckLive => 21
    case Kill => 20
    case UnlinkServer => 19
    case UnlinkControl => 18
    case CheckEmpty => 17
    case Rename => 16
    case RemoveMoved => 15
    case MissingGone => 14
    case Unlink(k) => if k <= 4 then 12 - k else 7
    case Mark => 6
    case UnlinkIntent => 5
    case Finished => 0
    case GaveUp => 0
  }

  predicate Over(m: Machine) {
    m.step == Finished || m.step == GaveUp
  }

  lemma StartRanks(w: World, step: Step, drawn: Name)
    requires InStart(step)
    ensures Rank(StartStep(w, step, drawn).step) < Rank(step)
  {
  }

  lemma TransitionRanks(w: World, step: Step, intent: Intent)
    requires InTransition(step)
    ensures Rank(TransitionStep(w, step, intent).step) < Rank(step)
  {
  }

  lemma StopRanks(w: World, step: Step, intent: Intent, dies: bool)
    requires InStop(step)
    ensures Rank(StopStep(w, step, intent, dies).step) < Rank(step)
  {
  }

  lemma MoveRanks(w: World, step: Step, intent: Intent)
    requires Rank(step) > 0
    ensures Rank(MoveStep(w, step, intent).step) < Rank(step)
  {
  }

  lemma AdvanceRanks(m: Machine, drawn: Name, dies: bool)
    requires !Over(m)
    ensures Rank(Advance(m, drawn, dies).step) < Rank(m.step)
  {
    if InStart(m.step) {
      StartRanks(m.world, m.step, drawn);
    } else if !InFinish(m.step) && m.world.intent.Some? {
      if InTransition(m.step) {
        TransitionRanks(m.world, m.step, m.world.intent.value);
      } else if InStop(m.step) {
        StopRanks(m.world, m.step, m.world.intent.value, dies);
      } else {
        MoveRanks(m.world, m.step, m.world.intent.value);
      }
    }
  }

  /** `pause`, undisturbed. */
  function Finish(m: Machine, drawn: Name, dies: bool): Machine
    decreases Rank(m.step)
  {
    if Over(m) then m
    else
      AdvanceRanks(m, drawn, dies);
      Finish(Advance(m, drawn, dies), drawn, dies)
  }

  predicate Succeeds(m: Machine, drawn: Name, dies: bool) {
    var f := Finish(m, drawn, dies);
    f.step == Finished && f.world.marker == PausedV2 && f.world.intent.None?
  }

  lemma Continue(m: Machine, next: Machine, drawn: Name, dies: bool)
    requires !Over(m) && next == Advance(m, drawn, dies)
    ensures Succeeds(m, drawn, dies) <==> Succeeds(next, drawn, dies)
  {
  }

  /** A transaction under way: an intent and no marker. */
  predicate Pending(w: World) {
    w.marker == NoMarker && w.intent.Some? && w.intent.value.runtime != w.intent.value.quarantine
  }

  lemma MarkSucceeds(w: World, drawn: Name, dies: bool)
    requires Pending(w)
    ensures Succeeds(Machine(w, Mark), drawn, dies)
  {
    var marked := w.(marker := PausedV2);
    Continue(Machine(w, Mark), Machine(marked, UnlinkIntent), drawn, dies);
    Continue(Machine(marked, UnlinkIntent), Machine(marked.(intent := None), Finished), drawn, dies);
  }

  lemma {:induction false} EndSucceeds(w: World, k: nat, drawn: Name, dies: bool)
    requires Pending(w) && k <= 4
    ensures Succeeds(Machine(w, Unlink(k)), drawn, dies)
    decreases 4 - k
  {
    var next := Unlinked(w, k);
    Continue(Machine(w, Unlink(k)), Machine(next, if k < 4 then Unlink(k + 1) else Mark), drawn, dies);
    if k < 4 {
      EndSucceeds(next, k + 1, drawn, dies);
    } else {
      MarkSucceeds(next, drawn, dies);
    }
  }

  lemma GaveUpFails(w: World, drawn: Name, dies: bool)
    ensures !Succeeds(Fail(w), drawn, dies)
  {
  }

  /** The original directory is there and the quarantine name is free. */
  predicate InPlace(w: World) {
    && Pending(w)
    && var intent := w.intent.value;
       intent.runtime in w.entries && w.entries[intent.runtime] == intent.inode && intent.quarantine !in w.entries
  }

  lemma RenameSucceeds(w: World, drawn: Name, dies: bool)
    requires InPlace(w) && Contents(w, w.intent.value.inode) == {}
    ensures Succeeds(Machine(w, Rename), drawn, dies)
  {
    var intent := w.intent.value;
    var moved := w.(entries := w.entries[intent.quarantine := intent.inode] - {intent.runtime});
    var removed := moved.(entries := moved.entries - {intent.quarantine});
    Continue(Machine(w, Rename), Machine(moved, RemoveMoved), drawn, dies);
    Continue(Machine(moved, RemoveMoved), Machine(removed, Unlink(0)), drawn, dies);
    EndSucceeds(removed, 0, drawn, dies);
  }

  lemma SocketsRemoved(w: World, inode: Inode)
    ensures Contents(Without(Without(w, inode, ServerSocket), inode, ControlSocket), inode) == {}
  {
    forall x: Socket ensures x !in Contents(w, inode) - {ServerSocket} - {ControlSocket} {
      assert x.ServerSocket? || x.ControlSocket?;
    }
  }

  lemma MoveSucceeds(w: World, drawn: Name, dies: bool)
    requires InPlace(w)
    ensures Succeeds(Machine(w, UnlinkServer), drawn, dies)
  {
    var inode := w.intent.value.inode;
    var one := Without(w, inode, ServerSocket);
    var two := Without(one, inode, ControlSocket);
    SocketsRemoved(w, inode);
    Continue(Machine(w, UnlinkServer), Machine(one, UnlinkControl), drawn, dies);
    Continue(Machine(one, UnlinkControl), Machine(two, CheckEmpty), drawn, dies);
    Continue(Machine(two, CheckEmpty), Machine(two, Rename), drawn, dies);
    RenameSucceeds(two, drawn, dies);
  }

  /** The process can be stopped, or it and its files are gone already. */
  predicate Stoppable(w: World, dies: bool)
    requires w.intent.Some?
  {
    var intent := w.intent.value;
    if w.pidFile.None? then Contents(w, intent.inode) == {} && NoSuchPid(w, intent.identity)
    else if w.pidFile.value != intent.identity.pid then false
    else if Contents(w, intent.inode) == BOTH then IsLive(w, intent.identity) && dies
    else Contents(w, intent.inode) == {} && NoSuchPid(w, intent.identity)
  }

  lemma KillSucceeds(w: World, drawn: Name, dies: bool)
    requires InPlace(w)
    ensures Succeeds(Machine(w, CheckLive), drawn, dies) <==> IsLive(w, w.intent.value.identity) && dies
  {
    if !IsLive(w, w.intent.value.identity) {
      Continue(Machine(w, CheckLive), Fail(w), drawn, dies);
    } else {
      Continue(Machine(w, CheckLive), Machine(w, Kill), drawn, dies);
      if dies {
        var killed := w.(processes := w.processes - {w.intent.value.identity.pid});
        Continue(Machine(w, Kill), Machine(killed, UnlinkServer), drawn, dies);
        MoveSucceeds(killed, drawn, dies);
      } else {
        Continue(Machine(w, Kill), Fail(w), drawn, dies);
      }
    }
  }

  lemma StaleSucceeds(w: World, drawn: Name, dies: bool)
    requires InPlace(w)
    ensures Succeeds(Machine(w, OriginalStaleGone), drawn, dies) <==> NoSuchPid(w, w.intent.value.identity)
  {
    if NoSuchPid(w, w.intent.value.identity) {
      Continue(Machine(w, OriginalStaleGone), Machine(w, OriginalUnlinkPid), drawn, dies);
      Continue(Machine(w, OriginalUnlinkPid), Machine(w.(pidFile := None), UnlinkServer), drawn, dies);
      MoveSucceeds(w.(pidFile := None), drawn, dies);
    } else {
      Continue(Machine(w, OriginalStaleGone), Fail(w), drawn, dies);
    }
  }

  lemma EmptySucceeds(w: World, drawn: Name, dies: bool)
    requires InPlace(w)
    ensures Succeeds(Machine(w, OriginalEmptyGone), drawn, dies)
            <==> Contents(w, w.intent.value.inode) == {} && NoSuchPid(w, w.intent.value.identity)
  {
    if Contents(w, w.intent.value.inode) == {} && NoSuchPid(w, w.intent.value.identity) {
      Continue(Machine(w, OriginalEmptyGone), Machine(w, UnlinkServer), drawn, dies);
      MoveSucceeds(w, drawn, dies);
    } else {
      Continue(Machine(w, OriginalEmptyGone), Fail(w), drawn, dies);
    }
  }

  lemma OriginalSucceeds(w: World, drawn: Name, dies: bool)
    requires InPlace(w)
    ensures Succeeds(Machine(w, Original), drawn, dies) <==> Stoppable(w, dies)
  {
    var m, next := Machine(w, Original), StopStep(w, Original, w.intent.value, dies);
    Continue(m, next, drawn, dies);
    match next.step {
      case OriginalEmptyGone => EmptySucceeds(w, drawn, dies);
      case CheckLive => KillSucceeds(w, drawn, dies);
      case OriginalStaleGone => StaleSucceeds(w, drawn, dies);
      case _ => GaveUpFails(w, drawn, dies);
    }
  }

  lemma MissingSucceeds(w: World, drawn: Name, dies: bool)
    requires Pending(w) && NoDirectories(w, w.intent.value)
    ensures Succeeds(Machine(w, Missing), drawn, dies) <==> w.pidFile.None? && NoSuchPid(w, w.intent.value.identity)
  {
    if w.pidFile.Some? {
      Continue(Machine(w, Missing), Fail(w), drawn, dies);
    } else {
      Continue(Machine(w, Missing), Machine(w, MissingGone), drawn, dies);
      if NoSuchPid(w, w.intent.value.identity) {
        Continue(Machine(w, MissingGone), Machine(w, Unlink(0)), drawn, dies);
        EndSucceeds(w, 0, drawn, dies);
      } else {
        Continue(Machine(w, MissingGone), Fail(w), drawn, dies);
      }
    }
  }

  lemma RemoveSucceeds(w: World, drawn: Name, dies: bool)
    requires Pending(w) && w.pidFile.None? && NoSuchPid(w, w.intent.value.identity)
    requires w.intent.value.runtime !in w.entries && w.intent.value.quarantine in w.entries
    ensures Succeeds(Machine(w, QuarantineRemove), drawn, dies)
            <==> Contents(w, w.entries[w.intent.value.quarantine]) == {}
  {
    var q := w.intent.value.quarantine;
    if Contents(w, w.entries[q]) == {} {
      var removed := w.(entries := w.entries - {q});
      Continue(Machine(w, QuarantineRemove), Machine(removed, Missing), drawn, dies);
      MissingSucceeds(removed, drawn, dies);
    } else {
      Continue(Machine(w, QuarantineRemove), Fail(w), drawn, dies);
    }
  }

  /** The quarantined directory can be disposed of. */
  predicate Disposable(w: World)
    requires w.intent.Some?
  {
    var intent := w.intent.value;
    && (w.pidFile.Some? ==> w.pidFile.value == intent.identity.pid)
    && NoSuchPid(w, intent.identity)
    && Contents(w, intent.inode) == {}
  }

  lemma QuarantineSucceeds(w: World, drawn: Name, dies: bool)
    requires Pending(w) && w.intent.value.runtime !in w.entries
    requires w.intent.value.quarantine in w.entries && w.entries[w.intent.value.quarantine] == w.intent.value.inode
    ensures Succeeds(Machine(w, QuarantineGone), drawn, dies) <==> Disposable(w)
  {
    var m, next := Machine(w, QuarantineGone), TransitionStep(w, QuarantineGone, w.intent.value);
    Continue(m, next, drawn, dies);
    match next.step {
      case QuarantineUnlinkPid =>
        Continue(next, Machine(w.(pidFile := None), QuarantineRemove), drawn, dies);
        RemoveSucceeds(w.(pidFile := None), drawn, dies);
      case QuarantineRemove => RemoveSucceeds(w, drawn, dies);
      case _ => GaveUpFails(w, drawn, dies);
    }
  }

  /** When an attempt can complete a transaction that was begun. */
  predicate Recoverable(w: World, dies: bool)
    requires w.intent.Some?
  {
    var intent := w.intent.value;
    && w.managed
    && Agrees(w, intent)
    && if intent.runtime in w.entries then
         intent.quarantine !in w.entries && w.entries[intent.runtime] == intent.inode && Stoppable(w, dies)
       else if intent.quarantine in w.entries then
         w.entries[intent.quarantine] == intent.inode && Disposable(w)
       else
         w.pidFile.None? && NoSuchPid(w, intent.identity)
  }

  lemma TransitionSucceeds(w: World, drawn: Name, dies: bool)
    requires Pending(w) && w.managed
    ensures Succeeds(Machine(w, Transition), drawn, dies) <==> Recoverable(w, dies)
  {
    var intent := w.intent.value;
    var next := TransitionStep(w, Transition, intent);
    Continue(Machine(w, Transition), next, drawn, dies);
    match next.step {
      case Original =>
        if w.entries[intent.runtime] == intent.inode {
          OriginalSucceeds(w, drawn, dies);
        } else {
          Continue(next, Fail(w), drawn, dies);
        }
      case QuarantineGone => QuarantineSucceeds(w, drawn, dies);
      case NeitherGone =>
        if NoSuchPid(w, intent.identity) {
          Continue(next, Machine(w, Missing), drawn, dies);
          MissingSucceeds(w, drawn, dies);
        } else {
          Continue(next, Fail(w), drawn, dies);
        }
      case _ => GaveUpFails(w, drawn, dies);
    }
  }

  /** Exactly when an undisturbed attempt completes a transaction that was begun. */
  lemma AttemptSucceedsExactly(w: World, drawn: Name, dies: bool)
    requires Pending(w)
    ensures Succeeds(Machine(w, Begin), drawn, dies) <==> Recoverable(w, dies)
  {
    if w.managed {
      Continue(Machine(w, Begin), Machine(w, Transition), drawn, dies);
      TransitionSucceeds(w, drawn, dies);
    } else {
      Continue(Machine(w, Begin), Fail(w), drawn, dies);
    }
  }

  /** A transaction can begin: the metadata is complete, and the process is live with its files or gone with them. */
  predicate Startable(w: World, dies: bool) {
    && w.managed && w.ownerFile.Some? && w.runtimeFile.Some? && w.socketFile == w.runtimeFile && w.identityFile.Some?
    && w.runtimeFile.value in w.entries
    && var id, sockets := w.identityFile.value, Contents(w, w.entries[w.runtimeFile.value]);
       if w.pidFile.None? then sockets == {} && NoSuchPid(w, id)
       else w.pidFile.value == id.pid && sockets == BOTH && IsLive(w, id) && dies
  }

  function Begun(w: World, drawn: Name): World
    requires w.identityFile.Some? && w.runtimeFile.Some? && w.runtimeFile.value in w.entries
  {
    var intent := Intent(w.identityFile.value, w.runtimeFile.value, w.entries[w.runtimeFile.value], drawn);
    w.(intent := Some(intent), subject := Some(intent))
  }

  lemma WriteIntentSucceeds(w: World, drawn: Name, dies: bool)
    requires w.managed && w.marker == NoMarker && w.intent.None? && drawn !in w.entries
    requires w.identityFile.Some? && w.runtimeFile.Some? && w.socketFile == w.runtimeFile
    requires w.runtimeFile.value in w.entries
    ensures Succeeds(Machine(w, WriteIntent(w.identityFile.value, w.runtimeFile.value)), drawn, dies)
            <==> Stoppable(Begun(w, drawn), dies)
  {
    var begun := Begun(w, drawn);
    Continue(Machine(w, WriteIntent(w.identityFile.value, w.runtimeFile.value)), Machine(begun, Transition),
             drawn, dies);
    TransitionSucceeds(begun, drawn, dies);
  }

  lemma FreshGoneSucceeds(w: World, drawn: Name, dies: bool)
    requires w.managed && w.marker == NoMarker && w.intent.None? && drawn !in w.entries && w.pidFile.None?
    requires w.identityFile.Some? && w.runtimeFile.Some? && w.socketFile == w.runtimeFile
    requires w.runtimeFile.value in w.entries
    requires Contents(w, w.entries[w.runtimeFile.value]) == {}
    ensures Succeeds(Machine(w, FreshGone), drawn, dies) <==> NoSuchPid(w, w.identityFile.value)
  {
    if NoSuchPid(w, w.identityFile.value) {
      var next := Machine(w, WriteIntent(w.identityFile.value, w.runtimeFile.value));
      Continue(Machine(w, FreshGone), next, drawn, dies);
      WriteIntentSucceeds(w, drawn, dies);
    } else {
      Continue(Machine(w, FreshGone), Fail(w), drawn, dies);
    }
  }

  /** Exactly when an undisturbed first attempt pauses, with a quarantine name that is free. */
  lemma FirstAttemptSucceedsExactly(w: World, drawn: Name, dies: bool)
    requires w.marker == NoMarker && w.intent.None? && drawn !in w.entries
    ensures Succeeds(Machine(w, Begin), drawn, dies) <==> Startable(w, dies)
  {
    var next := StartStep(w, Begin, drawn);
    Continue(Machine(w, Begin), next, drawn, dies);
    match next.step {
      case FreshGone => FreshGoneSucceeds(w, drawn, dies);
      case WriteIntent(_, _) => WriteIntentSucceeds(w, drawn, dies);
      case _ => GaveUpFails(w, drawn, dies);
    }
  }

  /** An attempt after the marker exists only removes an intent that is left. */
  lemma PausedStaysPaused(w: World, drawn: Name, dies: bool)
    requires w.marker != NoMarker
    ensures Succeeds(Machine(w, Begin), drawn, dies) <==> w.managed && w.marker == PausedV2
    ensures w.managed && w.marker == PausedV2 ==>
              Finish(Machine(w, Begin), drawn, dies).world == w.(intent := None)
  {
    var next := StartStep(w, Begin, drawn);
    Continue(Machine(w, Begin), next, drawn, dies);
    if next.step == UnlinkIntent {
      Continue(next, Machine(w.(intent := None), Finished), drawn, dies);
    }
  }

  // ----- a transaction that no attempt completes -----

  /** Begun, both directories gone, and `swtpm.pid` still there; no attempt under way is past its first checks. */
  predicate Stuck(m: Machine) {
    && Pending(m.world) && NoDirectories(m.world, m.world.intent.value) && m.world.pidFile.Some?
    && (m.step == Begin || m.step == Transition || m.step == GaveUp)
  }

  lemma StuckStays(m: Machine, a: Action)
    requires Stuck(m) && Enabled(m, a) && !a.DropPidFile?
    ensures Stuck(Act(m, a))
  {
  }

  /** `h` goes on from `g`, and nothing but an attempt removes `swtpm.pid`. */
  predicate GoesOn(g: History, h: History) {
    h == g || (h.Then? && !h.action.DropPidFile? && GoesOn(g, h.earlier))
  }

  /** However many attempts follow, killed or not, and whatever processes do: the marker never appears. */
  lemma {:induction false} StuckForGood(g: History, h: History)
    requires IsRun(h) && GoesOn(g, h) && Stuck(Reached(g))
    ensures Stuck(Reached(h)) && Reached(h).world.marker == NoMarker
    decreases h
  {
    if h != g {
      StuckForGood(g, h.earlier);
      StuckStays(Reached(h.earlier), h.action);
    }
  }

  function Origin(h: History): Machine {
    match h
    case Start(first) => first
    case Then(earlier, _) => Origin(earlier)
  }

  /** A history that has come from `w` to `m` by steps of one attempt. */
  ghost predicate CameTo(h: History, w: World, m: Machine) {
    IsRun(h) && Origin(h) == Machine(w, Begin) && Reached(h) == m
  }

  lemma Onward(h: History, w: World, m: Machine, drawn: Name, next: Machine) returns (g: History)
    requires CameTo(h, w, m) && Advance(m, drawn, true) == next
    ensures CameTo(g, w, next)
  {
    g := Then(h, Next(drawn, true));
  }

  /** swtpm is live, with its files, and nothing has been decided yet. */
  predicate Live(w: World) {
    && Untouched(Machine(w, Begin)) && Startable(w, true) && w.pidFile.Some?
  }

  function Killed(w: World, drawn: Name): World
    requires Live(w)
  {
    Begun(w, drawn).(processes := w.processes - {w.identityFile.value.pid})
  }

  lemma RunToKill(w: World, drawn: Name) returns (h: History)
    requires Live(w) && drawn !in w.entries
    ensures CameTo(h, w, Machine(Killed(w, drawn), UnlinkServer))
  {
    var begun := Begun(w, drawn);
    h := Start(Machine(w, Begin));
    var writing := WriteIntent(w.identityFile.value, w.runtimeFile.value);
    h := Onward(h, w, Machine(w, Begin), drawn, Machine(w, writing));
    h := Onward(h, w, Machine(w, writing), drawn, Machine(begun, Transition));
    h := Onward(h, w, Machine(begun, Transition), drawn, Machine(begun, Original));
    h := Onward(h, w, Machine(begun, Original), drawn, Machine(begun, CheckLive));
    h := Onward(h, w, Machine(begun, CheckLive), drawn, Machine(begun, Kill));
    h := Onward(h, w, Machine(begun, Kill), drawn, Machine(Killed(w, drawn), UnlinkServer));
  }

  function Emptied(w: World, drawn: Name): World
    requires Live(w)
  {
    var inode := w.entries[w.runtimeFile.value];
    Without(Without(Killed(w, drawn), inode, ServerSocket), inode, ControlSocket)
  }

  lemma RunToRename(w: World, drawn: Name) returns (h: History)
    requires Live(w) && drawn !in w.entries
    ensures CameTo(h, w, Machine(Emptied(w, drawn), Rename))
  {
    var inode := w.entries[w.runtimeFile.value];
    var killed := Killed(w, drawn);
    var one := Without(killed, inode, ServerSocket);
    SocketsRemoved(killed, inode);
    h := RunToKill(w, drawn);
    h := Onward(h, w, Machine(killed, UnlinkServer), drawn, Machine(one, UnlinkControl));
    h := Onward(h, w, Machine(one, UnlinkControl), drawn, Machine(Emptied(w, drawn), CheckEmpty));
    h := Onward(h, w, Machine(Emptied(w, drawn), CheckEmpty), drawn, Machine(Emptied(w, drawn), Rename));
  }

  lemma RunToRemoved(w: World, drawn: Name) returns (h: History)
    requires Live(w) && drawn !in w.entries
    ensures var gone := Emptied(w, drawn).(entries := w.entries[drawn := w.entries[w.runtimeFile.value]]
                                                      - {w.runtimeFile.value} - {drawn});
            CameTo(h, w, Machine(gone, Unlink(0)))
  {
    var emptied := Emptied(w, drawn);
    var inode := w.entries[w.runtimeFile.value];
    var moved := emptied.(entries := w.entries[drawn := inode] - {w.runtimeFile.value});
    SocketsRemoved(Killed(w, drawn), inode);
    h := RunToRename(w, drawn);
    h := Onward(h, w, Machine(emptied, Rename), drawn, Machine(moved, RemoveMoved));
    h := Onward(h, w, Machine(moved, RemoveMoved), drawn,
                Machine(moved.(entries := moved.entries - {drawn}), Unlink(0)));
  }

  /**
   * From any live swtpm an attempt that is killed once the directory is removed leaves a
   * transaction that is stuck while `swtpm.pid` stays.
   */
  lemma StrandedByPidFile(w: World, drawn: Name) returns (h: History)
    requires Live(w) && drawn !in w.entries
    ensures IsRun(h) && Origin(h) == Machine(w, Begin) && Stuck(Reached(h))
    ensures forall dies :: !Recoverable(Reached(h).world, dies)
  {
    var g := RunToRemoved(w, drawn);
    h := Then(g, Restart);
  }

  const EXAMPLE: World :=
    World(true, NoMarker, None, Some(7), Some(1), Some(10), Some(10), Some(Identity(7, 3)),
          map[10 := 20], map[20 := BOTH], map[7 := 3], {Identity(7, 3)}, None)

  /** Such a swtpm, and the run that strands its transaction. */
  lemma StrandedExample() returns (h: History)
    ensures IsRun(h) && Origin(h) == Machine(EXAMPLE, Begin) && Stuck(Reached(h))
  {
    h := StrandedByPidFile(EXAMPLE, 11);
  }
}
