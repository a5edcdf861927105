/** The ownership protocol of the Linux retained-test runner as a state machine: the host,
    the native controller, the init process of the namespace and its other members, and
    the kernel, interleaved in every way. */
module Ownership {
  import opened Numbers
  import opened Schema
  import opened OwnerStatus
  import opened OwnerController

  /** The milestones of a launch. */
  datatype Gate =
    | PrintCreated | HostA | PassA | TakeA | Credentials | Arm | OwnerAlive | SendReady
    | PrintReady | HostG | PassG | TakeG | Fork | SendExecuted | PrintExec

  function Rank(g: Gate): nat {
    match g
    case PrintCreated => 0
    case HostA => 1
    case PassA => 2
    case TakeA => 3
    case Credentials => 4
    case Arm => 5
    case OwnerAlive => 6
    case SendReady => 7
    case PrintReady => 8
    case HostG => 9
    case PassG => 10
    case TakeG => 11
    case Fork => 12
    case SendExecuted => 13
    case PrintExec => 14
  }

  /** Where the init process is; it is alive from Setup to Reaping. */
  datatype Phase =
    | Unborn | Setup | Inactive | Activated | CredentialsFinal | Armed | Checked | AwaitGo
    | Going | Acknowledging | Reaping | Exiting | Zombie | Reaped

  predicate Alive(p: Phase) {
    !p.Unborn? && !p.Exiting? && !p.Zombie? && !p.Reaped?
  }

  /** Where the controller is: before the fork, after it, without a pidfd, between polls,
      inside a pass of the loop, with init reaped and lines to print, or gone. */
  datatype ControllerAt =
    | Starting | Forked | Unwatched | Top
    | InPass(command: bool, drain: bool, reap: bool)
    | Joined(last: seq<Line>)
    | Exited | Killed

  predicate Over(c: ControllerAt) {
    c.Exited? || c.Killed?
  }

  datatype LaunchStep = AwaitCreated | WriteA | AwaitReady | WriteG | AwaitExec | Launched | Failed

  datatype Host = Host(launch: LaunchStep, controlOpen: bool, read: nat, reader: Reader, readerFailed: bool)

  datatype State = State(
    host: Host,
    control: seq<char>,
    controller: ControllerAt,
    flags: Flags,
    waitFailed: bool,
    toInit: seq<char>,
    init: Phase,
    armed: bool,
    killed: bool,
    members: nat,
    payload: bool,
    sent: seq<Event>,
    taken: nat,
    status: seq<Line>,
    gates: seq<Gate>)

  const INITIAL := State(
    Host(AwaitCreated, true, 0, FRESH, false), [], Starting, START, false, [], Unborn,
    false, false, 0, false, [], 0, [], [])

  predicate Passed(s: State, g: Gate) {
    Rank(g) < |s.gates|
  }

  function Pass(s: State, g: Gate): State {
    s.(gates := s.gates + [g])
  }

  // ----- the host -----

  datatype HostAction =
    | ReadLine | SeeCreated | SendA | SeeReady | SendG | SeeExec
    | GiveUp   // an exception in Launch: the control pipe is closed
    | Close    // Terminate, Dispose or the death of the host

  /** WaitSignal finds no error stored. */
  predicate Clear(h: Host) {
    !h.readerFailed && h.reader.cleanupError == 0 && h.reader.launchError == 0
  }

  predicate HostEnabled(s: State, a: HostAction) {
    var h := s.host;
    match a
    case ReadLine => !h.readerFailed && h.read < |s.status|
    case SeeCreated => h.launch.AwaitCreated? && h.reader.created && Clear(h)
    case SendA => h.launch.WriteA? && h.controlOpen
    case SeeReady => h.launch.AwaitReady? && h.reader.ready && Clear(h)
    case SendG => h.launch.WriteG? && h.controlOpen
    case SeeExec => h.launch.AwaitExec? && h.reader.executed && Clear(h)
    case GiveUp => !h.launch.Launched?
    case Close => true
  }

  function HostStep(s: State, a: HostAction): State
    requires HostEnabled(s, a)
  {
    var h := s.host;
    match a
    case ReadLine =>
      var r := Accept(h.reader, s.status[h.read]);
      s.(host := if r.Some? then h.(read := h.read + 1, reader := r.value)
                 else h.(readerFailed := true, controlOpen := false))
    case SeeCreated => s.(host := h.(launch := WriteA))
    case SendA => Pass(s.(host := h.(launch := AwaitReady), control := s.control + ['A']), HostA)
    case SeeReady => s.(host := h.(launch := WriteG))
    case SendG => Pass(s.(host := h.(launch := AwaitExec), control := s.control + ['G']), HostG)
    case SeeExec => s.(host := h.(launch := Launched))
    case GiveUp => s.(host := h.(launch := Failed, controlOpen := false))
    case Close => s.(host := h.(controlOpen := false))
  }

  // ----- the controller -----

  datatype ControllerAction =
    | FailEarly(errno: int)
    | ForkInit
    | Watch(pid: int)
    | CannotWatch
    | JoinUnwatched(errno: int)
    | CannotJoinUnwatched(errno: int)
    | StopSignal(kill: Kill)
    | PollFails(kill: Kill)
    | Poll(control: bool, channel: bool, init: bool)
    | TakeCommand(command: Command, sendOk: bool, kill: Kill)
    | Receive(received: Received, kill: Kill)
    | EndPass
    | Join
    | CannotJoin(errno: int)
    | PrintLast
    | Die

  predicate Errno(n: int) {
    0 < n && IsInt32(n)
  }

  /** A kill is answered with ESRCH only when init is gone. */
  predicate PossibleKill(s: State, kill: Kill) {
    match kill
    case Delivered => true
    case Gone => !Alive(s.init)
    case Refused(errno) => Errno(errno)
  }

  /** Messages come in order; the end of the stream and a reset need a closed peer, a
      reset moreover bytes the peer never read (unix(7)). */
  predicate PossibleReceive(s: State, r: Received) {
    match r
    case Message(e) => s.taken < |s.sent| && e == s.sent[s.taken]
    case Empty => s.taken == |s.sent|
    case Eof => s.taken == |s.sent| && !Alive(s.init)
    case Broken => !Alive(s.init) && s.toInit != []
  }

  predicate PossibleCommand(s: State, c: Command) {
    c.Byte? ==> s.control != [] && s.control[0] == c.c
  }

  predicate ControllerEnabled(s: State, a: ControllerAction) {
    var at := s.controller;
    match a
    case FailEarly(errno) => at.Starting? && Errno(errno)
    case ForkInit => at.Starting?
    case Watch(pid) => at.Forked? && Errno(pid)
    case CannotWatch => at.Forked?
    case JoinUnwatched(errno) => at.Unwatched? && s.init.Zombie? && Errno(errno)
    case CannotJoinUnwatched(errno) => at.Unwatched? && Errno(errno)
    case StopSignal(kill) => at.Top? && PossibleKill(s, kill)
    case PollFails(kill) => at.Top? && PossibleKill(s, kill)
    case Poll(control, channel, init) =>
      at.Top? && (control ==> s.flags.controlOpen) && (init ==> s.init.Zombie?)
    case TakeCommand(c, sendOk, kill) =>
      && at.InPass? && at.command
      && PossibleCommand(s, c) && PossibleKill(s, kill)
      && (sendOk ==> Alive(s.init) && s.flags.channelOpen)
    case Receive(r, kill) =>
      at.InPass? && !at.command && at.drain && PossibleReceive(s, r) && PossibleKill(s, kill)
    case EndPass => at.InPass? && !at.command && !at.drain && !at.reap
    case Join => at.InPass? && !at.command && !at.drain && at.reap && s.init.Zombie?
    case CannotJoin(errno) => at.InPass? && !at.command && !at.drain && at.reap && Errno(errno)
    case PrintLast => at.Joined?
    case Die => !Over(at)
  }

  /** What an outcome of the loop does outside the controller. */
  function Effect(s: State, o: Outcome, kill: Kill): State {
    s.(flags := o.flags, status := s.status + o.lines, toInit := s.toInit + o.sends,
       killed := s.killed || (o.killCalled && kill.Delivered? && Alive(s.init)))
  }

  /** The controller ends; an armed init gets its parent-death signal (prctl(2)). */
  function End(s: State, at: ControllerAt): State {
    s.(controller := at, killed := s.killed || (s.armed && Alive(s.init)))
  }

  function GateOfSend(sends: seq<char>): Gate {
    if sends == ['A'] then PassA else PassG
  }

  function ControllerStep(s: State, a: ControllerAction): State
    requires ControllerEnabled(s, a)
  {
    match a
    case FailEarly(errno) => End(s.(status := s.status + [Error(errno), Tree]), Exited)
    case ForkInit => s.(controller := Forked, init := Setup)
    case Watch(pid) => Pass(s.(controller := Top, status := s.status + [Created(pid)]), PrintCreated)
    case CannotWatch => s.(controller := Unwatched, killed := s.killed || Alive(s.init))
    case JoinUnwatched(errno) => s.(controller := Joined([Error(errno), Tree]), init := Reaped)
    case CannotJoinUnwatched(errno) => End(s.(status := s.status + [Error(errno)]), Exited)
    case StopSignal(kill) => Effect(s, Stop(s.flags, kill), kill)
    case PollFails(kill) => Effect(s, Stop(s.flags, kill), kill)
    case Poll(control, channel, init) =>
      s.(controller := InPass(control, (channel || init) && s.flags.channelOpen, init))
    case TakeCommand(c, sendOk, kill) =>
      var o := OnCommand(s.flags, c, sendOk, kill);
      var t := Effect(s, o, kill).(
        control := if c.Byte? then s.control[1..] else s.control,
        controller := s.controller.(command := false));
      if o.sends != [] then Pass(t, GateOfSend(o.sends)) else t
    case Receive(r, kill) =>
      var o := OnReceived(s.flags, r, kill);
      var t := Effect(s, o, kill).(
        taken := if r.Message? then s.taken + 1 else s.taken,
        controller := s.controller.(drain := r.Message?));
      if o.lines == [Ready] then Pass(t, PrintReady)
      else if o.lines == [Exec] then Pass(t, PrintExec)
      else t
    case EndPass => s.(controller := Top)
    case Join => s.(controller := Joined(Farewell(s.flags)), init := Reaped)
    case CannotJoin(errno) => End(s.(status := s.status + [Error(errno)], waitFailed := true), Exited)
    case PrintLast => End(s.(status := s.status + s.controller.last), Exited)
    case Die => End(s, Killed)
  }

  // ----- the init process -----

  datatype InitAction =
    | FinishSetup | ReceiveA | FixCredentials | ArmSignal | CheckOwner | SayReady
    | ReceiveG | ForkPayload | Acknowledge
    | ReportLaunchError(value: int, delivered: bool)
    | ReapChild(isRoot: bool, value: int)
    | Quit
    | Fail(value: int, delivered: bool)

  predicate InitEnabled(s: State, a: InitAction) {
    match a
    case FinishSetup => s.init.Setup?
    case ReceiveA => s.init.Inactive? && s.toInit != [] && s.toInit[0] == 'A'
    case FixCredentials => s.init.Activated?
    case ArmSignal => s.init.CredentialsFinal?
    case CheckOwner => s.init.Armed? && !Over(s.controller)
    case SayReady => s.init.Checked?
    case ReceiveG => s.init.AwaitGo? && s.toInit != [] && s.toInit[0] == 'G'
    case ForkPayload => s.init.Going?
    case Acknowledge => s.init.Acknowledging?
    case ReportLaunchError(v, _) => s.init.Acknowledging? && Errno(v)
    case ReapChild(isRoot, v) => s.init.Reaping? && s.members > (if s.payload && !isRoot then 1 else 0) && IsInt32(v)
    case Quit => s.init.Inactive? || s.init.Armed? || s.init.Checked? || s.init.AwaitGo? || s.init.Acknowledging?
                 || s.init.Reaping?
    case Fail(v, _) =>
      && (s.init.Setup? || s.init.Activated? || s.init.CredentialsFinal? || s.init.Going? || s.init.Reaping?)
      && Errno(v)
  }

  function Send(s: State, e: Event): State {
    s.(sent := s.sent + [e])
  }

  /** Init's part. `isRoot` compares process numbers, which may be reused once the payload
      has been reaped. */
  function InitStep(s: State, a: InitAction): State
    requires InitEnabled(s, a)
  {
    match a
    case FinishSetup => s.(init := Inactive)
    case ReceiveA => Pass(s.(init := Activated, toInit := s.toInit[1..]), TakeA)
    case FixCredentials => Pass(s.(init := CredentialsFinal, armed := false), Credentials)
    case ArmSignal => Pass(s.(init := Armed, armed := true), Arm)
    case CheckOwner => Pass(s.(init := Checked), OwnerAlive)
    case SayReady => Pass(Send(s.(init := AwaitGo), READY), SendReady)
    case ReceiveG => Pass(s.(init := Going, toInit := s.toInit[1..]), TakeG)
    case ForkPayload => Pass(s.(init := Acknowledging, members := 1, payload := true), Fork)
    case Acknowledge => Pass(Send(s.(init := Reaping), EXECUTED), SendExecuted)
    case ReportLaunchError(v, delivered) =>
      var t := s.(init := Reaping);
      if delivered then Send(t, LAUNCH_ERROR(v)) else t
    case ReapChild(isRoot, v) =>
      var t := s.(members := s.members - 1, payload := s.payload && !isRoot);
      if isRoot then Send(t, ROOT_EXIT(v)) else t
    case Quit => s.(init := Exiting)
    case Fail(v, delivered) =>
      var t := s.(init := Exiting);
      if delivered then Send(t, LAUNCH_ERROR(v)) else t
  }

  // ----- the kernel and the other members -----

  datatype KernelAction =
    | Deliver      // the pending SIGKILL ends init
    | Collapse     // a member dies with its namespace
    | BecomeZombie // init can be waited for once no member is left
    | MemberForks  // until its own death reaches it, even when init is already gone
    | MemberEnds

  predicate KernelEnabled(s: State, a: KernelAction) {
    match a
    case Deliver => s.killed && Alive(s.init)
    case Collapse => s.init.Exiting? && s.members > 0
    case BecomeZombie => s.init.Exiting? && s.members == 0
    case MemberForks => (Alive(s.init) || s.init.Exiting?) && s.members > 0
    case MemberEnds => Alive(s.init) && s.members > (if s.payload then 1 else 0)
  }

  function KernelStep(s: State, a: KernelAction): State
    requires KernelEnabled(s, a)
  {
    match a
    case Deliver => s.(init := Exiting)
    case Collapse => s.(members := s.members - 1)
    case BecomeZombie => s.(init := Zombie)
    case MemberForks => s.(members := s.members + 1)
    case MemberEnds => s.(members := s.members - 1)
  }

  // ----- runs -----

  datatype Action =
    | ByHost(host: HostAction)
    | ByController(controller: ControllerAction)
    | ByInit(init: InitAction)
    | ByKernel(kernel: KernelAction)

  predicate Enabled(s: State, a: Action) {
    match a
    case ByHost(h) => HostEnabled(s, h)
    case ByController(c) => ControllerEnabled(s, c)
    case ByInit(i) => InitEnabled(s, i)
    case ByKernel(k) => KernelEnabled(s, k)
  }

  function Step(s: State, a: Action): State
    requires Enabled(s, a)
  {
    match a
    case ByHost(h) => HostStep(s, h)
    case ByController(c) => ControllerStep(s, c)
    case ByInit(i) => InitStep(s, i)
    case ByKernel(k) => KernelStep(s, k)
  }

  /** The states of a run, none if an action is not possible where it stands. */
  function RunFrom(s: State, actions: seq<Action>): Option<State>
    decreases |actions|
  {
    if actions == [] then Some(s)
    else if Enabled(s, actions[0]) then RunFrom(Step(s, actions[0]), actions[1..])
    else None
  }
}
