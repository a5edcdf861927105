/** What every step of the ownership protocol keeps. */
module OwnershipInvariant {
  import opened Numbers
  import opened Schema
  import opened OwnerStatus
  import opened OwnerController
  import opened Ownership

  /** The milestones come in their order, each at most once. */
  ghost predicate InOrder(gates: seq<Gate>) {
    |gates| <= 15 && forall i :: 0 <= i < |gates| ==> Rank(gates[i]) == i
  }

  /** How far init is after `k` milestones. */
  ghost predicate PhaseInv(k: nat, init: Phase, armed: bool) {
    && (match init
        case Unborn => k == 0
        case Setup => k <= 3
        case Inactive => k <= 3
        case Activated => k == 4
        case CredentialsFinal => k == 5
        case Armed => k == 6
        case Checked => k == 7
        case AwaitGo => 8 <= k <= 11
        case Going => k == 12
        case Acknowledging => k == 13
        case Reaping => 13 <= k
        case _ => true)
    && (armed <==> 6 <= k)
  }

  ghost predicate MembersInv(k: nat, init: Phase, members: nat, payload: bool) {
    && (k <= 12 ==> members == 0 && !payload)
    && (init.Zombie? || init.Reaped? || init.Unborn? ==> members == 0)
    && (payload && Alive(init) ==> members >= 1)
  }

  /** What is under way towards init and towards the controller. */
  ghost predicate BytesInv(k: nat, toInit: seq<char>, control: seq<char>) {
    && toInit == (if k == 3 then ['A'] else if k == 11 then ['G'] else [])
    && (control == [] || (k == 2 && control == ['A']) || (k == 10 && control == ['G']))
  }

  /** A payload exit, or a launch error, among the first `n` events. */
  predicate HasRoot(es: seq<Event>, n: nat) {
    exists i :: 0 <= i < |es| && i < n && es[i].ROOT_EXIT?
  }

  predicate HasError(es: seq<Event>, n: nat) {
    exists i :: 0 <= i < |es| && i < n && es[i].LAUNCH_ERROR?
  }

  predicate Sendable(e: Event) {
    match e
    case ROOT_EXIT(v) => IsInt32(v)
    case LAUNCH_ERROR(v) => Errno(v)
    case _ => true
  }

  /** READY is the first event and EXECUTED the second. */
  ghost predicate SentInv(k: nat, init: Phase, sent: seq<Event>) {
    && (forall i :: 0 <= i < |sent| ==>
          Sendable(sent[i]) && (sent[i].READY? ==> i == 0) && (sent[i].EXECUTED? ==> i == 1))
    && (8 <= k <==> |sent| > 0 && sent[0].READY?)
    && (14 <= k <==> |sent| > 1 && sent[1].EXECUTED?)
    && (Alive(init) && k <= 7 ==> sent == [])
    && (init.AwaitGo? || init.Going? || init.Acknowledging? ==> |sent| == 1)
    && (HasRoot(sent, |sent|) ==> 13 <= k)
    && (init.Unborn? ==> sent == [])
  }

  /** What the controller has seen of it. */
  ghost predicate FlagsInv(k: nat, alive: bool, flags: Flags, sent: seq<Event>, taken: nat) {
    && taken <= |sent|
    && (flags.activated <==> 3 <= k)
    && (flags.readySeen <==> 9 <= k)
    && (flags.readySeen <==> taken >= 1 && sent[0].READY?)
    && (flags.execSeen <==> 15 <= k)
    && (flags.execSeen <==> taken >= 2 && sent[1].EXECUTED?)
    && (flags.rootSeen <==> HasRoot(sent, taken))
    && (flags.errorSeen <==> HasError(sent, taken))
    && (!flags.channelOpen ==> taken == |sent| && !alive)
    && (k == 0 ==> flags == START && taken == 0)
  }

  /** Where the controller is. */
  ghost predicate ControllerInv(k: nat, at: ControllerAt, init: Phase, killed: bool) {
    match at
    case Starting => init.Unborn?
    case Forked => k == 0 && !init.Unborn? && !init.Reaped?
    case Unwatched => k == 0 && !init.Unborn? && !init.Reaped? && (Alive(init) ==> killed)
    case Top => 1 <= k && !init.Reaped?
    case InPass(command, drain, reap) => 1 <= k && !init.Reaped? && (reap ==> init.Zombie?)
    case Joined(last) => init.Reaped? && (k == 0 ==> EarlyEnd(last))
    case _ => Alive(init) && 7 <= k ==> killed
  }

  ghost predicate EarlyEnd(last: seq<Line>) {
    |last| == 2 && last[0].Error? && Errno(last[0].number) && last[1].Tree?
  }

  /** Init is reaped only after its channel has been drained, or broken by unread bytes. */
  ghost predicate DrainInv(k: nat, at: ControllerAt, flags: Flags, sent: seq<Event>, taken: nat, toInit: seq<char>) {
    match at
    case InPass(_, drain, reap) => reap ==> drain || taken == |sent| || toInit != []
    case Joined(last) => 1 <= k ==> last == Farewell(flags) && (HasRoot(sent, |sent|) ==> flags.rootSeen)
    case _ => true
  }

  /** What a reader knows after the first `n` lines. */
  ghost function AcceptTo(ls: seq<Line>, n: nat): Option<Reader>
    requires n <= |ls|
  {
    if n == 0 then Some(FRESH)
    else
      var before := AcceptTo(ls, n - 1);
      if before.Some? then Accept(before.value, ls[n - 1]) else None
  }

  /** How many lines obey the order: all but an error after a launch error when waitpid fails. */
  ghost function Regular(waitFailed: bool, errorSeen: bool, status: seq<Line>): (n: nat)
    ensures n <= |status|
  {
    if waitFailed && errorSeen && status != [] then |status| - 1 else |status|
  }

  ghost predicate Tells(r: Reader, k: nat, over: bool, flags: Flags) {
    && (r.created <==> 1 <= k)
    && (r.ready <==> 9 <= k)
    && (r.executed <==> 15 <= k)
    && (r.root <==> flags.rootSeen)
    && (r.cleanupError != 0 ==> flags.stopAttempted && !flags.cancelled)
    && (!over ==> !r.treeReaped && (r.launchError != 0 <==> flags.errorSeen))
  }

  /** What the controller has printed. */
  ghost predicate StatusInv(k: nat, over: bool, flags: Flags, waitFailed: bool, status: seq<Line>) {
    && (forall i :: 0 <= i < |status| ==> Printable(status[i]))
    && (var r := AcceptTo(status, Regular(waitFailed, flags.errorSeen, status));
        r.Some? && Tells(r.value, k, over, flags))
    && (waitFailed ==> over && status != [] && status[|status| - 1].Error?)
    && (AcceptTo(status, |status|).None? <==> waitFailed && flags.errorSeen)
    && (k == 0 && !over ==> status == [])
  }

  /** TREE is last, and final. */
  ghost predicate TreeInv(over: bool, init: Phase, rootSeen: bool, sent: seq<Event>, status: seq<Line>) {
    forall i :: 0 <= i < |status| && status[i].Tree? ==>
      i == |status| - 1 && over && (init.Unborn? || init.Reaped?) && (HasRoot(sent, |sent|) ==> rootSeen)
  }

  /** What the host has read. */
  ghost predicate ReadInv(h: Host, waitFailed: bool, errorSeen: bool, status: seq<Line>) {
    && h.read <= Regular(waitFailed, errorSeen, status)
    && AcceptTo(status, h.read) == Some(h.reader)
    && (h.readerFailed ==> waitFailed && errorSeen)
  }

  /** What it has done. */
  ghost predicate LaunchInv(k: nat, launch: LaunchStep) {
    match launch
    case AwaitCreated => k <= 1
    case WriteA => k == 1
    case AwaitReady => 2 <= k <= 9
    case WriteG => k == 9
    case AwaitExec => 10 <= k
    case Launched => 15 <= k
    case Failed => true
  }

  /** The namespace and its channel. */
  ghost predicate NamespaceInv(s: State) {
    var k := |s.gates|;
    && InOrder(s.gates)
    && PhaseInv(k, s.init, s.armed)
    && MembersInv(k, s.init, s.members, s.payload)
    && BytesInv(k, s.toInit, s.control)
    && SentInv(k, s.init, s.sent)
    && FlagsInv(k, Alive(s.init), s.flags, s.sent, s.taken)
  }

  /** The controller, what it prints, and the host that reads it. */
  ghost predicate OwnerInv(s: State) {
    var k := |s.gates|;
    && ControllerInv(k, s.controller, s.init, s.killed)
    && DrainInv(k, s.controller, s.flags, s.sent, s.taken, s.toInit)
    && StatusInv(k, Over(s.controller), s.flags, s.waitFailed, s.status)
    && TreeInv(Over(s.controller), s.init, s.flags.rootSeen, s.sent, s.status)
    && ReadInv(s.host, s.waitFailed, s.flags.errorSeen, s.status)
    && LaunchInv(k, s.host.launch)
  }

  ghost predicate Inv(s: State) {
    NamespaceInv(s) && OwnerInv(s)
  }

  lemma InitialInv()
    ensures Inv(INITIAL)
  {
  }

  // ----- the line order -----

  lemma {:induction false} AcceptExtended(ls: seq<Line>, more: seq<Line>, n: nat)
    requires n <= |ls|
    ensures AcceptTo(ls + more, n) == AcceptTo(ls, n)
  {
    if n > 0 { AcceptExtended(ls, more, n - 1); }
  }

  lemma AcceptNext(ls: seq<Line>, l: Line)
    ensures AcceptTo(ls + [l], |ls| + 1)
      == if AcceptTo(ls, |ls|).Some? then Accept(AcceptTo(ls, |ls|).value, l) else None
  {
    AcceptExtended(ls, [l], |ls|);
  }

  ghost predicate Earlier(a: Reader, b: Reader) {
    (a.created ==> b.created) && (a.ready ==> b.ready) && (a.executed ==> b.executed)
  }

  lemma {:induction false} PrefixEarlier(ls: seq<Line>, m: nat, n: nat)
    requires m <= n <= |ls| && AcceptTo(ls, n).Some?
    ensures AcceptTo(ls, m).Some? && Earlier(AcceptTo(ls, m).value, AcceptTo(ls, n).value)
    decreases n
  {
    if m < n { PrefixEarlier(ls, m, n - 1); }
  }

  // ----- the host -----

  lemma HostKnows(s: State)
    requires Inv(s)
    ensures s.host.reader.created ==> 1 <= |s.gates|
    ensures s.host.reader.ready ==> 9 <= |s.gates|
    ensures s.host.reader.executed ==> 15 <= |s.gates|
  {
    PrefixEarlier(s.status, s.host.read, Regular(s.waitFailed, s.flags.errorSeen, s.status));
  }

  lemma HostReads(h: Host, waitFailed: bool, errorSeen: bool, status: seq<Line>)
    requires ReadInv(h, waitFailed, errorSeen, status)
    requires h.read < |status|
    requires AcceptTo(status, Regular(waitFailed, errorSeen, status)).Some?
    requires AcceptTo(status, |status|).None? <==> waitFailed && errorSeen
    ensures var r := Accept(h.reader, status[h.read]);
            ReadInv(
              if r.Some? then h.(read := h.read + 1, reader := r.value)
              else h.(readerFailed := true, controlOpen := false),
              waitFailed, errorSeen, status)
  {
    if h.read < Regular(waitFailed, errorSeen, status) {
      PrefixEarlier(status, h.read + 1, Regular(waitFailed, errorSeen, status));
    }
  }

  /** The host writes its next command at its milestone. */
  ghost predicate WritesTo(s: State, t: State) {
    && |s.gates| in {1, 9}
    && t == s.(
         host := t.host, control := if |s.gates| == 1 then ['A'] else ['G'],
         gates := s.gates + [if |s.gates| == 1 then HostA else HostG])
    && t.host == s.host.(launch := if |s.gates| == 1 then AwaitReady else AwaitExec)
  }

  lemma WriteKeepsNamespace(s: State, t: State)
    requires NamespaceInv(s) && WritesTo(s, t)
    ensures NamespaceInv(t)
  {
  }

  lemma WriteKeepsOwner(s: State, t: State)
    requires OwnerInv(s) && WritesTo(s, t)
    ensures OwnerInv(t)
  {
  }

  lemma HostSends(s: State, a: HostAction)
    requires Inv(s) && HostEnabled(s, a) && (a.SendA? || a.SendG?)
    ensures Inv(HostStep(s, a))
  {
    assert s.control == [];
    assert [] + ['A'] == ['A'] && [] + ['G'] == ['G'];
    WriteKeepsNamespace(s, HostStep(s, a));
    WriteKeepsOwner(s, HostStep(s, a));
  }

  lemma HostSees(s: State, a: HostAction)
    requires Inv(s) && HostEnabled(s, a) && (a.SeeCreated? || a.SeeReady? || a.SeeExec?)
    ensures Inv(HostStep(s, a))
  {
    HostKnows(s);
    assert LaunchInv(|s.gates|, HostStep(s, a).host.launch);
  }

  lemma HostReadsLine(s: State)
    requires Inv(s) && HostEnabled(s, ReadLine)
    ensures Inv(HostStep(s, ReadLine))
  {
    HostReads(s.host, s.waitFailed, s.flags.errorSeen, s.status);
  }

  lemma HostStops(s: State, a: HostAction)
    requires Inv(s) && HostEnabled(s, a) && (a.GiveUp? || a.Close?)
    ensures Inv(HostStep(s, a))
  {
  }

  lemma HostKeeps(s: State, a: HostAction)
    requires Inv(s) && HostEnabled(s, a)
    ensures Inv(HostStep(s, a))
  {
    match a
    case ReadLine => HostReadsLine(s);
    case SendA => HostSends(s, a);
    case SendG => HostSends(s, a);
    case GiveUp => HostStops(s, a);
    case Close => HostStops(s, a);
    case _ => HostSees(s, a);
  }

  // ----- the init process -----

  /** One more event sent. */
  lemma SentMore(sent: seq<Event>, e: Event, n: nat)
    requires n <= |sent|
    ensures HasRoot(sent + [e], n) <==> HasRoot(sent, n)
    ensures HasError(sent + [e], n) <==> HasError(sent, n)
    ensures HasRoot(sent + [e], |sent| + 1) <==> HasRoot(sent, |sent|) || e.ROOT_EXIT?
  {
    var more := sent + [e];
    assert forall i :: 0 <= i < |sent| ==> more[i] == sent[i];
    assert more[|sent|] == e;
    if HasRoot(sent, n) {
      var i :| 0 <= i < |sent| && i < n && sent[i].ROOT_EXIT?;
      assert more[i].ROOT_EXIT?;
    }
    if HasError(sent, n) {
      var i :| 0 <= i < |sent| && i < n && sent[i].LAUNCH_ERROR?;
      assert more[i].LAUNCH_ERROR?;
    }
    if HasRoot(sent, |sent|) {
      var i :| 0 <= i < |sent| && sent[i].ROOT_EXIT?;
      assert more[i].ROOT_EXIT?;
    }
  }

  lemma InitArms(s: State, a: InitAction)
    requires Inv(s) && InitEnabled(s, a) && (a.FixCredentials? || a.ArmSignal?)
    ensures Inv(InitStep(s, a))
  {
  }

  lemma InitChecks(s: State)
    requires Inv(s) && InitEnabled(s, CheckOwner)
    ensures Inv(InitStep(s, CheckOwner))
  {
  }

  lemma InitReceivesA(s: State)
    requires Inv(s) && InitEnabled(s, ReceiveA)
    ensures Inv(InitStep(s, ReceiveA))
  {
  }

  lemma InitReceivesG(s: State)
    requires Inv(s) && InitEnabled(s, ReceiveG)
    ensures Inv(InitStep(s, ReceiveG))
  {
  }

  lemma InitForks(s: State)
    requires Inv(s) && InitEnabled(s, ForkPayload)
    ensures Inv(InitStep(s, ForkPayload))
  {
  }

  lemma InitSaysReady(s: State)
    requires Inv(s) && InitEnabled(s, SayReady)
    ensures Inv(InitStep(s, SayReady))
  {
    SentMore(s.sent, READY, s.taken);
  }

  lemma InitAcknowledges(s: State)
    requires Inv(s) && InitEnabled(s, Acknowledge)
    ensures Inv(InitStep(s, Acknowledge))
  {
    SentMore(s.sent, EXECUTED, s.taken);
  }

  /** An exit or an error sent late in init's life. */
  lemma SendKeeps(k: nat, init: Phase, next: Phase, sent: seq<Event>, e: Event, flags: Flags, taken: nat)
    requires SentInv(k, init, sent) && FlagsInv(k, true, flags, sent, taken)
    requires Alive(init) && (next.Exiting? || next.Reaping?) && (next.Reaping? ==> 13 <= k)
    requires Sendable(e) && (e.LAUNCH_ERROR? || (e.ROOT_EXIT? && 13 <= k))
    ensures SentInv(k, next, sent + [e]) && FlagsInv(k, Alive(next), flags, sent + [e], taken)
  {
    SentMore(sent, e, taken);
  }

  /** While init is alive nothing is said about the end. */
  lemma NotEnding(s: State, next: Phase, sent: seq<Event>)
    requires Inv(s) && Alive(s.init)
    ensures DrainInv(|s.gates|, s.controller, s.flags, sent, s.taken, s.toInit)
    ensures TreeInv(Over(s.controller), next, s.flags.rootSeen, sent, s.status)
  {
  }

  /** Init goes on, or ends, and possibly reports an error. */
  ghost predicate ReportsTo(s: State, t: State) {
    && Alive(s.init)
    && t == s.(init := t.init, sent := t.sent)
    && (t.init.Exiting? || (t.init.Reaping? && 13 <= |s.gates|))
    && (t.sent == s.sent || exists v :: Errno(v) && t.sent == s.sent + [LAUNCH_ERROR(v)])
  }

  lemma ReportKeeps(s: State, t: State)
    requires Inv(s) && ReportsTo(s, t)
    ensures Inv(t)
  {
    NotEnding(s, t.init, t.sent);
    if t.sent != s.sent {
      var v :| Errno(v) && t.sent == s.sent + [LAUNCH_ERROR(v)];
      SendKeeps(|s.gates|, s.init, t.init, s.sent, LAUNCH_ERROR(v), s.flags, s.taken);
    }
  }

  lemma ReportStep(s: State, a: InitAction)
    requires InitEnabled(s, a) && (a.ReportLaunchError? || a.Fail?)
    requires a.ReportLaunchError? ==> 13 <= |s.gates|
    ensures ReportsTo(s, InitStep(s, a))
  {
    assert a.delivered ==> InitStep(s, a).sent == s.sent + [LAUNCH_ERROR(a.value)];
  }

  lemma InitReports(s: State, a: InitAction)
    requires Inv(s) && InitEnabled(s, a) && (a.ReportLaunchError? || a.Fail?)
    ensures Inv(InitStep(s, a))
  {
    ReportStep(s, a);
    ReportKeeps(s, InitStep(s, a));
  }

  lemma InitReaps(s: State, a: InitAction)
    requires Inv(s) && InitEnabled(s, a) && a.ReapChild?
    ensures Inv(InitStep(s, a))
  {
    SendKeeps(|s.gates|, s.init, Reaping, s.sent, ROOT_EXIT(a.value), s.flags, s.taken);
    NotEnding(s, Reaping, s.sent + [ROOT_EXIT(a.value)]);
  }

  lemma InitMoves(s: State, a: InitAction)
    requires Inv(s) && InitEnabled(s, a)
    requires a.FinishSetup? || a.Quit?
    ensures Inv(InitStep(s, a))
  {
  }

  lemma InitKeeps(s: State, a: InitAction)
    requires Inv(s) && InitEnabled(s, a)
    ensures Inv(InitStep(s, a))
  {
    match a
    case FinishSetup => InitMoves(s, a);
    case Quit => InitMoves(s, a);
    case ReceiveA => InitReceivesA(s);
    case ReceiveG => InitReceivesG(s);
    case FixCredentials => InitArms(s, a);
    case ArmSignal => InitArms(s, a);
    case CheckOwner => InitChecks(s);
    case SayReady => InitSaysReady(s);
    case ForkPayload => InitForks(s);
    case Acknowledge => InitAcknowledges(s);
    case ReportLaunchError(_, _) => InitReports(s, a);
    case Fail(_, _) => InitReports(s, a);
    case ReapChild(_, _) => InitReaps(s, a);
  }

  // ----- the kernel -----

  lemma KernelKeeps(s: State, a: KernelAction)
    requires Inv(s) && KernelEnabled(s, a)
    ensures Inv(KernelStep(s, a))
  {
  }

  // ----- the controller -----

  lemma EarlyEndAccepted(e: Line)
    requires e.Error? && Errno(e.number)
    ensures var r := FRESH.(launchError := e.number);
            && AcceptTo([e], 1) == Some(r)
            && AcceptTo([e, Tree], 2) == Some(r.(treeReaped := true))
  {
    AcceptNext([], e);
    AcceptNext([e], Tree);
    assert [] + [e] == [e] && [e] + [Tree] == [e, Tree];
  }

  /** The end of a controller that never announced its namespace. */
  lemma EarlyStatus(status: seq<Line>, e: Line, flags: Flags)
    requires e.Error? && Errno(e.number) && flags == START
    requires status == [e] || status == [e, Tree]
    ensures StatusInv(0, true, flags, false, status)
  {
    EarlyEndAccepted(e);
  }

  lemma ReadNothing(h: Host, errorSeen: bool, status: seq<Line>)
    requires ReadInv(h, false, errorSeen, [])
    ensures ReadInv(h, false, errorSeen, status)
  {
  }

  lemma ControllerFailsEarly(s: State, a: ControllerAction)
    requires Inv(s) && ControllerEnabled(s, a) && a.FailEarly?
    ensures Inv(ControllerStep(s, a))
  {
    var t := ControllerStep(s, a);
    assert t.status == [Error(a.errno), Tree];
    EarlyStatus(t.status, Error(a.errno), s.flags);
    ReadNothing(s.host, s.flags.errorSeen, t.status);
  }

  lemma UnwatchedEnd(s: State, a: ControllerAction)
    requires Inv(s) && ControllerEnabled(s, a) && a.CannotJoinUnwatched?
    ensures var t := ControllerStep(s, a);
            && t.controller.Exited? && t.status == [Error(a.errno)] && s.flags == START && |s.gates| == 0
            && t == s.(controller := Exited, status := t.status, killed := t.killed)
            && (Alive(s.init) ==> t.killed) && ReadInv(s.host, false, s.flags.errorSeen, []) && !s.waitFailed
  {
    assert ControllerStep(s, a).status == [Error(a.errno)];
  }

  lemma ControllerCannotJoinEarly(s: State, a: ControllerAction)
    requires Inv(s) && ControllerEnabled(s, a) && a.CannotJoinUnwatched?
    ensures OwnerInv(ControllerStep(s, a))
  {
    var t := ControllerStep(s, a);
    UnwatchedEnd(s, a);
    EarlyStatus(t.status, Error(a.errno), s.flags);
    ReadNothing(s.host, s.flags.errorSeen, t.status);
  }

  lemma ControllerBegins(s: State, a: ControllerAction)
    requires Inv(s) && ControllerEnabled(s, a) && (a.ForkInit? || a.CannotWatch? || a.JoinUnwatched?)
    ensures Inv(ControllerStep(s, a))
  {
  }

  lemma ControllerWatches(s: State, a: ControllerAction)
    requires Inv(s) && ControllerEnabled(s, a) && a.Watch?
    ensures Inv(ControllerStep(s, a))
  {
    AcceptNext([], Created(a.pid));
    assert [] + [Created(a.pid)] == [Created(a.pid)];
  }

  /** A line printed by the loop. */
  lemma Prints(k: nat, next: nat, flags: Flags, flags': Flags, status: seq<Line>, l: Line, h: Host,
               init: Phase, sent: seq<Event>)
    requires StatusInv(k, false, flags, false, status) && ReadInv(h, false, flags.errorSeen, status)
    requires TreeInv(false, init, flags.rootSeen, sent, status)
    requires Printable(l) && !l.Tree? && 1 <= next
    requires forall r :: Tells(r, k, false, flags) ==> Accept(r, l).Some? && Tells(Accept(r, l).value, next, false, flags')
    ensures StatusInv(next, false, flags', false, status + [l]) && ReadInv(h, false, flags'.errorSeen, status + [l])
    ensures TreeInv(false, init, flags'.rootSeen, sent, status + [l])
  {
    AcceptNext(status, l);
    AcceptExtended(status, [l], h.read);
    assert forall i :: 0 <= i < |status| ==> (status + [l])[i] == status[i];
  }

  /** More lines do not change what has been read. */
  lemma ReadExtended(h: Host, waitFailed: bool, errorSeen: bool, status: seq<Line>, more: seq<Line>)
    requires ReadInv(h, false, errorSeen, status)
    requires waitFailed ==> |more| == 1
    ensures ReadInv(h, waitFailed, errorSeen, status + more)
  {
    AcceptExtended(status, more, h.read);
  }

  /** The steps that end in the single attempt to kill the namespace. */
  predicate Stops(s: State, a: ControllerAction) {
    match a
    case StopSignal(_) => true
    case PollFails(_) => true
    case TakeCommand(c, sendOk, _) => !(PassesOn(s.flags, c) && sendOk)
    case Receive(r, _) => r.Broken? || (r.Message? && !Expected(s.flags, r.event))
    case _ => false
  }

  /** What such a step does. */
  ghost predicate StopsTo(s: State, t: State, kill: Kill) {
    var o := Stop(s.flags, kill);
    && t == s.(
         flags := t.flags, status := s.status + o.lines, killed := t.killed,
         control := t.control, controller := t.controller, taken := t.taken)
    && (s.killed ==> t.killed)
    && (t.flags == o.flags || t.flags == o.flags.(controlOpen := false))
    && (t.control == s.control || (s.control != [] && t.control == s.control[1..]))
    && (t.taken == s.taken || (s.taken < |s.sent| && t.taken == s.taken + 1 && !Expected(s.flags, s.sent[s.taken])))
    && (t.controller == s.controller
        || (t.controller.InPass? && s.controller.InPass? && t.controller.reap == s.controller.reap
            && (t.controller.drain || t.controller.drain == s.controller.drain || s.toInit != [])))
  }

  lemma StopOfCommand(s: State, a: ControllerAction)
    requires ControllerEnabled(s, a) && Stops(s, a) && a.TakeCommand?
    ensures StopsTo(s, ControllerStep(s, a), a.kill)
  {
    assert s.toInit + [] == s.toInit;
    assert OnByte(s.flags, a.command, a.sendOk, a.kill) == Stop(s.flags, a.kill);
  }

  lemma StopOfReceive(s: State, a: ControllerAction)
    requires ControllerEnabled(s, a) && Stops(s, a) && a.Receive?
    ensures StopsTo(s, ControllerStep(s, a), a.kill)
  {
    assert s.toInit + [] == s.toInit;
    assert OnReceived(s.flags, a.received, a.kill) == Stop(s.flags, a.kill);
  }

  lemma StopStep(s: State, a: ControllerAction)
    requires ControllerEnabled(s, a) && Stops(s, a)
    ensures StopsTo(s, ControllerStep(s, a), a.kill)
  {
    if a.TakeCommand? {
      StopOfCommand(s, a);
    } else if a.Receive? {
      StopOfReceive(s, a);
    } else {
      assert s.toInit + [] == s.toInit;
    }
  }

  lemma StopFlags(s: State, t: State, kill: Kill)
    requires FlagsInv(|s.gates|, Alive(s.init), s.flags, s.sent, s.taken) && SentInv(|s.gates|, s.init, s.sent)
    requires 1 <= |s.gates| && StopsTo(s, t, kill)
    ensures FlagsInv(|s.gates|, Alive(s.init), t.flags, s.sent, t.taken)
  {
    if t.taken != s.taken { EventSeen(|s.gates|, s.init, s.flags, s.sent, s.taken); }
  }

  /** Only the flags, the count of events taken and the bytes taken have changed. */
  lemma NamespaceFrom(s: State, t: State)
    requires NamespaceInv(s)
    requires t.gates == s.gates && t.init == s.init && t.armed == s.armed && t.members == s.members
    requires t.payload == s.payload && t.toInit == s.toInit && t.sent == s.sent
    requires BytesInv(|s.gates|, s.toInit, t.control)
    requires FlagsInv(|s.gates|, Alive(s.init), t.flags, s.sent, t.taken)
    ensures NamespaceInv(t)
  {
  }

  lemma StopKeepsNamespace(s: State, t: State, kill: Kill)
    requires NamespaceInv(s) && 1 <= |s.gates| && StopsTo(s, t, kill)
    ensures NamespaceInv(t)
  {
    StopFlags(s, t, kill);
    assert t.control != s.control ==> t.control == [];
    NamespaceFrom(s, t);
  }

  lemma StopKeepsOwner(s: State, t: State, kill: Kill)
    requires OwnerInv(s) && StopsTo(s, t, kill) && PossibleKill(s, kill)
    requires 1 <= |s.gates| && !Over(s.controller) && !s.controller.Joined?
    requires s.taken == |s.sent| ==> t.taken == s.taken
    ensures OwnerInv(t)
  {
    var o := Stop(s.flags, kill);
    if o.lines != [] {
      Prints(|s.gates|, |s.gates|, s.flags, t.flags, s.status, o.lines[0], s.host, s.init, s.sent);
    } else {
      assert s.status + [] == s.status;
    }
  }

  lemma ControllerStops(s: State, a: ControllerAction)
    requires Inv(s) && ControllerEnabled(s, a) && Stops(s, a)
    ensures Inv(ControllerStep(s, a))
  {
    StopStep(s, a);
    StopKeepsNamespace(s, ControllerStep(s, a), a.kill);
    StopKeepsOwner(s, ControllerStep(s, a), a.kill);
  }

  lemma ControllerTurns(s: State, a: ControllerAction)
    requires Inv(s) && ControllerEnabled(s, a) && (a.Poll? || a.EndPass?)
    ensures Inv(ControllerStep(s, a))
  {
  }

  /** A command byte is passed on at its milestone, and only then. */
  ghost predicate PassesTo(s: State, t: State) {
    && |s.gates| in {2, 10}
    && var c := if |s.gates| == 2 then 'A' else 'G';
    && t == s.(
         flags := if c == 'A' then s.flags.(activated := true) else s.flags,
         toInit := [c], control := [], controller := t.controller,
         gates := s.gates + [if c == 'A' then PassA else PassG])
    && t.controller.InPass? && s.controller.InPass?
    && t.controller == s.controller.(command := false)
  }

  lemma CommandBytes(s: State, a: ControllerAction)
    requires ControllerEnabled(s, a) && a.TakeCommand?
    requires PassesOn(s.flags, a.command) && a.sendOk
    requires BytesInv(|s.gates|, s.toInit, s.control)
    requires FlagsInv(|s.gates|, Alive(s.init), s.flags, s.sent, s.taken)
    ensures |s.gates| == (if a.command.c == 'A' then 2 else 10)
    ensures s.control == [a.command.c] && s.toInit == [] && Alive(s.init)
  {
  }

  lemma PassedOn(f: Flags, command: Command, kill: Kill)
    requires PassesOn(f, command)
    ensures OnCommand(f, command, true, kill)
      == Outcome(if command.c == 'A' then f.(activated := true) else f, [], [command.c], false)
    ensures GateOfSend([command.c]) == if command.c == 'A' then PassA else PassG
  {
  }

  lemma CommandPasses(s: State, a: ControllerAction)
    requires ControllerEnabled(s, a) && a.TakeCommand?
    requires PassesOn(s.flags, a.command) && a.sendOk
    requires |s.gates| == (if a.command.c == 'A' then 2 else 10)
    requires s.control == [a.command.c] && s.toInit == []
    ensures PassesTo(s, ControllerStep(s, a))
  {
    PassedOn(s.flags, a.command, a.kill);
    assert s.status + [] == s.status && s.control[1..] == [] && s.toInit + [a.command.c] == [a.command.c];
  }

  lemma PassKeepsNamespace(s: State, t: State)
    requires NamespaceInv(s) && PassesTo(s, t) && Alive(s.init)
    ensures NamespaceInv(t)
  {
  }

  lemma PassKeepsOwner(s: State, t: State)
    requires OwnerInv(s) && PassesTo(s, t) && Alive(s.init)
    ensures OwnerInv(t)
  {
  }

  lemma CommandPassed(s: State, a: ControllerAction)
    requires Inv(s) && ControllerEnabled(s, a) && a.TakeCommand?
    requires PassesOn(s.flags, a.command) && a.sendOk
    ensures Inv(ControllerStep(s, a))
  {
    CommandBytes(s, a);
    CommandPasses(s, a);
    PassKeepsNamespace(s, ControllerStep(s, a));
    PassKeepsOwner(s, ControllerStep(s, a));
  }

  lemma SeenMore(sent: seq<Event>, n: nat)
    requires n < |sent|
    ensures HasRoot(sent, n + 1) <==> HasRoot(sent, n) || sent[n].ROOT_EXIT?
    ensures HasError(sent, n + 1) <==> HasError(sent, n) || sent[n].LAUNCH_ERROR?
  {
  }

  function Milestone(e: Event): nat {
    if e.READY? || e.EXECUTED? then 1 else 0
  }

  /** The next event is what the controller expects, or nothing new. */
  lemma EventSeen(k: nat, init: Phase, flags: Flags, sent: seq<Event>, taken: nat)
    requires FlagsInv(k, Alive(init), flags, sent, taken) && SentInv(k, init, sent) && taken < |sent| && 1 <= k
    ensures var e := sent[taken];
            if Expected(flags, e) then
              && (e.READY? ==> k == 8) && (e.EXECUTED? ==> k == 14)
              && FlagsInv(k + Milestone(e), Alive(init), Seen(flags, e), sent, taken + 1)
            else
              (e.ROOT_EXIT? || e.LAUNCH_ERROR?) && FlagsInv(k, Alive(init), flags, sent, taken + 1)
  {
    SeenMore(sent, taken);
  }

  /** An expected event is printed. */
  ghost predicate Announces(s: State, t: State) {
    && s.taken < |s.sent|
    && var e := s.sent[s.taken];
    && Expected(s.flags, e)
    && t == s.(
         flags := Seen(s.flags, e), taken := s.taken + 1, status := s.status + [LineOf(e)],
         controller := t.controller,
         gates := if e.READY? then s.gates + [PrintReady] else if e.EXECUTED? then s.gates + [PrintExec] else s.gates)
    && t.controller.InPass? && s.controller.InPass?
    && t.controller == s.controller.(drain := true)
  }

  lemma ReceiveExpected(s: State, a: ControllerAction, e: Event)
    requires ControllerEnabled(s, a) && a.Receive? && a.received == Message(e) && Expected(s.flags, e)
    ensures Announces(s, ControllerStep(s, a))
  {
    var o := OnReceived(s.flags, a.received, a.kill);
    assert o.lines == [LineOf(e)] && o.sends == [] && s.toInit + [] == s.toInit;
    assert o.lines[0] == LineOf(e);
  }

  lemma AnnounceKeepsNamespace(s: State, t: State)
    requires NamespaceInv(s) && Announces(s, t) && 1 <= |s.gates|
    ensures NamespaceInv(t)
  {
    EventSeen(|s.gates|, s.init, s.flags, s.sent, s.taken);
  }

  lemma AnnounceKeepsOwner(s: State, t: State)
    requires Inv(s) && Announces(s, t)
    ensures OwnerInv(t)
  {
    var k, e := |s.gates|, s.sent[s.taken];
    EventSeen(k, s.init, s.flags, s.sent, s.taken);
    assert Sendable(e);
    Prints(k, k + Milestone(e), s.flags, Seen(s.flags, e), s.status, LineOf(e), s.host, s.init, s.sent);
  }

  lemma ControllerAnnounces(s: State, a: ControllerAction, e: Event)
    requires Inv(s) && ControllerEnabled(s, a) && a.Receive? && a.received == Message(e) && Expected(s.flags, e)
    ensures Inv(ControllerStep(s, a))
  {
    ReceiveExpected(s, a, e);
    AnnounceKeepsNamespace(s, ControllerStep(s, a));
    AnnounceKeepsOwner(s, ControllerStep(s, a));
  }

  /** An empty or closed channel ends the drain. */
  ghost predicate DrainsTo(s: State, t: State) {
    && s.controller.InPass? && s.taken == |s.sent|
    && t == s.(flags := t.flags, controller := s.controller.(drain := false))
    && (t.flags == s.flags || (t.flags == s.flags.(channelOpen := false) && !Alive(s.init)))
  }

  lemma ReceiveNothing(s: State, a: ControllerAction)
    requires ControllerEnabled(s, a) && a.Receive? && (a.received.Empty? || a.received.Eof?)
    ensures DrainsTo(s, ControllerStep(s, a))
  {
    assert s.status + [] == s.status && s.toInit + [] == s.toInit;
  }

  lemma DrainKeepsNamespace(s: State, t: State)
    requires NamespaceInv(s) && DrainsTo(s, t) && 1 <= |s.gates|
    ensures NamespaceInv(t)
  {
    NamespaceFrom(s, t);
  }

  lemma DrainKeepsOwner(s: State, t: State)
    requires OwnerInv(s) && DrainsTo(s, t)
    ensures OwnerInv(t)
  {
  }

  lemma ControllerDrains(s: State, a: ControllerAction)
    requires Inv(s) && ControllerEnabled(s, a) && a.Receive? && (a.received.Empty? || a.received.Eof?)
    ensures Inv(ControllerStep(s, a))
  {
    ReceiveNothing(s, a);
    DrainKeepsNamespace(s, ControllerStep(s, a));
    DrainKeepsOwner(s, ControllerStep(s, a));
  }

  lemma ControllerJoins(s: State, a: ControllerAction)
    requires Inv(s) && ControllerEnabled(s, a) && a.Join?
    ensures Inv(ControllerStep(s, a))
  {
  }

  /** The error of a failing waitpid breaks the order exactly after a launch error. */
  lemma FinalError(k: nat, flags: Flags, status: seq<Line>, errno: int)
    requires StatusInv(k, false, flags, false, status) && Errno(errno) && 1 <= k
    ensures StatusInv(k, true, flags, true, status + [Error(errno)])
  {
    AcceptNext(status, Error(errno));
    AcceptExtended(status, [Error(errno)], |status|);
  }

  lemma ControllerCannotJoin(s: State, a: ControllerAction)
    requires Inv(s) && ControllerEnabled(s, a) && a.CannotJoin?
    ensures OwnerInv(ControllerStep(s, a))
  {
    FinalError(|s.gates|, s.flags, s.status, a.errno);
    ReadExtended(s.host, true, s.flags.errorSeen, s.status, [Error(a.errno)]);
  }

  /** The last lines keep the order. */
  lemma LastLines(k: nat, flags: Flags, status: seq<Line>)
    requires StatusInv(k, false, flags, false, status) && 1 <= k
    ensures StatusInv(k, true, flags, false, status + Farewell(flags))
  {
    if !flags.rootSeen && !flags.cancelled && !flags.errorSeen {
      var e := Error(ECHILD);
      AcceptNext(status, e);
      AcceptNext(status + [e], Tree);
      assert status + [e] + [Tree] == status + Farewell(flags);
    } else {
      AcceptNext(status, Tree);
      assert status + [Tree] == status + Farewell(flags);
    }
  }

  lemma LastStatus(s: State, last: seq<Line>)
    requires Inv(s) && s.controller == Joined(last)
    ensures StatusInv(|s.gates|, true, s.flags, false, s.status + last)
  {
    if |s.gates| == 0 {
      assert last == [last[0], Tree] && s.status + last == last;
      EarlyStatus(last, last[0], s.flags);
    } else {
      LastLines(|s.gates|, s.flags, s.status);
    }
  }

  lemma LastKeepsOwner(s: State, t: State)
    requires Inv(s) && s.controller.Joined?
    requires t == s.(controller := Exited, status := s.status + s.controller.last, killed := t.killed)
    ensures OwnerInv(t)
  {
    ReadExtended(s.host, false, s.flags.errorSeen, s.status, s.controller.last);
    LastStatus(s, s.controller.last);
    TreeLast(s, s.controller.last);
  }

  lemma TreeLast(s: State, last: seq<Line>)
    requires Inv(s) && s.controller == Joined(last)
    ensures TreeInv(true, s.init, s.flags.rootSeen, s.sent, s.status + last)
  {
    var all := s.status + last;
    assert forall i :: 0 <= i < |s.status| ==> all[i] == s.status[i];
    assert forall i :: |s.status| <= i < |all| ==> all[i] == last[i - |s.status|];
  }

  lemma ControllerPrintsLast(s: State)
    requires Inv(s) && ControllerEnabled(s, PrintLast)
    ensures Inv(ControllerStep(s, PrintLast))
  {
    LastKeepsOwner(s, ControllerStep(s, PrintLast));
    SameNamespace(s, ControllerStep(s, PrintLast));
  }

  lemma ControllerDies(s: State)
    requires Inv(s) && ControllerEnabled(s, Die)
    ensures OwnerInv(ControllerStep(s, Die))
  {
  }

  /** Changes that touch neither the namespace nor its channel. */
  lemma SameNamespace(s: State, t: State)
    requires NamespaceInv(s)
    requires t == s.(controller := t.controller, status := t.status, killed := t.killed, waitFailed := t.waitFailed)
    ensures NamespaceInv(t)
  {
  }

  lemma ReceiveKeeps(s: State, a: ControllerAction)
    requires Inv(s) && ControllerEnabled(s, a) && a.Receive?
    ensures Inv(ControllerStep(s, a))
  {
    match a.received
    case Message(e) =>
      if Expected(s.flags, e) {
        ControllerAnnounces(s, a, e);
      } else {
        ControllerStops(s, a);
      }
    case Empty => ControllerDrains(s, a);
    case Eof => ControllerDrains(s, a);
    case Broken => ControllerStops(s, a);
  }

  lemma LoopKeeps(s: State, a: ControllerAction)
    requires Inv(s) && ControllerEnabled(s, a)
    requires a.StopSignal? || a.PollFails? || a.Poll? || a.EndPass? || a.TakeCommand? || a.Receive?
    ensures Inv(ControllerStep(s, a))
  {
    match a
    case StopSignal(_) => ControllerStops(s, a);
    case PollFails(_) => ControllerStops(s, a);
    case Poll(_, _, _) => ControllerTurns(s, a);
    case EndPass => ControllerTurns(s, a);
    case TakeCommand(c, sendOk, _) =>
      if PassesOn(s.flags, c) && sendOk {
        CommandPassed(s, a);
      } else {
        ControllerStops(s, a);
      }
    case Receive(_, _) => ReceiveKeeps(s, a);
  }

  lemma EndKeeps(s: State, a: ControllerAction)
    requires Inv(s) && ControllerEnabled(s, a)
    requires a.CannotJoinUnwatched? || a.CannotJoin? || a.Die?
    ensures Inv(ControllerStep(s, a))
  {
    SameNamespace(s, ControllerStep(s, a));
    match a
    case CannotJoinUnwatched(_) => ControllerCannotJoinEarly(s, a);
    case CannotJoin(_) => ControllerCannotJoin(s, a);
    case Die => ControllerDies(s);
  }

  lemma StartKeeps(s: State, a: ControllerAction)
    requires Inv(s) && ControllerEnabled(s, a)
    requires a.FailEarly? || a.ForkInit? || a.CannotWatch? || a.JoinUnwatched? || a.Watch?
    ensures Inv(ControllerStep(s, a))
  {
    match a
    case FailEarly(_) => ControllerFailsEarly(s, a);
    case Watch(_) => ControllerWatches(s, a);
    case _ => ControllerBegins(s, a);
  }

  lemma ControllerKeeps(s: State, a: ControllerAction)
    requires Inv(s) && ControllerEnabled(s, a)
    ensures Inv(ControllerStep(s, a))
  {
    if a.FailEarly? || a.ForkInit? || a.CannotWatch? || a.JoinUnwatched? || a.Watch? {
      StartKeeps(s, a);
    } else if a.CannotJoinUnwatched? || a.CannotJoin? || a.Die? {
      EndKeeps(s, a);
    } else if a.Join? {
      ControllerJoins(s, a);
    } else if a.PrintLast? {
      ControllerPrintsLast(s);
    } else {
      LoopKeeps(s, a);
    }
  }

  lemma StepKeeps(s: State, a: Action)
    requires Inv(s) && Enabled(s, a)
    ensures Inv(Step(s, a))
  {
    match a
    case ByHost(h) => HostKeeps(s, h);
    case ByController(c) => ControllerKeeps(s, c);
    case ByInit(i) => InitKeeps(s, i);
    case ByKernel(k) => KernelKeeps(s, k);
  }

  /** The invariant holds in every reachable state. */
  lemma {:induction false} RunKeeps(s: State, actions: seq<Action>)
    requires Inv(s)
    ensures RunFrom(s, actions).Some? ==> Inv(RunFrom(s, actions).value)
    decreases |actions|
  {
    if actions != [] && Enabled(s, actions[0]) {
      StepKeeps(s, actions[0]);
      RunKeeps(Step(s, actions[0]), actions[1..]);
    }
  }
}
