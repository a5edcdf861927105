/** How a job ends: when the controller tries to kill the namespace, what its last lines are, and
    when the host goes on with a launch. All of it is told from the run and the lines printed. */
module OwnershipEnd {
  import opened Schema
  import opened OwnerStatus
  import opened OwnerController
  import opened Ownership
  import opened OwnershipInvariant
  import opened OwnershipPasses
  import opened OwnershipSafety

  // ----- runs, step by step -----

  lemma {:induction false} PrefixRuns(s: State, actions: seq<Action>, n: nat)
    requires RunFrom(s, actions).Some? && n <= |actions|
    ensures RunFrom(s, actions[..n]).Some?
    decreases |actions|
  {
    if n > 0 {
      PrefixRuns(Step(s, actions[0]), actions[1..], n - 1);
      assert actions[..n][1..] == actions[1..][..n - 1];
    }
  }

  /** The state before the last action of a run. */
  lemma LastStep(actions: seq<Action>) returns (s: State)
    requires actions != [] && RunFrom(INITIAL, actions).Some?
    ensures var n := |actions| - 1;
            && RunFrom(INITIAL, actions[..n]) == Some(s) && Enabled(s, actions[n])
            && RunFrom(INITIAL, actions) == Some(Step(s, actions[n]))
  {
    var n := |actions| - 1;
    PrefixRuns(INITIAL, actions, n);
    s := RunFrom(INITIAL, actions[..n]).value;
    assert actions == actions[..n] + [actions[n]];
    RunConcat(INITIAL, actions[..n], [actions[n]]);
    assert [actions[n]][1..] == [];
  }

  // ----- the attempt to kill -----

  /** Some line of this sort has been printed. */
  ghost predicate Has(s: State, p: Line -> bool) {
    Printed(s.status, |s.status|, p)
  }

  /** A message is out of place: it has been announced before, or EXECUTED comes before READY. */
  ghost predicate OutOfPlace(s: State, e: Event) {
    match e
    case READY => Has(s, IsReady)
    case EXECUTED => !Has(s, IsReady) || Has(s, IsExec)
    case ROOT_EXIT(_) => Has(s, IsRoot)
    case LAUNCH_ERROR(_) => Has(s, IsError)
  }

  /** What makes the controller kill the namespace: a signal, a failing poll, anything on the control
      pipe but the first A and, after READY, G, a byte that init does not take, and a message that is
      broken or out of place. The end of the control pipe is among them. */
  ghost predicate CallsKill(s: State, a: Action) {
    a.ByController?
    && match a.controller
       case StopSignal(_) => true
       case PollFails(_) => true
       case TakeCommand(c, sendOk, _) =>
         !(sendOk && ((c == Byte('A') && !Passed(s, PassA)) || (c == Byte('G') && Passed(s, PassA) && Has(s, IsReady))))
       case Receive(Broken, _) => true
       case Receive(Message(e), _) => OutOfPlace(s, e)
       case _ => false
  }

  /** What the kill is answered with. */
  function KillOf(a: Action): Kill {
    match a
    case ByController(StopSignal(kill)) => kill
    case ByController(PollFails(kill)) => kill
    case ByController(TakeCommand(_, _, kill)) => kill
    case ByController(Receive(_, kill)) => kill
    case _ => Gone
  }

  /** While the controller runs, what it has seen is what it has printed. */
  lemma SeenIsPrinted(s: State)
    requires Inv(s) && !Over(s.controller)
    ensures s.flags.readySeen <==> Has(s, IsReady)
    ensures s.flags.execSeen <==> Has(s, IsExec)
    ensures s.flags.rootSeen <==> Has(s, IsRoot)
    ensures s.flags.errorSeen <==> Has(s, IsError)
    ensures s.flags.activated <==> Passed(s, PassA)
  {
    assert !s.waitFailed;
    ReaderKnows(s.status, |s.status|);
    ReaderKnowsLaunch(s.status, |s.status|);
  }

  lemma CallsKillIs(s: State, a: ControllerAction)
    requires Inv(s) && ControllerEnabled(s, a) && !s.flags.stopAttempted
    ensures CallsKill(s, ByController(a)) <==> Stops(s, a)
  {
    SeenIsPrinted(s);
  }

  /** What the guarded kill leaves behind. */
  ghost predicate Guarded(s: State, t: State, kill: Kill) {
    var o := Stop(s.flags, kill);
    && t.flags.stopAttempted == o.flags.stopAttempted && t.flags.cancelled == o.flags.cancelled
    && t.status == s.status + o.lines
    && (o.killCalled && kill.Delivered? && Alive(s.init) ==> t.killed)
  }

  lemma SignalEffect(s: State, a: ControllerAction)
    requires ControllerEnabled(s, a) && (a.StopSignal? || a.PollFails?)
    ensures Guarded(s, ControllerStep(s, a), a.kill)
  {
  }

  lemma CommandKills(s: State, c: Command, sendOk: bool, kill: Kill)
    requires ControllerEnabled(s, TakeCommand(c, sendOk, kill))
    ensures var o := OnCommand(s.flags, c, sendOk, kill);
            ControllerStep(s, TakeCommand(c, sendOk, kill)).killed
              == (s.killed || (o.killCalled && kill.Delivered? && Alive(s.init)))
  {
    var o := OnCommand(s.flags, c, sendOk, kill);
    var e := Effect(s, o, kill);
    var t := e.(control := if c.Byte? then s.control[1..] else s.control, controller := s.controller.(command := false));
    var u := ControllerStep(s, TakeCommand(c, sendOk, kill));
    assert u == t || u == Ownership.Pass(t, GateOfSend(o.sends));
  }

  lemma StoppedCommand(f: Flags, c: Command, sendOk: bool, kill: Kill)
    requires !(PassesOn(f, c) && sendOk)
    ensures var o, stop := OnCommand(f, c, sendOk, kill), Stop(f, kill);
            && o.flags.stopAttempted == stop.flags.stopAttempted && o.flags.cancelled == stop.flags.cancelled
            && o.lines == stop.lines && o.killCalled == stop.killCalled
  {
  }

  lemma CommandEffect(s: State, a: ControllerAction)
    requires ControllerEnabled(s, a) && a.TakeCommand? && Stops(s, a)
    ensures Guarded(s, ControllerStep(s, a), a.kill)
  {
    StoppedCommand(s.flags, a.command, a.sendOk, a.kill);
    CommandStep(s, a.command, a.sendOk, a.kill);
    CommandKills(s, a.command, a.sendOk, a.kill);
  }

  lemma MessageEffect(s: State, a: ControllerAction)
    requires ControllerEnabled(s, a) && a.Receive? && Stops(s, a)
    ensures Guarded(s, ControllerStep(s, a), a.kill)
  {
    var o := OnReceived(s.flags, a.received, a.kill);
    assert o == Stop(s.flags, a.kill);
    ReceiveForm(s, a.received, a.kill);
  }

  lemma StopEffect(s: State, a: ControllerAction)
    requires ControllerEnabled(s, a) && Stops(s, a)
    ensures Guarded(s, ControllerStep(s, a), a.kill)
  {
    match a
    case TakeCommand(_, _, _) => CommandEffect(s, a);
    case Receive(_, _) => MessageEffect(s, a);
    case _ => SignalEffect(s, a);
  }

  ghost predicate Unguarded(s: State, t: State) {
    t.flags.stopAttempted == s.flags.stopAttempted && t.flags.cancelled == s.flags.cancelled
  }

  lemma CommandPassesOn(s: State, a: ControllerAction)
    requires ControllerEnabled(s, a) && a.TakeCommand? && !Stops(s, a)
    ensures Unguarded(s, ControllerStep(s, a))
  {
    PassedOn(s.flags, a.command, a.kill);
  }

  lemma MessagePassesOn(s: State, a: ControllerAction)
    requires ControllerEnabled(s, a) && a.Receive? && !Stops(s, a)
    ensures Unguarded(s, ControllerStep(s, a))
  {
    ReceiveForm(s, a.received, a.kill);
  }

  lemma OtherEffect(s: State, a: ControllerAction)
    requires ControllerEnabled(s, a) && !Stops(s, a)
    ensures Unguarded(s, ControllerStep(s, a))
  {
    match a
    case TakeCommand(_, _, _) => CommandPassesOn(s, a);
    case Receive(_, _) => MessagePassesOn(s, a);
    case _ =>
  }

  lemma ControllerKillEffect(s: State, a: ControllerAction)
    requires Inv(s) && ControllerEnabled(s, a)
    ensures var t, tried := ControllerStep(s, a), CallsKill(s, ByController(a)) && !s.flags.stopAttempted;
            var kill := KillOf(ByController(a));
            && (t.flags.stopAttempted <==> s.flags.stopAttempted || CallsKill(s, ByController(a)))
            && (t.flags.cancelled <==> if tried then !kill.Refused? else s.flags.cancelled)
            && (tried ==> t.status == s.status + if kill.Refused? then [Fault(kill.errno)] else [])
            && (tried && kill.Delivered? && Alive(s.init) ==> t.killed)
  {
    if !s.flags.stopAttempted { CallsKillIs(s, a); }
    if Stops(s, a) { StopEffect(s, a); } else { OtherEffect(s, a); }
  }

  lemma HostLeavesFlags(s: State, a: HostAction)
    requires HostEnabled(s, a)
    ensures HostStep(s, a).flags == s.flags
  {
  }

  lemma InitLeavesFlags(s: State, a: InitAction)
    requires InitEnabled(s, a)
    ensures InitStep(s, a).flags == s.flags
  {
    match a
    case ReapChild(isRoot, _) => assert InitStep(s, a).flags == s.flags;
    case ReportLaunchError(_, _) => assert InitStep(s, a).flags == s.flags;
    case Fail(_, _) => assert InitStep(s, a).flags == s.flags;
    case _ =>
  }

  lemma OthersLeaveFlags(s: State, a: Action)
    requires Enabled(s, a) && !a.ByController?
    ensures Step(s, a).flags == s.flags
  {
    match a
    case ByHost(h) => HostLeavesFlags(s, h);
    case ByInit(i) => InitLeavesFlags(s, i);
    case ByKernel(_) =>
  }

  /** The first attempt is the only one. When it is refused the reason is printed, otherwise the job
      counts as cancelled, and a kill that is delivered reaches init. */
  lemma KillEffect(s: State, a: Action)
    requires Inv(s) && Enabled(s, a)
    ensures var t, tried := Step(s, a), CallsKill(s, a) && !s.flags.stopAttempted;
            && (t.flags.stopAttempted <==> s.flags.stopAttempted || CallsKill(s, a))
            && (t.flags.cancelled <==> if tried then !KillOf(a).Refused? else s.flags.cancelled)
            && (tried ==> t.status == s.status + if KillOf(a).Refused? then [Fault(KillOf(a).errno)] else [])
            && (tried && KillOf(a).Delivered? && Alive(s.init) ==> t.killed)
  {
    if a.ByController? { ControllerKillEffect(s, a.controller); } else { OthersLeaveFlags(s, a); }
  }

  // ----- what the controller prints and passes on -----

  /** A message in its place is announced by its line. */
  lemma MessageIsAnnounced(s: State, e: Event, kill: Kill)
    requires Inv(s) && ControllerEnabled(s, Receive(Message(e), kill)) && !OutOfPlace(s, e)
    ensures ControllerStep(s, Receive(Message(e), kill)).status == s.status + [
      match e
      case READY => Ready
      case EXECUTED => Exec
      case ROOT_EXIT(v) => Root(v)
      case LAUNCH_ERROR(v) => Error(v)]
  {
    SeenIsPrinted(s);
    ReceiveForm(s, Message(e), kill);
  }

  lemma StopLeavesOpen(f: Flags, kill: Kill)
    ensures var o := Stop(f, kill);
            && o.flags.channelOpen == f.channelOpen && o.flags.controlOpen == f.controlOpen && o.sends == []
            && (f.stopAttempted ==> o.lines == [])
  {
  }

  lemma SeenLeavesOpen(f: Flags, e: Event)
    ensures Seen(f, e).channelOpen == f.channelOpen
  {
    match e
    case READY => assert Seen(f, e) == f.(readySeen := true);
    case EXECUTED => assert Seen(f, e) == f.(execSeen := true);
    case ROOT_EXIT(_) => assert Seen(f, e) == f.(rootSeen := true);
    case LAUNCH_ERROR(_) => assert Seen(f, e) == f.(errorSeen := true);
  }

  lemma EndCloses(f: Flags, r: Received, kill: Kill)
    ensures OnReceived(f, r, kill).flags.channelOpen <==> f.channelOpen && !r.Eof?
  {
    StopLeavesOpen(f, kill);
    if r.Message? {
      SeenLeavesOpen(f, r.event);
      assert OnReceived(f, r, kill) == OnEvent(f, r.event, kill);
    }
  }

  /** The channel counts as closed once its end has been read. */
  lemma ChannelCloses(s: State, r: Received, kill: Kill)
    requires ControllerEnabled(s, Receive(r, kill))
    ensures ControllerStep(s, Receive(r, kill)).flags.channelOpen <==> s.flags.channelOpen && !r.Eof?
  {
    EndCloses(s.flags, r, kill);
    ReceiveStep(s, r, kill);
  }

  lemma ByteGoes(f: Flags, c: Command, sendOk: bool, kill: Kill)
    ensures var o := OnCommand(f, c, sendOk, kill);
            var fits := (c == Byte('A') && !f.activated) || (c == Byte('G') && f.activated && f.readySeen);
            && o.sends == (if fits && sendOk && !f.stopAttempted then [c.c] else [])
            && ((fits && sendOk) || f.stopAttempted ==> o.lines == [])
            && (o.flags.controlOpen <==> f.controlOpen && (c == Byte('A') || c == Byte('G')))
  {
    StopLeavesOpen(f, kill);
    if PassesOn(f, c) && sendOk { PassedOn(f, c, kill); } else { assert OnByte(f, c, sendOk, kill) == Stop(f, kill); }
  }

  /** A and G go to init unless they, or something before them, call for the kill. The control pipe
      counts as closed after anything but an A or a G. */
  lemma CommandIsPassedOn(s: State, c: Command, sendOk: bool, kill: Kill)
    requires Inv(s) && ControllerEnabled(s, TakeCommand(c, sendOk, kill))
    ensures var a := TakeCommand(c, sendOk, kill);
            var t, kept := ControllerStep(s, a), !CallsKill(s, ByController(a)) && !s.flags.stopAttempted;
            && t.toInit == s.toInit + (if kept then [c.c] else [])
            && (kept || s.flags.stopAttempted ==> t.status == s.status)
            && (t.flags.controlOpen <==> s.flags.controlOpen && (c == Byte('A') || c == Byte('G')))
  {
    SeenIsPrinted(s);
    ByteGoes(s.flags, c, sendOk, kill);
    CommandStep(s, c, sendOk, kill);
  }

  // ----- cancelled jobs -----

  /** The i-th action of a run calls for the kill. */
  ghost predicate KillsAt(actions: seq<Action>, i: nat) {
    && i < |actions| && RunFrom(INITIAL, actions[..i]).Some?
    && CallsKill(RunFrom(INITIAL, actions[..i]).value, actions[i])
  }

  ghost predicate FirstKill(actions: seq<Action>, i: nat) {
    KillsAt(actions, i) && forall j: nat | j < i :: !KillsAt(actions, j)
  }

  /** The kill of the run was delivered, or init was gone already. */
  ghost predicate Cancelled(actions: seq<Action>) {
    exists i: nat :: FirstKill(actions, i) && !KillOf(actions[i]).Refused?
  }

  ghost predicate EverKills(actions: seq<Action>) {
    exists i: nat :: KillsAt(actions, i)
  }

  /** An earlier action kills in the longer run as in the shorter one. */
  lemma KillsLater(actions: seq<Action>, before: seq<Action>, i: nat)
    requires before <= actions && i < |before|
    ensures KillsAt(actions, i) <==> KillsAt(before, i)
    ensures FirstKill(actions, i) <==> FirstKill(before, i)
  {
    forall j: nat | j <= i ensures KillsAt(actions, j) <==> KillsAt(before, j) {
      assert before[..j] == actions[..j] && before[j] == actions[j];
    }
  }

  /** The two flags tell the same of a run. */
  lemma {:induction false} FlagsTellKills(actions: seq<Action>, s: State)
    requires RunFrom(INITIAL, actions) == Some(s)
    ensures s.flags.stopAttempted <==> EverKills(actions)
    ensures s.flags.cancelled <==> Cancelled(actions)
    decreases |actions|
  {
    if actions != [] {
      var n := |actions| - 1;
      var before := LastStep(actions);
      FlagsTellKills(actions[..n], before);
      RunKeeps(INITIAL, actions[..n]);
      InitialInv();
      KillEffect(before, actions[n]);
      assert KillsAt(actions, n) <==> CallsKill(before, actions[n]);
      KillsExtended(actions, actions[..n]);
    }
  }

  lemma KillsExtended(actions: seq<Action>, before: seq<Action>)
    requires actions != [] && before == actions[..|actions| - 1]
    ensures EverKills(actions) <==> EverKills(before) || KillsAt(actions, |before|)
    ensures Cancelled(actions) <==>
      Cancelled(before)
      || (!EverKills(before) && KillsAt(actions, |before|) && !KillOf(actions[|before|]).Refused?)
  {
    forall i: nat | i < |before|
      ensures KillsAt(actions, i) <==> KillsAt(before, i)
      ensures FirstKill(actions, i) <==> FirstKill(before, i)
    {
      KillsLater(actions, before, i);
    }
    if Cancelled(actions) {
      var i: nat :| FirstKill(actions, i) && !KillOf(actions[i]).Refused?;
      assert i < |before| ==> FirstKill(before, i) && before[i] == actions[i];
      assert i == |before| ==> forall j: nat | j < |before| :: !KillsAt(before, j);
    }
    if Cancelled(before) {
      var i: nat :| FirstKill(before, i) && !KillOf(before[i]).Refused?;
      assert FirstKill(actions, i) && before[i] == actions[i];
    }
    if !EverKills(before) && KillsAt(actions, |before|) {
      forall j: nat | j < |before| ensures !KillsAt(actions, j) { assert !KillsAt(before, j); }
      assert FirstKill(actions, |before|);
    }
  }

  // ----- the last lines -----

  /** The lines that end a job: a payload that left no exit and a job that was neither cancelled nor
      failed make an error of their own. */
  lemma LastLinesAre(actions: seq<Action>, s: State)
    requires RunFrom(INITIAL, actions) == Some(s) && s.controller.Joined? && s.status != []
    ensures s.controller.last ==
      if !Has(s, IsRoot) && !Has(s, IsError) && !Cancelled(actions) then [Error(10), Tree] else [Tree]
    ensures Enabled(s, ByController(PrintLast))
    ensures Step(s, ByController(PrintLast)).status == s.status + s.controller.last
  {
    FlagsTellKills(actions, s);
    InitialInv();
    RunKeeps(INITIAL, actions);
    SeenIsPrinted(s);
  }

  // ----- the host -----

  /** A line of this sort is among those the host has read. */
  ghost predicate HasRead(s: State, p: Line -> bool) {
    Printed(s.status, s.host.read, p)
  }

  /** The host goes on with a launch exactly when the reader has the line it waits for, and neither
      an error nor a fault, and has not failed. */
  lemma HostGoesOn(s: State)
    requires Reachable(s)
    ensures var good := !s.host.readerFailed && !HasRead(s, IsError) && !HasRead(s, IsFault);
            && (HostEnabled(s, SeeCreated) <==> s.host.launch == AwaitCreated && HasRead(s, IsCreated) && good)
            && (HostEnabled(s, SeeReady) <==> s.host.launch == AwaitReady && HasRead(s, IsReady) && good)
            && (HostEnabled(s, SeeExec) <==> s.host.launch == AwaitExec && HasRead(s, IsExec) && good)
  {
    ReachableInv(s);
    ReaderKnows(s.status, s.host.read);
    ReaderKnowsLaunch(s.status, s.host.read);
  }

  lemma ReadIsAccept(s: State)
    requires Reachable(s) && HostEnabled(s, ReadLine)
    ensures AcceptAll(FRESH, s.status[..s.host.read + 1]) == Accept(s.host.reader, s.status[s.host.read])
  {
    ReachableInv(s);
    AcceptAllIsAcceptTo(s.status, s.host.read + 1);
  }

  /** The host closes the control pipe when it gives up, stops the job or dies, or reads a line that
      breaks the order, and never opens it again. */
  lemma HostCloses(s: State, a: HostAction)
    requires Reachable(s) && HostEnabled(s, a)
    ensures HostStep(s, a).host.controlOpen <==>
      && s.host.controlOpen && a != GiveUp && a != Close
      && !(a == ReadLine && AcceptAll(FRESH, s.status[..s.host.read + 1]).None?)
  {
    if a == ReadLine { ReadIsAccept(s); }
  }

  lemma InitLeavesHost(s: State, a: InitAction)
    requires InitEnabled(s, a)
    ensures InitStep(s, a).host == s.host
  {
  }

  lemma StaysClosed(s: State, a: Action)
    requires !s.host.controlOpen && Enabled(s, a)
    ensures !Step(s, a).host.controlOpen && a != ByHost(SendA) && a != ByHost(SendG)
  {
    match a
    case ByHost(_) =>
    case ByInit(i) => InitLeavesHost(s, i);
    case ByController(c) => ControllerLeavesHost(s, c);
    case ByKernel(_) =>
  }

  /** Nothing is sent on a closed pipe: neither A nor G is ever written after it. */
  lemma {:induction false} ClosedIsSilent(s: State, actions: seq<Action>)
    requires !s.host.controlOpen && RunFrom(s, actions).Some?
    ensures !RunFrom(s, actions).value.host.controlOpen
    ensures ByHost(SendA) !in actions && ByHost(SendG) !in actions
    decreases |actions|
  {
    if actions != [] {
      StaysClosed(s, actions[0]);
      ClosedIsSilent(Step(s, actions[0]), actions[1..]);
      assert actions == [actions[0]] + actions[1..];
    }
  }
}
