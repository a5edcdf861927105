/** What the ownership protocol guarantees over every run. */
module OwnershipSafety {
  import opened Schema
  import opened OwnerStatus
  import opened OwnerController
  import opened Ownership
  import opened OwnershipInvariant
  import opened OwnershipPasses

  /** A state some run leads to. */
  ghost predicate Reachable(s: State) {
    exists actions :: RunFrom(INITIAL, actions) == Some(s)
  }

  lemma ReachableInv(s: State)
    requires Reachable(s)
    ensures Inv(s)
  {
    var actions :| RunFrom(INITIAL, actions) == Some(s);
    InitialInv();
    RunKeeps(INITIAL, actions);
  }

  // ----- lines and what a reader knows -----

  ghost predicate Printed(ls: seq<Line>, n: nat, p: Line -> bool) {
    exists i :: 0 <= i < |ls| && i < n && p(ls[i])
  }

  const IsTree := (l: Line) => l.Tree?
  const IsRoot := (l: Line) => l.Root?
  const IsError := (l: Line) => l.Error?
  const IsCreated := (l: Line) => l.Created?
  const IsReady := (l: Line) => l.Ready?
  const IsExec := (l: Line) => l.Exec?

  /** A reader knows of a line exactly when it has read one. */
  ghost predicate KnowsExactly(ls: seq<Line>, n: nat, r: Reader) {
    && (r.treeReaped <==> Printed(ls, n, IsTree))
    && (r.root <==> Printed(ls, n, IsRoot))
    && (r.cleanupError != 0 <==> Printed(ls, n, IsFault))
  }

  ghost predicate KnowsLaunch(ls: seq<Line>, n: nat, r: Reader) {
    && (r.launchError != 0 <==> Printed(ls, n, IsError))
    && (r.created <==> Printed(ls, n, IsCreated))
    && (r.ready <==> Printed(ls, n, IsReady))
    && (r.executed <==> Printed(ls, n, IsExec))
  }

  lemma PrintedNext(ls: seq<Line>, n: nat, p: Line -> bool)
    requires n < |ls|
    ensures Printed(ls, n + 1, p) <==> Printed(ls, n, p) || p(ls[n])
  {
  }

  lemma {:induction false} ReaderKnows(ls: seq<Line>, n: nat)
    requires n <= |ls| && AcceptTo(ls, n).Some? && forall i | 0 <= i < |ls| :: Printable(ls[i])
    ensures KnowsExactly(ls, n, AcceptTo(ls, n).value)
  {
    if n > 0 {
      ReaderKnows(ls, n - 1);
      assert Printable(ls[n - 1]);
      PrintedNext(ls, n - 1, IsTree);
      PrintedNext(ls, n - 1, IsRoot);
      PrintedNext(ls, n - 1, IsFault);
    }
  }

  lemma {:induction false} ReaderKnowsLaunch(ls: seq<Line>, n: nat)
    requires n <= |ls| && AcceptTo(ls, n).Some? && forall i | 0 <= i < |ls| :: Printable(ls[i])
    ensures KnowsLaunch(ls, n, AcceptTo(ls, n).value)
  {
    if n > 0 {
      ReaderKnowsLaunch(ls, n - 1);
      assert Printable(ls[n - 1]);
      PrintedNext(ls, n - 1, IsError);
      PrintedNext(ls, n - 1, IsCreated);
      PrintedNext(ls, n - 1, IsReady);
      PrintedNext(ls, n - 1, IsExec);
    }
  }

  predicate SameKind(a: Line, b: Line) {
    match a
    case Created(_) => b.Created?
    case Ready => b.Ready?
    case Exec => b.Exec?
    case Root(_) => b.Root?
    case Error(_) => b.Error?
    case Fault(_) => b.Fault?
    case Tree => b.Tree?
  }

  /** Reading a line makes another of its kind unacceptable. */
  ghost predicate Refuses(r: Reader, l: Line) {
    match l
    case Created(_) => r.created
    case Ready => r.ready
    case Exec => r.executed
    case Root(_) => r.root
    case Error(_) => r.launchError != 0
    case Fault(_) => r.cleanupError != 0
    case Tree => r.treeReaped
  }

  lemma {:induction false} StillRefused(ls: seq<Line>, i: nat, n: nat)
    requires i < n <= |ls| && AcceptTo(ls, n).Some? && forall j | 0 <= j < |ls| :: Printable(ls[j])
    ensures Refuses(AcceptTo(ls, n).value, ls[i])
    decreases n
  {
    assert Printable(ls[n - 1]);
    if i < n - 1 { StillRefused(ls, i, n - 1); }
  }

  lemma AcceptAllIsAcceptTo(ls: seq<Line>, n: nat)
    requires n <= |ls|
    ensures AcceptAll(FRESH, ls[..n]) == AcceptTo(ls, n)
  {
    if n > 0 {
      assert ls[..n][..n - 1] == ls[..n - 1];
      AcceptAllIsAcceptTo(ls, n - 1);
    }
  }

  // ----- ownership -----

  /** WaitForEmpty answers true for a started job: the controller has exited and its
      status stream has been read to the end. */
  predicate WaitForEmpty(s: State) {
    && Over(s.controller)
    && s.host.read == |s.status|
    && s.host.reader.treeReaped && !s.host.readerFailed && s.host.reader.cleanupError == 0
  }

  /** Nothing of the namespace is left, nor can anything come back. */
  predicate NothingLeft(s: State) {
    Over(s.controller) && (s.init.Unborn? || s.init.Reaped?) && s.members == 0
  }

  lemma {:induction false} NothingComesBack(s: State, actions: seq<Action>)
    requires NothingLeft(s)
    ensures RunFrom(s, actions).Some? ==> NothingLeft(RunFrom(s, actions).value)
    decreases |actions|
  {
    if actions != [] && Enabled(s, actions[0]) {
      NothingComesBack(Step(s, actions[0]), actions[1..]);
    }
  }

  /** Ownership: an answer of true means that TREE was printed and read, that init was
      reaped or never forked, and that no member of the namespace is alive or ever will be. */
  lemma EmptyMeansEmpty(s: State, later: seq<Action>)
    requires Reachable(s) && WaitForEmpty(s)
    ensures s.status != [] && s.status[|s.status| - 1].Tree?
    ensures NothingLeft(s)
    ensures RunFrom(s, later).Some? ==> NothingLeft(RunFrom(s, later).value)
  {
    ReachableInv(s);
    ReaderKnows(s.status, s.host.read);
    var i :| 0 <= i < |s.status| && IsTree(s.status[i]);
    assert s.status[i].Tree?;
    NothingComesBack(s, later);
  }

  /** After a whole stream has been read, the answer is exactly: TREE and no FAULT. */
  lemma EmptyWhenTreeWithoutFault(s: State)
    requires Reachable(s) && Over(s.controller) && s.host.read == |s.status|
    ensures !s.host.readerFailed
    ensures WaitForEmpty(s) <==> Printed(s.status, |s.status|, IsTree) && !Printed(s.status, |s.status|, IsFault)
  {
    ReachableInv(s);
    ReaderKnows(s.status, s.host.read);
  }

  // ----- launch -----

  /** The milestones happen at most once and only in their order; a namespace member other
      than init exists only after the last of them up to Fork. */
  lemma LaunchInOrder(s: State)
    requires Reachable(s)
    ensures s.gates <= [
      PrintCreated, HostA, PassA, TakeA, Credentials, Arm, OwnerAlive, SendReady,
      PrintReady, HostG, PassG, TakeG, Fork, SendExecuted, PrintExec]
    ensures s.members > 0 ==> Passed(s, Fork)
    ensures Passed(s, Fork) ==> s.armed && s.flags.activated && s.flags.readySeen
    ensures s.host.launch.Launched? ==> Passed(s, PrintExec)
  {
    ReachableInv(s);
    RanksInOrder(s.gates);
  }

  lemma RanksInOrder(gates: seq<Gate>)
    requires forall i | 0 <= i < |gates| :: Rank(gates[i]) == i
    ensures gates <= [
      PrintCreated, HostA, PassA, TakeA, Credentials, Arm, OwnerAlive, SendReady,
      PrintReady, HostG, PassG, TakeG, Fork, SendExecuted, PrintExec]
  {
    assert |gates| > 15 ==> Rank(gates[15]) < 15;
  }

  /** The controller is gone and G has not been passed on. */
  ghost predicate NoGo(s: State) {
    Over(s.controller) && |s.gates| <= Rank(PassG)
  }

  lemma InitStaysBeforeGo(s: State, a: InitAction)
    requires NoGo(s) && InitEnabled(s, a)
    requires PhaseInv(|s.gates|, s.init, s.armed) && BytesInv(|s.gates|, s.toInit, s.control)
    ensures NoGo(InitStep(s, a))
  {
  }

  lemma HostStaysBeforeGo(s: State, a: HostAction)
    requires NoGo(s) && HostEnabled(s, a) && LaunchInv(|s.gates|, s.host.launch)
    ensures NoGo(HostStep(s, a))
  {
  }

  lemma StaysBeforeGo(s: State, a: Action)
    requires Inv(s) && NoGo(s) && Enabled(s, a)
    ensures NoGo(Step(s, a))
  {
    match a
    case ByHost(h) => HostStaysBeforeGo(s, h);
    case ByInit(i) => InitStaysBeforeGo(s, i);
    case ByController(c) =>
    case ByKernel(k) =>
  }

  lemma {:induction false} NoGoForever(s: State, actions: seq<Action>)
    requires Inv(s) && NoGo(s)
    ensures RunFrom(s, actions).Some? ==> NoGo(RunFrom(s, actions).value)
    decreases |actions|
  {
    if actions != [] && Enabled(s, actions[0]) {
      StepKeeps(s, actions[0]);
      StaysBeforeGo(s, actions[0]);
      NoGoForever(Step(s, actions[0]), actions[1..]);
    }
  }

  lemma NoGoNotForked(t: State)
    requires Inv(t) && NoGo(t)
    ensures !Passed(t, Fork) && t.members == 0
  {
  }

  /** Parent death before G: no run from there ever forks the payload. */
  lemma DeathBeforeGo(s: State, later: seq<Action>)
    requires Reachable(s) && Over(s.controller) && !Passed(s, PassG)
    ensures var t := RunFrom(s, later);
            t.Some? ==> !Passed(t.value, Fork) && t.value.members == 0
  {
    ReachableInv(s);
    NoGoForever(s, later);
    RunKeeps(s, later);
    if RunFrom(s, later).Some? { NoGoNotForked(RunFrom(s, later).value); }
  }

  /** Parent death at any time: once init has seen its owner alive with the signal armed,
      a controller that is gone leaves it with a kill pending, or no longer running. */
  lemma DeathKills(s: State)
    requires Reachable(s) && Over(s.controller) && Passed(s, OwnerAlive)
    ensures s.armed && (Alive(s.init) ==> s.killed)
  {
    ReachableInv(s);
  }

  // ----- the status stream -----

  /** Conformance: what a controller prints is framed and accepted by the reader thread,
      except when waitpid fails after a launch error was printed. */
  lemma StreamConforms(s: State)
    requires Reachable(s)
    ensures forall i :: 0 <= i < |s.status| ==> Printable(s.status[i])
    ensures Agrees(FeedAll(Scan([], FRESH, false), StreamOf(s.status)), AcceptAll(FRESH, s.status))
    ensures AcceptAll(FRESH, s.status).None? <==> s.waitFailed && s.flags.errorSeen
  {
    ReachableInv(s);
    StreamIsUnderstood(s.status);
    AcceptAllIsAcceptTo(s.status, |s.status|);
    assert s.status[..|s.status|] == s.status;
  }

  lemma NotTwice(ls: seq<Line>, i: nat, j: nat, n: nat)
    requires i < j < n <= |ls| && AcceptTo(ls, n).Some? && forall i | 0 <= i < |ls| :: Printable(ls[i])
    ensures !SameKind(ls[i], ls[j])
  {
    PrefixEarlier(ls, j + 1, n);
    StillRefused(ls, i, j);
    assert Printable(ls[i]) && Printable(ls[j]);
  }

  /** Each kind of line is printed at most once; only ERROR may come twice, exactly when
      waitpid fails after a launch error was printed. */
  lemma EachLineOnce(s: State, i: nat, j: nat)
    requires Reachable(s) && i < j < |s.status| && SameKind(s.status[i], s.status[j])
    ensures s.status[i].Error? && j == |s.status| - 1 && s.waitFailed && s.flags.errorSeen
  {
    ReachableInv(s);
    var n := Regular(s.waitFailed, s.flags.errorSeen, s.status);
    if j < n { NotTwice(s.status, i, j, n); }
  }

  lemma TwoErrors(s: State)
    requires Reachable(s) && s.waitFailed && s.flags.errorSeen
    ensures exists i, j :: 0 <= i < j < |s.status| && s.status[i].Error? && s.status[j].Error?
  {
    ReachableInv(s);
    var n := |s.status| - 1;
    AcceptNext(s.status[..n], s.status[n]);
    ErrorKnown(s.status, n);
  }

  lemma {:induction false} ErrorKnown(ls: seq<Line>, n: nat)
    requires n <= |ls| && AcceptTo(ls, n).Some? && AcceptTo(ls, n).value.launchError != 0
    ensures exists i :: 0 <= i < n && ls[i].Error?
  {
    if !ls[n - 1].Error? { ErrorKnown(ls, n - 1); }
  }

  /** Nothing that init reported is lost: TREE is the last line, and a payload exit that
      was sent has been printed before it. */
  lemma RootBeforeTree(s: State, i: nat)
    requires Reachable(s) && i < |s.status| && s.status[i].Tree?
    ensures i == |s.status| - 1
    ensures HasRoot(s.sent, |s.sent|) ==> Printed(s.status, i, IsRoot)
  {
    ReachableInv(s);
    if HasRoot(s.sent, |s.sent|) {
      ReaderKnows(s.status, |s.status|);
      PrintedNext(s.status, i, IsRoot);
    }
  }

  // ----- the cases are not empty -----

  /** One more action of a run. */
  lemma Advance(s: State, a: Action, t: State)
    requires Reachable(s) && Enabled(s, a) && Step(s, a) == t
    ensures Reachable(t)
  {
    var actions :| RunFrom(INITIAL, actions) == Some(s);
    RunAppend(INITIAL, actions, a);
    assert RunFrom(INITIAL, actions + [a]) == Some(t);
  }

  lemma {:induction false} RunAppend(s: State, actions: seq<Action>, a: Action)
    requires RunFrom(s, actions).Some? && Enabled(RunFrom(s, actions).value, a)
    ensures RunFrom(s, actions + [a]) == Some(Step(RunFrom(s, actions).value, a))
    decreases |actions|
  {
    if actions == [] {
      assert [a][1..] == [];
    } else {
      assert (actions + [a])[1..] == actions[1..] + [a];
      RunAppend(Step(s, actions[0]), actions[1..], a);
    }
  }

  /** The controller has announced its namespace. */
  lemma Announced() returns (s: State)
    ensures Reachable(s)
    ensures s == INITIAL.(controller := Top, init := Setup, status := [Created(7)], gates := [PrintCreated])
  {
    var s1 := INITIAL.(controller := Forked, init := Setup);
    assert RunFrom(INITIAL, []) == Some(INITIAL);
    Advance(INITIAL, ByController(ForkInit), s1);
    s := s1.(controller := Top, status := [] + [Created(7)], gates := [] + [PrintCreated]);
    Advance(s1, ByController(Watch(7)), s);
    assert [] + [Created(7)] == [Created(7)] && [] + [PrintCreated] == [PrintCreated];
  }

  /** The controller watches an init process that has failed. */
  lemma FailedLaunch(delivered: bool) returns (s: State)
    ensures Reachable(s) && s.controller.Top? && s.init.Zombie? && s.flags == START && s.status == [Created(7)]
    ensures s.host == INITIAL.host && s.toInit == [] && s.taken == 0 && !s.armed
    ensures s.sent == if delivered then [LAUNCH_ERROR(5)] else []
  {
    var s1 := Announced();
    var s2 := s1.(init := Exiting, sent := if delivered then [] + [LAUNCH_ERROR(5)] else []);
    Advance(s1, ByInit(Fail(5, delivered)), s2);
    s := s2.(init := Zombie);
    Advance(s2, ByKernel(BecomeZombie), s);
  }

  lemma {:induction false} RunConcat(s: State, a: seq<Action>, b: seq<Action>)
    requires RunFrom(s, a).Some?
    ensures RunFrom(s, a + b) == RunFrom(RunFrom(s, a).value, b)
    decreases |a|
  {
    if a == [] {
      assert a + b == b;
    } else {
      assert (a + b)[1..] == a[1..] + b;
      RunConcat(Step(s, a[0]), a[1..], b);
    }
  }

  /** One pass of the loop, with nobody else moving. */
  lemma PassReachable(s: State, p: LoopPass) returns (t: State)
    requires Reachable(s) && PossiblePass(s, p)
    ensures Reachable(t) && t.controller == EndAt(p) && t.flags == OnPass(s.flags, p).flags
    ensures t.status == s.status + OnPass(s.flags, p).lines && t.host == s.host
  {
    var actions :| RunFrom(INITIAL, actions) == Some(s);
    EveryPassHasRun(s, p);
    var more := AsRun(PassActions(s.flags, p));
    RunConcat(INITIAL, actions, more);
    t := RunFrom(s, more).value;
    HostRests(s, more);
  }

  lemma ControllerLeavesHost(s: State, a: ControllerAction)
    requires ControllerEnabled(s, a)
    ensures ControllerStep(s, a).host == s.host
  {
    match a
    case TakeCommand(c, sendOk, kill) => CommandLeavesHost(s, c, sendOk, kill);
    case Receive(r, kill) => ReceiveForm(s, r, kill);
    case _ =>
  }

  lemma CommandLeavesHost(s: State, c: Command, sendOk: bool, kill: Kill)
    requires ControllerEnabled(s, TakeCommand(c, sendOk, kill))
    ensures ControllerStep(s, TakeCommand(c, sendOk, kill)).host == s.host
  {
    assert Effect(s, OnCommand(s.flags, c, sendOk, kill), kill).host == s.host;
  }

  lemma {:induction false} HostRests(s: State, actions: seq<Action>)
    requires RunFrom(s, actions).Some? && forall i | 0 <= i < |actions| :: actions[i].ByController?
    ensures RunFrom(s, actions).value.host == s.host
    decreases |actions|
  {
    if actions != [] {
      ControllerLeavesHost(s, actions[0].controller);
      HostRests(Step(s, actions[0]), actions[1..]);
    }
  }

  /** The pass in which init can be reaped, after `rs` has been received. */
  function LastPass(rs: seq<Received>, wait: Wait): LoopPass {
    OwnerController.Pass(false, Revents(false, true, true), NoByte, false, rs, wait, Delivered)
  }

  /** A run that ends in the exceptional case: init fails with error 5, which is printed, and
      then waitpid fails with error 10. */
  lemma TwoErrorsExample() returns (s: State)
    ensures Reachable(s) && s.status == [Created(7), Error(5), Error(10)]
    ensures s.waitFailed && s.flags.errorSeen && AcceptAll(FRESH, s.status).None?
  {
    var s0 := FailedLaunch(true);
    var rs := [Message(LAUNCH_ERROR(5)), Empty];
    var p := LastPass(rs, WaitError(10));
    assert rs[1..] == [Empty];
    s := PassReachable(s0, p);
    assert Drain(START, rs, Delivered).lines == [Error(5)] + [];
    assert OnPass(START, p).lines == [Error(5), Error(10)];
    ErrorTwice(s.status);
    StreamConforms(s);
  }

  lemma ErrorTwice(ls: seq<Line>)
    requires ls == [Created(7), Error(5), Error(10)]
    ensures AcceptAll(FRESH, ls).None?
  {
    assert ls[..2][..1] == [Created(7)] && ls[..2] == [Created(7), Error(5)];
  }

  /** The host reads one more line. */
  lemma ReadOne(s: State) returns (t: State)
    requires Reachable(s) && !s.host.readerFailed && s.host.read < |s.status|
    requires Accept(s.host.reader, s.status[s.host.read]).Some?
    ensures Reachable(t) && t == s.(host := s.host.(
      read := s.host.read + 1, reader := Accept(s.host.reader, s.status[s.host.read]).value))
  {
    t := HostStep(s, ReadLine);
    Advance(s, ByHost(ReadLine), t);
  }

  lemma ReadThree(s1: State) returns (s: State)
    requires Reachable(s1) && s1.host == INITIAL.host && s1.status == [Created(7), Error(ECHILD), Tree]
    ensures Reachable(s) && s == s1.(host := s.host) && s.host.read == 3 && !s.host.readerFailed
    ensures s.host.reader == FRESH.(created := true, namespaceId := 7, launchError := ECHILD, treeReaped := true)
  {
    var s2 := ReadOne(s1);
    var s3 := ReadOne(s2);
    s := ReadOne(s3);
  }

  /** A run after which WaitForEmpty answers true: init fails unheard and is reaped. */
  lemma EmptyExample() returns (s: State)
    ensures Reachable(s) && WaitForEmpty(s) && s.status == [Created(7), Error(ECHILD), Tree]
  {
    var s0 := FailedLaunch(false);
    var p := LastPass([Eof], WaitDone);
    assert [Eof][1..] == [];
    var s1 := PassReachable(s0, p);
    assert OnPass(START, p).lines == [Error(ECHILD), Tree];
    s := ReadThree(s1);
  }
}
