/** A whole launch: a run that passes every gate, runs the payload and ends with nothing left. */
module OwnershipLaunch {
  import opened Numbers
  import opened OwnerStatus
  import opened OwnerController
  import opened Ownership
  import opened OwnershipSafety

  lemma Take(s: State, a: Action) returns (t: State)
    requires Reachable(s) && Enabled(s, a)
    ensures Reachable(t) && t == Step(s, a)
  {
    t := Step(s, a);
    Advance(s, a, t);
  }

  /** The controller passes a byte of the host on to init. */
  lemma PassByte(s: State, c: char) returns (t: State)
    requires Reachable(s) && s.controller.Top? && s.control == [c] && PassesOn(s.flags, Byte(c))
    requires s.flags.controlOpen && s.flags.channelOpen && Alive(s.init)
    ensures Reachable(t)
    ensures t == s.(control := [], toInit := s.toInit + [c], gates := s.gates + [GateOfSend([c])],
                    flags := if c == 'A' then s.flags.(activated := true) else s.flags)
  {
    var s1 := Take(s, ByController(Poll(true, false, false)));
    var s2 := Take(s1, ByController(TakeCommand(Byte(c), true, Delivered)));
    assert s.status + [] == s.status;
    t := Take(s2, ByController(EndPass));
  }

  /** One message in a pass of the loop. */
  lemma TakeMessage(s: State, e: Event) returns (t: State)
    requires Reachable(s) && s.controller.InPass? && !s.controller.command && s.controller.drain && Expected(s.flags, e)
    requires |s.sent| == s.taken + 1 && s.sent[s.taken] == e
    ensures Reachable(t)
    ensures t == s.(taken := s.taken + 1, flags := Seen(s.flags, e), status := s.status + [LineOf(e)],
                    gates := s.gates + if e.READY? then [PrintReady] else if e.EXECUTED? then [PrintExec] else [])
  {
    t := Take(s, ByController(Receive(Message(e), Delivered)));
    assert s.toInit + [] == s.toInit && s.gates + [] == s.gates;
    assert [LineOf(e)][0] == LineOf(e) && [Ready][0] == Ready && [Exec][0] == Exec;
  }

  /** The controller prints a message of init. */
  lemma PrintMessage(s: State, e: Event) returns (t: State)
    requires Reachable(s) && s.controller.Top? && s.flags.channelOpen && Expected(s.flags, e)
    requires |s.sent| == s.taken + 1 && s.sent[s.taken] == e && (e.READY? || e.EXECUTED?)
    ensures Reachable(t)
    ensures t == s.(taken := s.taken + 1, flags := Seen(s.flags, e), status := s.status + [LineOf(e)],
                    gates := s.gates + [if e.READY? then PrintReady else PrintExec])
  {
    var s1 := Take(s, ByController(Poll(false, true, false)));
    var s2 := TakeMessage(s1, e);
    var s3 := Take(s2, ByController(Receive(Empty, Delivered)));
    assert s2.status + [] == s2.status && s2.toInit + [] == s2.toInit;
    t := Take(s3, ByController(EndPass));
  }

  /** The host reads a line and answers it. */
  lemma Answer(s: State, see: HostAction, send: HostAction) returns (t: State)
    requires Reachable(s) && !s.host.readerFailed && s.host.read < |s.status| && s.host.controlOpen
    requires (see == SeeCreated && send == SendA) || (see == SeeReady && send == SendG)
    requires s.host.launch == if send == SendA then AwaitCreated else AwaitReady
    requires s.status[s.host.read].Created? <==> send == SendA
    requires s.status[s.host.read].Ready? <==> send == SendG
    requires Accept(s.host.reader, s.status[s.host.read]).Some? && Clear(s.host)
    ensures Reachable(t)
    ensures t == s.(host := s.host.(read := s.host.read + 1,
                      reader := Accept(s.host.reader, s.status[s.host.read]).value,
                      launch := if send == SendA then AwaitReady else AwaitExec),
                    control := s.control + [if send == SendA then 'A' else 'G'],
                    gates := s.gates + [if send == SendA then HostA else HostG])
  {
    var s1 := ReadOne(s);
    var s2 := Take(s1, ByHost(see));
    t := Take(s2, ByHost(send));
  }

  /** Init takes the first byte and arms its parent-death signal. */
  lemma ArmInit(s: State) returns (t: State)
    requires Reachable(s) && s.init.Inactive? && s.toInit == ['A']
    ensures Reachable(t)
    ensures t == s.(init := Armed, toInit := [], armed := true, gates := s.gates + [TakeA, Credentials, Arm])
  {
    var s1 := Take(s, ByInit(ReceiveA));
    var s2 := Take(s1, ByInit(FixCredentials));
    t := Take(s2, ByInit(ArmSignal));
    assert t.gates == s.gates + [TakeA, Credentials, Arm];
  }

  /** It finds its owner alive and says READY. */
  lemma Prepare(s: State) returns (t: State)
    requires Reachable(s) && s.init.Inactive? && s.toInit == ['A'] && !Over(s.controller)
    ensures Reachable(t)
    ensures t == s.(init := AwaitGo, toInit := [], armed := true, sent := s.sent + [READY],
                    gates := s.gates + [TakeA, Credentials, Arm, OwnerAlive, SendReady])
  {
    var s1 := ArmInit(s);
    var s2 := Take(s1, ByInit(CheckOwner));
    t := Take(s2, ByInit(SayReady));
    assert t.gates == s.gates + [TakeA, Credentials, Arm, OwnerAlive, SendReady];
  }

  /** Init starts the payload. */
  lemma StartPayload(s: State) returns (t: State)
    requires Reachable(s) && s.init.AwaitGo? && s.toInit == ['G']
    ensures Reachable(t)
    ensures t == s.(init := Reaping, toInit := [], members := 1, payload := true, sent := s.sent + [EXECUTED],
                    gates := s.gates + [TakeG, Fork, SendExecuted])
  {
    var s1 := Take(s, ByInit(ReceiveG));
    var s2 := Take(s1, ByInit(ForkPayload));
    t := Take(s2, ByInit(Acknowledge));
    assert t.gates == s.gates + [TakeG, Fork, SendExecuted];
  }

  /** The payload exits, and init after it. */
  lemma PayloadExits(s: State, value: int) returns (t: State)
    requires Reachable(s) && s.init.Reaping? && s.members == 1 && s.payload && IsInt32(value)
    ensures Reachable(t)
    ensures t == s.(init := Zombie, members := 0, payload := false, sent := s.sent + [ROOT_EXIT(value)])
  {
    var s1 := Take(s, ByInit(ReapChild(true, value)));
    var s2 := Take(s1, ByInit(Quit));
    t := Take(s2, ByKernel(BecomeZombie));
  }

  /** The end of the channel. */
  lemma TakeEof(s: State) returns (t: State)
    requires Reachable(s) && s.controller.InPass? && !s.controller.command && s.controller.drain
    requires s.taken == |s.sent| && !Alive(s.init)
    ensures Reachable(t)
    ensures t == s.(flags := s.flags.(channelOpen := false), controller := s.controller.(drain := false))
  {
    assert s.status + [] == s.status && s.toInit + [] == s.toInit;
    t := Take(s, ByController(Receive(Eof, Delivered)));
  }

  /** The payload's exit and the end of the channel. */
  lemma DrainLast(s: State, value: int) returns (t: State)
    requires Reachable(s) && s.controller.Top? && s.init.Zombie? && s.flags.channelOpen && !s.flags.rootSeen
    requires |s.sent| == s.taken + 1 && s.sent[s.taken] == ROOT_EXIT(value)
    ensures Reachable(t)
    ensures t == s.(controller := InPass(false, false, true), taken := s.taken + 1,
                    flags := s.flags.(rootSeen := true, channelOpen := false), status := s.status + [Root(value)])
  {
    var s1 := Take(s, ByController(Poll(false, true, true)));
    var s2 := TakeMessage(s1, ROOT_EXIT(value));
    assert s1.gates + [] == s1.gates;
    t := TakeEof(s2);
  }

  /** The last pass: the channel is drained, init is reaped and the last line printed. */
  lemma Finish(s: State, value: int) returns (t: State)
    requires Reachable(s) && s.controller.Top? && s.init.Zombie? && s.flags.channelOpen && !s.flags.rootSeen
    requires |s.sent| == s.taken + 1 && s.sent[s.taken] == ROOT_EXIT(value)
    ensures Reachable(t)
    ensures t == s.(controller := Exited, init := Reaped, taken := s.taken + 1,
                    flags := s.flags.(rootSeen := true, channelOpen := false), status := s.status + [Root(value), Tree])
  {
    var s1 := DrainLast(s, value);
    var s2 := Take(s1, ByController(Join));
    assert Farewell(s1.flags) == [Tree];
    t := Take(s2, ByController(PrintLast));
    assert s.status + [Root(value)] + [Tree] == s.status + [Root(value), Tree];
  }

  /** Up to the second byte: init waits for it and the controller has announced READY. */
  lemma UpToReady() returns (t: State)
    ensures Reachable(t)
    ensures t == INITIAL.(host := INITIAL.host.(read := 1, reader := t.host.reader, launch := AwaitReady),
      controller := Top, flags := START.(activated := true, readySeen := true), init := AwaitGo, armed := true,
      sent := [READY], taken := 1, status := [Created(7), Ready],
      gates := [PrintCreated, HostA, PassA, TakeA, Credentials, Arm, OwnerAlive, SendReady, PrintReady])
    ensures t.host.reader == FRESH.(created := true, namespaceId := 7)
  {
    var s1 := Announced();
    var s2 := Take(s1, ByInit(FinishSetup));
    var s3 := Answer(s2, SeeCreated, SendA);
    var s4 := PassByte(s3, 'A');
    var s5 := Prepare(s4);
    t := PrintMessage(s5, READY);
  }

  /** Up to the payload: it runs and the controller has announced EXEC. */
  lemma UpToExec() returns (t: State)
    ensures Reachable(t)
    ensures t == INITIAL.(host := INITIAL.host.(read := 2, reader := t.host.reader, launch := AwaitExec),
      controller := Top, flags := START.(activated := true, readySeen := true, execSeen := true), init := Reaping,
      armed := true, members := 1, payload := true, sent := [READY, EXECUTED], taken := 2,
      status := [Created(7), Ready, Exec], gates := t.gates)
    ensures t.host.reader == FRESH.(created := true, namespaceId := 7, ready := true) && |t.gates| == 15
  {
    var s1 := UpToReady();
    var s2 := Answer(s1, SeeReady, SendG);
    var s3 := PassByte(s2, 'G');
    var s4 := StartPayload(s3);
    t := PrintMessage(s4, EXECUTED);
  }

  /** A whole launch: every gate is passed, the payload exits with 3, and WaitForEmpty answers
      true after the last line. */
  lemma LaunchExample() returns (s: State)
    ensures Reachable(s) && WaitForEmpty(s) && s.host.launch.Launched? && |s.gates| == 15
    ensures s.status == [Created(7), Ready, Exec, Root(3), Tree]
    ensures s.host.reader.rootCode == 3
  {
    var s1 := UpToExec();
    var s2 := ReadOne(s1);
    var s3 := Take(s2, ByHost(SeeExec));
    var s4 := PayloadExits(s3, 3);
    var s5 := Finish(s4, 3);
    var s6 := ReadOne(s5);
    s := ReadOne(s6);
  }

  // ----- a job that is cancelled -----

  /** A signal makes the controller kill the namespace, and all of it goes. */
  lemma KillRunning(s: State) returns (t: State)
    requires Reachable(s) && s.controller.Top? && s.init.Reaping? && s.members == 1 && !s.flags.stopAttempted
    ensures Reachable(t)
    ensures t == s.(init := Zombie, members := 0, killed := true,
                    flags := s.flags.(stopAttempted := true, cancelled := true))
  {
    var s1 := Take(s, ByController(StopSignal(Delivered)));
    assert s.status + [] == s.status && s.toInit + [] == s.toInit;
    var s2 := Take(s1, ByKernel(Deliver));
    var s3 := Take(s2, ByKernel(Collapse));
    t := Take(s3, ByKernel(BecomeZombie));
  }

  /** The last pass when nothing is left to read. */
  lemma FinishSilently(s: State) returns (t: State)
    requires Reachable(s) && s.controller.Top? && s.init.Zombie? && s.flags.channelOpen && s.flags.cancelled
    requires s.taken == |s.sent|
    ensures Reachable(t)
    ensures t == s.(controller := Exited, init := Reaped, flags := s.flags.(channelOpen := false),
                    status := s.status + [Tree])
  {
    var s1 := Take(s, ByController(Poll(false, true, true)));
    var s2 := TakeEof(s1);
    var s3 := Take(s2, ByController(Join));
    assert Farewell(s2.flags) == [Tree];
    t := Take(s3, ByController(PrintLast));
  }

  /** A running job is cancelled: TREE is printed, no ERROR, and WaitForEmpty answers true. */
  lemma CancelExample() returns (s: State)
    ensures Reachable(s) && WaitForEmpty(s) && s.flags.cancelled && s.status == [Created(7), Ready, Exec, Tree]
  {
    var s1 := UpToExec();
    var s2 := KillRunning(s1);
    var s3 := FinishSilently(s2);
    var s4 := ReadOne(s3);
    s := ReadOne(s4);
  }
}
