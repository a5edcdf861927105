/** The event loop of the native controller: what one pass does to its flags, to the
    status stream, to the channel and to the namespace. */
module OwnerController {
  import opened Schema
  import opened OwnerStatus

  /** Messages of the namespace init process. */
  datatype Event = READY | EXECUTED | ROOT_EXIT(value: int) | LAUNCH_ERROR(value: int)

  datatype Flags = Flags(
    activated: bool, readySeen: bool, execSeen: bool, rootSeen: bool, errorSeen: bool,
    cancelled: bool, stopAttempted: bool, controlOpen: bool, channelOpen: bool)

  const START := Flags(false, false, false, false, false, false, false, true, true)

  /** pidfd_send_signal: delivered, no such process any more, or refused. */
  datatype Kill = Delivered | Gone | Refused(errno: int)

  /** read on the control pipe. */
  datatype Command = Byte(c: char) | NoByte

  /** recv on the channel, MSG_DONTWAIT, after retrying EINTR. */
  datatype Received = Message(event: Event) | Empty | Eof | Broken

  /** New flags, lines printed, bytes sent to init, and whether the kill was called. */
  datatype Outcome = Outcome(flags: Flags, lines: seq<Line>, sends: seq<char>, killCalled: bool)

  function Nothing(f: Flags): Outcome {
    Outcome(f, [], [], false)
  }

  /** kill_namespace behind the stop_attempted guard. */
  function Stop(f: Flags, kill: Kill): Outcome {
    if f.stopAttempted then Nothing(f)
    else
      Outcome(
        f.(stopAttempted := true, cancelled := !kill.Refused?),
        if kill.Refused? then [Fault(kill.errno)] else [], [], true)
  }

  /** Which byte the loop passes on. */
  predicate PassesOn(f: Flags, command: Command) {
    && command.Byte?
    && !f.stopAttempted
    && ((command.c == 'A' && !f.activated) || (command.c == 'G' && f.activated && f.readySeen))
  }

  function OnByte(f: Flags, command: Command, sendOk: bool, kill: Kill): Outcome {
    if PassesOn(f, command) && sendOk then
      Outcome(if command.c == 'A' then f.(activated := true) else f, [], [command.c], false)
    else Stop(f, kill)
  }

  /** Bytes other than A and G, errors and the end of the stream close the control pipe. */
  predicate KeepsControl(command: Command) {
    command.Byte? && (command.c == 'G' || command.c == 'A')
  }

  function OnCommand(f: Flags, command: Command, sendOk: bool, kill: Kill): Outcome {
    AndControl(OnByte(f, command, sendOk, kill), command)
  }

  function AndControl(o: Outcome, command: Command): Outcome {
    if KeepsControl(command) then o else o.(flags := o.flags.(controlOpen := false))
  }

  /** Each event is expected once, and the payload only after READY. */
  predicate Expected(f: Flags, e: Event) {
    match e
    case READY => !f.readySeen
    case EXECUTED => f.readySeen && !f.execSeen
    case ROOT_EXIT(_) => !f.rootSeen
    case LAUNCH_ERROR(_) => !f.errorSeen
  }

  function Seen(f: Flags, e: Event): Flags {
    match e
    case READY => f.(readySeen := true)
    case EXECUTED => f.(execSeen := true)
    case ROOT_EXIT(_) => f.(rootSeen := true)
    case LAUNCH_ERROR(_) => f.(errorSeen := true)
  }

  function LineOf(e: Event): Line {
    match e
    case READY => Ready
    case EXECUTED => Exec
    case ROOT_EXIT(v) => Root(v)
    case LAUNCH_ERROR(v) => Error(v)
  }

  function OnEvent(f: Flags, e: Event, kill: Kill): Outcome {
    if Expected(f, e) then Outcome(Seen(f, e), [LineOf(e)], [], false) else Stop(f, kill)
  }

  function OnReceived(f: Flags, r: Received, kill: Kill): Outcome {
    match r
    case Message(e) => OnEvent(f, e, kill)
    case Empty => Nothing(f)
    case Eof => Nothing(f.(channelOpen := false))
    case Broken => Stop(f, kill)
  }

  const ECHILD := 10

  /** The last lines, after init has been reaped. */
  function Farewell(f: Flags): seq<Line> {
    (if !f.rootSeen && !f.cancelled && !f.errorSeen then [Error(ECHILD)] else []) + [Tree]
  }

  /** The drain loop over the results of recv: it goes on exactly while messages come. */
  function Drain(f: Flags, rs: seq<Received>, kill: Kill): Outcome
    decreases |rs|
  {
    if rs == [] then Nothing(f)
    else
      var o := OnReceived(f, rs[0], kill);
      if rs[0].Message? then Then(o, Drain(o.flags, rs[1..], kill)) else o
  }

  function Then(a: Outcome, b: Outcome): Outcome {
    Outcome(b.flags, a.lines + b.lines, a.sends + b.sends, a.killCalled || b.killCalled)
  }

  /** What poll reports: the wake pipe, a failure other than EINTR, or the other three. */
  datatype Poll = Woken | Failing | Revents(control: bool, channel: bool, init: bool)

  /** waitpid on init. */
  datatype Wait = WaitDone | WaitError(errno: int)

  /** What one pass of the loop meets. */
  datatype Pass = Pass(
    stopping: bool, poll: Poll, command: Command, sendOk: bool, received: seq<Received>, wait: Wait, kill: Kill)

  function OnControl(f: Flags, p: Pass): Outcome {
    if p.poll.Revents? && p.poll.control then OnCommand(f, p.command, p.sendOk, p.kill) else Nothing(f)
  }

  /** The channel is drained when it, or init, has something; not once it is closed. */
  function OnChannel(f: Flags, p: Pass): Outcome {
    if p.poll.Revents? && (p.poll.channel || p.poll.init) && f.channelOpen then Drain(f, p.received, p.kill)
    else Nothing(f)
  }

  function OnInit(f: Flags, p: Pass): Outcome {
    if p.poll.Revents? && p.poll.init then
      Outcome(f, if p.wait.WaitDone? then Farewell(f) else [Error(p.wait.errno)], [], false)
    else Nothing(f)
  }

  function OnPass(f: Flags, p: Pass): Outcome {
    var a := if p.stopping then Stop(f, p.kill) else Nothing(f);
    var b := Then(a, if p.poll.Failing? then Stop(a.flags, p.kill) else Nothing(a.flags));
    var c := Then(b, OnControl(b.flags, p));
    var d := Then(c, OnChannel(c.flags, p));
    Then(d, OnInit(d.flags, p))
  }

  predicate IsFault(l: Line) {
    l.Fault?
  }

  /** The kill is called at most once: only while stop_attempted is clear, and then it
      sets it for good. A fault is printed exactly when that one kill is refused. */
  predicate KillsOnce(f: Flags, o: Outcome, kill: Kill) {
    && (o.killCalled <==> o.flags.stopAttempted && !f.stopAttempted)
    && (f.stopAttempted ==> o.flags.stopAttempted && o.flags.cancelled == f.cancelled)
    && Count(o.lines, IsFault) == (if o.killCalled && kill.Refused? then 1 else 0)
  }

  lemma CountOne(l: Line)
    ensures Count([l], IsFault) == if l.Fault? then 1 else 0
  {
    assert [l][..0] == [];
  }

  lemma StopKillsOnce(f: Flags, kill: Kill)
    ensures KillsOnce(f, Stop(f, kill), kill)
  {
    if kill.Refused? { CountOne(Fault(kill.errno)); }
  }

  lemma ExpectedKillsNot(f: Flags, e: Event, kill: Kill)
    ensures KillsOnce(f, Outcome(Seen(f, e), [LineOf(e)], [], false), kill)
  {
    CountOne(LineOf(e));
  }

  lemma StepKillsOnce(f: Flags, r: Received, kill: Kill)
    ensures KillsOnce(f, OnReceived(f, r, kill), kill)
  {
    if r.Broken? || (r.Message? && !Expected(f, r.event)) {
      StopKillsOnce(f, kill);
    } else if r.Message? {
      ExpectedKillsNot(f, r.event, kill);
    }
  }

  lemma {:induction false} DrainKillsOnce(f: Flags, rs: seq<Received>, kill: Kill)
    ensures KillsOnce(f, Drain(f, rs, kill), kill)
    decreases |rs|
  {
    if rs != [] {
      StepKillsOnce(f, rs[0], kill);
      var o := OnReceived(f, rs[0], kill);
      if rs[0].Message? {
        DrainKillsOnce(o.flags, rs[1..], kill);
        CountConcat(o.lines, Drain(o.flags, rs[1..], kill).lines, IsFault);
      }
    }
  }

  function Count(ls: seq<Line>, p: Line -> bool): nat {
    if ls == [] then 0 else Count(ls[..|ls| - 1], p) + (if p(ls[|ls| - 1]) then 1 else 0)
  }

  lemma {:induction false} CountConcat(a: seq<Line>, b: seq<Line>, p: Line -> bool)
    ensures Count(a + b, p) == Count(a, p) + Count(b, p)
    decreases |b|
  {
    if b == [] {
      assert a + b == a;
    } else {
      CountConcat(a, b[..|b| - 1], p);
      assert (a + b)[..|a + b| - 1] == a + b[..|b| - 1];
    }
  }

  /** The loop's variables, with what it has written. */
  class Controller {
    var activated: bool
    var readySeen: bool
    var execSeen: bool
    var rootSeen: bool
    var errorSeen: bool
    var cancelled: bool
    var stopAttempted: bool
    var controlOpen: bool
    var channelOpen: bool
    var status: seq<Line>
    var channel: seq<char>

    function Value(): Flags
      reads this
    {
      Flags(activated, readySeen, execSeen, rootSeen, errorSeen, cancelled, stopAttempted, controlOpen, channelOpen)
    }

    /** Since the old state the outcome `o` has happened. */
    twostate predicate Did(o: Outcome)
      reads this
    {
      && Value() == o.flags
      && status == old(status) + o.lines
      && channel == old(channel) + o.sends
    }

    /** Having written `done` after `status0` and `channel0`. */
    ghost predicate Wrote(done: Outcome, status0: seq<Line>, channel0: seq<char>)
      reads this
    {
      Value() == done.flags && status == status0 + done.lines && channel == channel0 + done.sends
    }

    constructor (pid: int)
      ensures Value() == START && status == [Created(pid)] && channel == []
    {
      activated, readySeen, execSeen, rootSeen, errorSeen := false, false, false, false, false;
      cancelled, stopAttempted, controlOpen, channelOpen := false, false, true, true;
      status, channel := [Created(pid)], [];
    }

    method KillNamespace(kill: Kill) returns (result: int)
      modifies this`status
      ensures result == if kill.Refused? then -1 else 0
      ensures status == old(status) + if kill.Refused? then [Fault(kill.errno)] else []
    {
      match kill
      case Delivered => return 0;
      case Gone => return 0;
      case Refused(errno) =>
        status := status + [Fault(errno)];
        return -1;
    }

    method StopOnce(kill: Kill)
      modifies this`status, this`cancelled, this`stopAttempted
      ensures Did(Stop(old(Value()), kill))
    {
      if !stopAttempted {
        var result := KillNamespace(kill);
        cancelled := result == 0;
        stopAttempted := true;
      }
    }

    /** One command byte; `sendOk` says whether the channel takes it. */
    method HandleCommand(command: Command, sendOk: bool, kill: Kill)
      modifies this
      ensures Did(OnCommand(old(Value()), command, sendOk, kill))
    {
      HandleByte(command, sendOk, kill);
      CloseControl(command, OnByte(old(Value()), command, sendOk, kill), old(status), old(channel));
    }

    method CloseControl(command: Command, ghost done: Outcome, ghost status0: seq<Line>, ghost channel0: seq<char>)
      requires Wrote(done, status0, channel0)
      modifies this`controlOpen
      ensures Wrote(AndControl(done, command), status0, channel0)
    {
      if command.NoByte? || (command.c != 'G' && command.c != 'A') { controlOpen := false; }
    }

    method HandleByte(command: Command, sendOk: bool, kill: Kill)
      modifies this`activated, this`channel, this`status, this`cancelled, this`stopAttempted
      ensures Did(OnByte(old(Value()), command, sendOk, kill))
    {
      if command.Byte? && command.c == 'A' && !activated && !stopAttempted && sendOk {
        channel := channel + ['A'];
        activated := true;
      } else if command.Byte? && command.c == 'G' && activated && readySeen && !stopAttempted && sendOk {
        channel := channel + ['G'];
      } else {
        StopOnce(kill);
      }
    }

    method HandleEvent(e: Event, kill: Kill)
      modifies this
      ensures Did(OnEvent(old(Value()), e, kill))
    {
      if e.READY? && !readySeen {
        readySeen := true;
        status := status + [Ready];
      } else if e.EXECUTED? && readySeen && !execSeen {
        execSeen := true;
        status := status + [Exec];
      } else if e.ROOT_EXIT? && !rootSeen {
        rootSeen := true;
        status := status + [Root(e.value)];
      } else if e.LAUNCH_ERROR? && !errorSeen {
        errorSeen := true;
        status := status + [Error(e.value)];
      } else {
        StopOnce(kill);
      }
    }

    method HandleReceived(r: Received, kill: Kill)
      modifies this
      ensures Did(OnReceived(old(Value()), r, kill))
    {
      match r
      case Empty =>
      case Eof => channelOpen := false;
      case Broken => StopOnce(kill);
      case Message(e) => HandleEvent(e, kill);
    }

    /** One turn of the drain loop. */
    method DrainOne(r: Received, kill: Kill, ghost rest: seq<Received>, ghost done: Outcome,
                    ghost status0: seq<Line>, ghost channel0: seq<char>)
      returns (more: bool, ghost next: Outcome)
      requires Wrote(done, status0, channel0)
      modifies this
      ensures Wrote(next, status0, channel0)
      ensures Then(done, Drain(done.flags, [r] + rest, kill))
        == if more then Then(next, Drain(next.flags, rest, kill)) else next
    {
      DrainStep(done, [r] + rest, kill);
      assert ([r] + rest)[1..] == rest;
      ghost var o := OnReceived(done.flags, r, kill);
      next := Then(done, o);
      HandleReceived(r, kill);
      more := r.Message?;
    }

    /** The drain loop. `rs` is what recv answers, call by call. */
    method DrainChannel(rs: seq<Received>, kill: Kill)
      modifies this
      ensures Did(Drain(old(Value()), rs, kill))
    {
      var i, more := 0, true;
      ghost var all := Drain(Value(), rs, kill);
      ghost var done := Nothing(Value());
      assert rs[0..] == rs;
      while more && i < |rs|
        invariant 0 <= i <= |rs|
        invariant Wrote(done, old(status), old(channel))
        invariant all == (if more then Then(done, Drain(done.flags, rs[i..], kill)) else done)
      {
        assert rs[i..] == [rs[i]] + rs[i + 1..];
        more, done := DrainOne(rs[i], kill, rs[i + 1..], done, old(status), old(channel));
        i := i + 1;
      }
    }

    method StopIf(condition: bool, kill: Kill, ghost done: Outcome, ghost status0: seq<Line>, ghost channel0: seq<char>)
      requires Wrote(done, status0, channel0)
      modifies this
      ensures Wrote(
        Then(done, if condition then Stop(done.flags, kill) else Nothing(done.flags)), status0, channel0)
    {
      if condition { StopOnce(kill); }
    }

    method HandleControl(p: Pass, ghost done: Outcome, ghost status0: seq<Line>, ghost channel0: seq<char>)
      requires Wrote(done, status0, channel0)
      modifies this
      ensures Wrote(Then(done, OnControl(done.flags, p)), status0, channel0)
    {
      if p.poll.Revents? && p.poll.control { HandleCommand(p.command, p.sendOk, p.kill); }
    }

    method HandleChannel(p: Pass, ghost done: Outcome, ghost status0: seq<Line>, ghost channel0: seq<char>)
      requires Wrote(done, status0, channel0)
      modifies this
      ensures Wrote(Then(done, OnChannel(done.flags, p)), status0, channel0)
    {
      if p.poll.Revents? && (p.poll.channel || p.poll.init) && channelOpen { DrainChannel(p.received, p.kill); }
    }

    method HandleInit(p: Pass, ghost done: Outcome, ghost status0: seq<Line>, ghost channel0: seq<char>)
      returns (over: bool)
      requires Wrote(done, status0, channel0)
      modifies this
      ensures Wrote(Then(done, OnInit(done.flags, p)), status0, channel0)
      ensures over <==> p.poll.Revents? && p.poll.init
    {
      over := false;
      if p.poll.Revents? && p.poll.init {
        if p.wait.WaitDone? { Finish(); } else { status := status + [Error(p.wait.errno)]; }
        over := true;
      }
    }

    /** One pass of the loop; true when it was the last. */
    method RunPass(p: Pass) returns (over: bool)
      modifies this
      ensures Wrote(OnPass(old(Value()), p), old(status), old(channel))
      ensures over <==> p.poll.Revents? && p.poll.init
    {
      ghost var f, s0, c0 := Value(), status, channel;
      ghost var a := if p.stopping then Stop(f, p.kill) else Nothing(f);
      StopIf(p.stopping, p.kill, Nothing(f), s0, c0);
      ghost var b := Then(a, if p.poll.Failing? then Stop(a.flags, p.kill) else Nothing(a.flags));
      StopIf(p.poll.Failing?, p.kill, a, s0, c0);
      ghost var c := Then(b, OnControl(b.flags, p));
      HandleControl(p, b, s0, c0);
      HandleChannel(p, c, s0, c0);
      over := HandleInit(p, Then(c, OnChannel(c.flags, p)), s0, c0);
    }

    /** After waitpid has reaped init. */
    method Finish()
      modifies this`status
      ensures status == old(status) + Farewell(Value())
    {
      if !rootSeen && !cancelled && !errorSeen { status := status + [Error(ECHILD)]; }
      status := status + [Tree];
    }
  }

  /** One more turn of the drain loop after `done`. */
  lemma DrainStep(done: Outcome, rs: seq<Received>, kill: Kill)
    requires rs != []
    ensures var o := OnReceived(done.flags, rs[0], kill);
            Then(done, Drain(done.flags, rs, kill))
            == if rs[0].Message? then Then(Then(done, o), Drain(o.flags, rs[1..], kill)) else Then(done, o)
  {
    var o := OnReceived(done.flags, rs[0], kill);
    if rs[0].Message? { ThenAssociates(done, o, Drain(o.flags, rs[1..], kill)); }
  }

  lemma ThenAssociates(a: Outcome, b: Outcome, c: Outcome)
    ensures Then(Then(a, b), c) == Then(a, Then(b, c))
  {
    assert a.lines + b.lines + c.lines == a.lines + (b.lines + c.lines);
    assert a.sends + b.sends + c.sends == a.sends + (b.sends + c.sends);
  }
}
