/** One pass of the controller's loop, as the loop runs it and as the state machine takes it
    apart, with the other parties moving in between. */
module OwnershipPasses {
  import opened Schema
  import opened OwnerStatus
  import opened OwnerController
  import opened Ownership

  type LoopPass = OwnerController.Pass

  // ----- a pass as a list of actions -----

  function Receives(rs: seq<Received>, kill: Kill): seq<ControllerAction> {
    if rs == [] then []
    else [Receive(rs[0], kill)] + if rs[0].Message? then Receives(rs[1..], kill) else []
  }

  function Ends(p: LoopPass): seq<ControllerAction>
    requires p.poll.Revents?
  {
    if !p.poll.init then [EndPass]
    else if p.wait.WaitDone? then [Join, PrintLast]
    else [CannotJoin(p.wait.errno)]
  }

  function Commands(p: LoopPass): seq<ControllerAction>
    requires p.poll.Revents?
  {
    if p.poll.control then [TakeCommand(p.command, p.sendOk, p.kill)] else []
  }

  predicate Drains(f: Flags, p: LoopPass)
    requires p.poll.Revents?
  {
    (p.poll.channel || p.poll.init) && f.channelOpen
  }

  function AfterPoll(f: Flags, p: LoopPass): seq<ControllerAction>
    requires p.poll.Revents?
  {
    Commands(p) + ((if Drains(f, p) then Receives(p.received, p.kill) else []) + Ends(p))
  }

  /** The actions of a pass behind the stop. */
  function Polled(f: Flags, p: LoopPass): seq<ControllerAction> {
    match p.poll
    case Woken => []
    case Failing => [PollFails(p.kill)]
    case Revents(control, channel, init) => [Poll(control, channel, init)] + AfterPoll(f, p)
  }

  /** The actions of the machine that make up the pass. */
  function PassActions(f: Flags, p: LoopPass): seq<ControllerAction> {
    (if p.stopping then [StopSignal(p.kill)] else []) + Polled(f, p)
  }

  /** recv is called until it answers something else than a message. */
  predicate Complete(rs: seq<Received>) {
    rs != [] && if rs[0].Message? then Complete(rs[1..]) else true
  }

  predicate CompletePass(f: Flags, p: LoopPass) {
    p.poll.Revents? && Drains(f, p) ==> Complete(p.received)
  }

  // ----- what the actions do to the controller itself -----

  /** Where the controller is, its flags, and what it has printed and sent. */
  datatype Local = Local(at: ControllerAt, flags: Flags, lines: seq<Line>, sends: seq<char>)

  function Did(l: Local, at: ControllerAt, o: Outcome): Local {
    Local(at, o.flags, l.lines + o.lines, l.sends + o.sends)
  }

  predicate Fits(l: Local, a: ControllerAction) {
    match a
    case TakeCommand(_, _, _) => l.at.InPass?
    case Receive(_, _) => l.at.InPass?
    case PrintLast => l.at.Joined?
    case _ => true
  }

  /** The actions of the loop, seen from inside. */
  function Apply(l: Local, a: ControllerAction): Local
    requires Fits(l, a)
  {
    match a
    case StopSignal(kill) => Did(l, l.at, Stop(l.flags, kill))
    case PollFails(kill) => Did(l, l.at, Stop(l.flags, kill))
    case Poll(control, channel, init) => l.(at := InPass(control, (channel || init) && l.flags.channelOpen, init))
    case TakeCommand(c, sendOk, kill) => Did(l, l.at.(command := false), OnCommand(l.flags, c, sendOk, kill))
    case Receive(r, kill) => Did(l, l.at.(drain := r.Message?), OnReceived(l.flags, r, kill))
    case EndPass => l.(at := Top)
    case Join => l.(at := Joined(Farewell(l.flags)))
    case CannotJoin(errno) => l.(at := Exited, lines := l.lines + [Error(errno)])
    case PrintLast => l.(at := Exited, lines := l.lines + l.at.last)
    case _ => l
  }

  predicate OfLoop(a: ControllerAction) {
    match a
    case StopSignal(_) => true
    case PollFails(_) => true
    case Poll(_, _, _) => true
    case TakeCommand(_, _, _) => true
    case Receive(_, _) => true
    case EndPass => true
    case Join => true
    case CannotJoin(_) => true
    case PrintLast => true
    case _ => false
  }

  function ApplyAll(l: Local, acts: seq<ControllerAction>): Option<Local>
    decreases |acts|
  {
    if acts == [] then Some(l)
    else if Fits(l, acts[0]) then ApplyAll(Apply(l, acts[0]), acts[1..])
    else None
  }

  lemma {:induction false} ApplyConcat(l: Local, a: seq<ControllerAction>, b: seq<ControllerAction>)
    requires ApplyAll(l, a).Some?
    ensures ApplyAll(l, a + b) == ApplyAll(ApplyAll(l, a).value, b)
    decreases |a|
  {
    if a == [] {
      assert a + b == b;
    } else {
      assert (a + b)[1..] == a[1..] + b;
      ApplyConcat(Apply(l, a[0]), a[1..], b);
    }
  }

  lemma DidThen(l: Local, at: ControllerAt, at': ControllerAt, a: Outcome, b: Outcome)
    ensures Did(Did(l, at, a), at', b) == Did(l, at', Then(a, b))
  {
    assert l.lines + a.lines + b.lines == l.lines + (a.lines + b.lines);
    assert l.sends + a.sends + b.sends == l.sends + (a.sends + b.sends);
  }

  /** The drain loop. */
  lemma {:induction false} ReceivesDrain(l: Local, rs: seq<Received>, kill: Kill)
    requires Complete(rs) && l.at.InPass?
    ensures ApplyAll(l, Receives(rs, kill)) == Some(Did(l, l.at.(drain := false), Drain(l.flags, rs, kill)))
    decreases |rs|
  {
    var o := OnReceived(l.flags, rs[0], kill);
    var next := Apply(l, Receive(rs[0], kill));
    if rs[0].Message? {
      ReceivesDrain(next, rs[1..], kill);
      DidThen(l, next.at, l.at.(drain := false), o, Drain(o.flags, rs[1..], kill));
      assert Receives(rs, kill)[1..] == Receives(rs[1..], kill);
    } else {
      assert Receives(rs, kill) == [Receive(rs[0], kill)] && Receives(rs, kill)[1..] == [];
    }
  }

  function EndAt(p: LoopPass): ControllerAt {
    if p.poll.Revents? && p.poll.init then Exited else Top
  }

  lemma EndsPass(l: Local, p: LoopPass)
    requires p.poll.Revents? && l.at.InPass?
    ensures ApplyAll(l, Ends(p)) == Some(Did(l, EndAt(p), OnInit(l.flags, p)))
  {
    assert l.lines + [] == l.lines && l.sends + [] == l.sends;
    if p.poll.init && p.wait.WaitDone? {
      var j := Apply(l, Join);
      assert [Join, PrintLast][1..] == [PrintLast] && [PrintLast][1..] == [];
      assert ApplyAll(j, [PrintLast]) == Some(Apply(j, PrintLast));
    } else if p.poll.init {
      assert [CannotJoin(p.wait.errno)][1..] == [];
    } else {
      assert [EndPass][1..] == [];
    }
  }

  lemma DrainsPass(l: Local, p: LoopPass, f: Flags)
    requires p.poll.Revents? && l.at.InPass? && l.flags.channelOpen == f.channelOpen && CompletePass(f, p)
    ensures var acts := if Drains(f, p) then Receives(p.received, p.kill) else [];
            && ApplyAll(l, acts).Some? && ApplyAll(l, acts).value.at.InPass?
            && ApplyAll(l, acts).value == Did(l, ApplyAll(l, acts).value.at, OnChannel(l.flags, p))
  {
    assert l.lines + [] == l.lines && l.sends + [] == l.sends;
    if Drains(f, p) { ReceivesDrain(l, p.received, p.kill); }
  }

  lemma CommandsPass(l: Local, p: LoopPass) returns (l1: Local)
    requires p.poll.Revents? && l.at.InPass?
    ensures ApplyAll(l, Commands(p)) == Some(l1) && l1.at.InPass? && l1 == Did(l, l1.at, OnControl(l.flags, p))
    ensures l1.flags.channelOpen == l.flags.channelOpen
  {
    assert l.lines + [] == l.lines && l.sends + [] == l.sends;
    l1 := Did(l, if p.poll.control then l.at.(command := false) else l.at, OnControl(l.flags, p));
    if p.poll.control { assert Commands(p)[1..] == []; }
  }

  lemma AfterCommands(l: Local, p: LoopPass, f: Flags)
    requires p.poll.Revents? && l.at.InPass? && l.flags.channelOpen == f.channelOpen && CompletePass(f, p)
    ensures var d := OnChannel(l.flags, p);
            ApplyAll(l, (if Drains(f, p) then Receives(p.received, p.kill) else []) + Ends(p))
            == Some(Did(l, EndAt(p), Then(d, OnInit(d.flags, p))))
  {
    var rs := if Drains(f, p) then Receives(p.received, p.kill) else [];
    DrainsPass(l, p, f);
    ApplyConcat(l, rs, Ends(p));
    var l2 := ApplyAll(l, rs).value;
    EndsPass(l2, p);
    DidThen(l, l2.at, EndAt(p), OnChannel(l.flags, p), OnInit(l2.flags, p));
  }

  lemma AfterPollDoes(l: Local, p: LoopPass, f: Flags)
    requires p.poll.Revents? && l.at.InPass? && l.flags.channelOpen == f.channelOpen && CompletePass(f, p)
    ensures var c := OnControl(l.flags, p);
            var d := Then(c, OnChannel(c.flags, p));
            ApplyAll(l, AfterPoll(f, p)) == Some(Did(l, EndAt(p), Then(d, OnInit(d.flags, p))))
  {
    var c := OnControl(l.flags, p);
    var l1 := CommandsPass(l, p);
    ApplyConcat(l, Commands(p), (if Drains(f, p) then Receives(p.received, p.kill) else []) + Ends(p));
    AfterCommands(l1, p, f);
    var d := OnChannel(c.flags, p);
    DidThen(l, l1.at, EndAt(p), c, Then(d, OnInit(d.flags, p)));
    ThenAssociates(c, d, OnInit(d.flags, p));
  }

  /** The actions of a pass do to the controller what the loop does. */
  lemma PassIsOnPass(f: Flags, p: LoopPass, l: Local)
    requires l.at.Top? && l.flags == f && CompletePass(f, p)
    ensures ApplyAll(l, PassActions(f, p)) == Some(Did(l, EndAt(p), OnPass(f, p)))
  {
    assert l.lines + [] == l.lines && l.sends + [] == l.sends;
    var first := if p.stopping then [StopSignal(p.kill)] else [];
    var a := if p.stopping then Stop(f, p.kill) else Nothing(f);
    var l1 := Did(l, Top, a);
    assert ApplyAll(l, first) == Some(l1) by { if p.stopping { assert first[1..] == []; } }
    ApplyConcat(l, first, Polled(f, p));
    AfterStop(f, p, l, a);
  }

  lemma AfterStop(f: Flags, p: LoopPass, l: Local, a: Outcome)
    requires l.at.Top? && l.flags == f && CompletePass(f, p) && a == (if p.stopping then Stop(f, p.kill) else Nothing(f))
    ensures ApplyAll(Did(l, Top, a), Polled(f, p)) == Some(Did(l, EndAt(p), OnPass(f, p)))
  {
    var l1 := Did(l, Top, a);
    match p.poll
    case Woken =>
      DidNothing(l1);
      DidThen(l, Top, Top, a, Nothing(a.flags));
      OnPassWoken(f, p);
    case Failing =>
      assert Polled(f, p)[1..] == [];
      DidThen(l, Top, Top, a, Stop(a.flags, p.kill));
      OnPassFailing(f, p);
    case Revents(control, channel, init) =>
      var l2 := Apply(l1, Poll(control, channel, init));
      assert Polled(f, p)[1..] == AfterPoll(f, p);
      AfterPollDoes(l2, p, f);
      var c := OnControl(a.flags, p);
      var d := Then(c, OnChannel(c.flags, p));
      DidThen(l, l2.at, EndAt(p), a, Then(d, OnInit(d.flags, p)));
      OnPassReady(f, p);
  }

  lemma DidNothing(l: Local)
    ensures Did(l, l.at, Nothing(l.flags)) == l
  {
  }

  lemma OnPassWoken(f: Flags, p: LoopPass)
    requires p.poll.Woken?
    ensures OnPass(f, p) == if p.stopping then Stop(f, p.kill) else Nothing(f)
  {
  }

  lemma OnPassFailing(f: Flags, p: LoopPass)
    requires p.poll.Failing?
    ensures var a := if p.stopping then Stop(f, p.kill) else Nothing(f);
            OnPass(f, p) == Then(a, Stop(a.flags, p.kill))
  {
  }

  lemma ThenThree(a: Outcome, c: Outcome, d: Outcome, e: Outcome)
    ensures Then(Then(Then(a, c), d), e) == Then(a, Then(Then(c, d), e))
  {
    ThenAssociates(a, c, d);
    ThenAssociates(a, Then(c, d), e);
  }

  lemma OnPassReady(f: Flags, p: LoopPass)
    requires p.poll.Revents?
    ensures var a := if p.stopping then Stop(f, p.kill) else Nothing(f);
            var c := OnControl(a.flags, p);
            var d := Then(c, OnChannel(c.flags, p));
            OnPass(f, p) == Then(a, Then(d, OnInit(d.flags, p)))
  {
    var a := if p.stopping then Stop(f, p.kill) else Nothing(f);
    assert Then(a, Nothing(a.flags)) == a;
    var c := OnControl(a.flags, p);
    var d := OnChannel(c.flags, p);
    ThenThree(a, c, d, OnInit(d.flags, p));
  }

  // ----- whatever the other parties do meanwhile -----

  /** The controller's own actions in a run. */
  function Controls(actions: seq<Action>): seq<ControllerAction> {
    if actions == [] then []
    else (if actions[0].ByController? then [actions[0].controller] else []) + Controls(actions[1..])
  }

  /** `l` is what has become of the controller since it had printed `status0`; and, if only it
      has moved since init had `to0` to receive, what it has sent. */
  ghost predicate Tracks(status0: seq<Line>, to0: Option<seq<char>>, s: State, l: Local) {
    && s.controller == l.at && s.flags == l.flags && s.status == status0 + l.lines
    && (to0.Some? ==> s.toInit == to0.value + l.sends)
  }

  lemma DidTracks(status0: seq<Line>, to0: Option<seq<char>>, s: State, l: Local, t: State, o: Outcome)
    requires Tracks(status0, to0, s, l)
    requires t.flags == o.flags && t.status == s.status + o.lines && t.toInit == s.toInit + o.sends
    ensures Tracks(status0, to0, t, Did(l, t.controller, o))
  {
    assert status0 + (l.lines + o.lines) == status0 + l.lines + o.lines;
    if to0.Some? { assert to0.value + (l.sends + o.sends) == to0.value + l.sends + o.sends; }
  }

  /** The actions whose effect is an outcome of the loop. */
  function OutcomeOf(f: Flags, a: ControllerAction): Option<Outcome> {
    match a
    case StopSignal(kill) => Some(Stop(f, kill))
    case PollFails(kill) => Some(Stop(f, kill))
    case TakeCommand(c, sendOk, kill) => Some(OnCommand(f, c, sendOk, kill))
    case Receive(r, kill) => Some(OnReceived(f, r, kill))
    case _ => None
  }

  /** What no action of the loop changes, up to the last ones of a pass. */
  ghost predicate SameWorld(s: State, t: State) {
    t.init == s.init && t.sent == s.sent && t.armed == s.armed
  }

  lemma ReceivedSendsNothing(f: Flags, r: Received, kill: Kill)
    ensures OnReceived(f, r, kill).sends == []
  {
  }

  /** A state after one answer of recv, up to the milestones. */
  function Handled(s: State, r: Received, o: Outcome, kill: Kill): State
    requires s.controller.InPass?
  {
    Effect(s, o, kill).(
      taken := if r.Message? then s.taken + 1 else s.taken,
      controller := s.controller.(drain := r.Message?))
  }

  lemma ReceiveForm(s: State, r: Received, kill: Kill)
    requires ControllerEnabled(s, Receive(r, kill))
    ensures ControllerStep(s, Receive(r, kill)) == Handled(s, r, OnReceived(s.flags, r, kill), kill).(
      gates := ControllerStep(s, Receive(r, kill)).gates)
  {
  }

  /** One message handled: only these fields of the state matter here. */
  lemma ReceiveStep(s: State, r: Received, kill: Kill)
    requires ControllerEnabled(s, Receive(r, kill))
    ensures var t, o := ControllerStep(s, Receive(r, kill)), OnReceived(s.flags, r, kill);
            && t.controller == s.controller.(drain := r.Message?) && SameWorld(s, t) && t.toInit == s.toInit
            && t.taken == (if r.Message? then s.taken + 1 else s.taken)
            && t.flags == o.flags && t.status == s.status + o.lines
  {
    ReceiveForm(s, r, kill);
    ReceivedSendsNothing(s.flags, r, kill);
    assert s.toInit + [] == s.toInit;
  }

  lemma CommandStep(s: State, c: Command, sendOk: bool, kill: Kill)
    requires ControllerEnabled(s, TakeCommand(c, sendOk, kill))
    ensures var t, o := ControllerStep(s, TakeCommand(c, sendOk, kill)), OnCommand(s.flags, c, sendOk, kill);
            && t.controller == s.controller.(command := false) && SameWorld(s, t) && t.taken == s.taken
            && t.flags == o.flags && t.status == s.status + o.lines && t.toInit == s.toInit + o.sends
  {
    var o := OnCommand(s.flags, c, sendOk, kill);
    var e := Effect(s, o, kill);
    var t := e.(control := if c.Byte? then s.control[1..] else s.control, controller := s.controller.(command := false));
    var u := ControllerStep(s, TakeCommand(c, sendOk, kill));
    assert u == t || u == Ownership.Pass(t, GateOfSend(o.sends));
  }

  lemma StepHasOutcome(s: State, a: ControllerAction, l: Local)
    requires ControllerEnabled(s, a) && OutcomeOf(s.flags, a).Some? && s.controller == l.at && s.flags == l.flags
    ensures var t, o := ControllerStep(s, a), OutcomeOf(s.flags, a).value;
            && t.flags == o.flags && t.status == s.status + o.lines && t.toInit == s.toInit + o.sends
            && Fits(l, a) && Apply(l, a) == Did(l, t.controller, o)
  {
    match a
    case TakeCommand(c, sendOk, kill) => CommandStep(s, c, sendOk, kill);
    case Receive(r, kill) =>
      ReceiveStep(s, r, kill);
      ReceivedSendsNothing(s.flags, r, kill);
      assert s.toInit + [] == s.toInit;
    case _ =>
  }

  lemma LastTracks(status0: seq<Line>, to0: Option<seq<char>>, s: State, a: ControllerAction, l: Local)
    requires ControllerEnabled(s, a) && OfLoop(a) && OutcomeOf(s.flags, a).None? && Tracks(status0, to0, s, l)
    ensures Fits(l, a) && Tracks(status0, to0, ControllerStep(s, a), Apply(l, a))
  {
    match a
    case CannotJoin(errno) => assert status0 + (l.lines + [Error(errno)]) == status0 + l.lines + [Error(errno)];
    case PrintLast => assert status0 + (l.lines + l.at.last) == status0 + l.lines + l.at.last;
    case _ =>
  }

  lemma ControllerTracks(status0: seq<Line>, to0: Option<seq<char>>, s: State, a: ControllerAction, l: Local)
    requires ControllerEnabled(s, a) && OfLoop(a) && Tracks(status0, to0, s, l)
    ensures Fits(l, a) && Tracks(status0, to0, ControllerStep(s, a), Apply(l, a))
  {
    if OutcomeOf(s.flags, a).Some? {
      StepHasOutcome(s, a, l);
      DidTracks(status0, to0, s, l, ControllerStep(s, a), OutcomeOf(s.flags, a).value);
    } else {
      LastTracks(status0, to0, s, a, l);
    }
  }

  /** What the other parties cannot touch. */
  ghost predicate SameController(s: State, t: State) {
    t.controller == s.controller && t.flags == s.flags && t.status == s.status
  }

  lemma HostLeaves(s: State, a: HostAction)
    requires HostEnabled(s, a)
    ensures SameController(s, HostStep(s, a))
  {
  }

  lemma InitLeaves(s: State, a: InitAction)
    requires InitEnabled(s, a)
    ensures SameController(s, InitStep(s, a))
  {
  }

  lemma OthersTrack(status0: seq<Line>, s: State, a: Action, l: Local)
    requires Enabled(s, a) && !a.ByController? && Tracks(status0, None, s, l)
    ensures Tracks(status0, None, Step(s, a), l)
  {
    match a
    case ByHost(h) => HostLeaves(s, h);
    case ByInit(i) => InitLeaves(s, i);
    case ByKernel(k) =>
  }

  lemma {:induction false} RunTracks(status0: seq<Line>, to0: Option<seq<char>>, s: State, actions: seq<Action>, l: Local)
    requires RunFrom(s, actions).Some? && Tracks(status0, to0, s, l)
    requires AllOfLoop(Controls(actions))
    requires to0.Some? ==> forall i | 0 <= i < |actions| :: actions[i].ByController?
    ensures ApplyAll(l, Controls(actions)).Some?
    ensures Tracks(status0, to0, RunFrom(s, actions).value, ApplyAll(l, Controls(actions)).value)
    decreases |actions|
  {
    if actions != [] {
      var a := actions[0];
      if a.ByController? {
        assert Controls(actions) == [a.controller] + Controls(actions[1..]);
        assert Controls(actions)[0] == a.controller;
        assert forall i | 0 <= i < |Controls(actions[1..])| :: Controls(actions[1..])[i] == Controls(actions)[i + 1];
        ControllerTracks(status0, to0, s, a.controller, l);
        RunTracks(status0, to0, Step(s, a), actions[1..], Apply(l, a.controller));
        assert Controls(actions)[1..] == Controls(actions[1..]);
      } else {
        assert Controls(actions) == Controls(actions[1..]);
        OthersTrack(status0, s, a, l);
        RunTracks(status0, to0, Step(s, a), actions[1..], l);
      }
    }
  }

  ghost predicate AllOfLoop(acts: seq<ControllerAction>) {
    forall i | 0 <= i < |acts| :: OfLoop(acts[i])
  }

  lemma OfLoopConcat(a: seq<ControllerAction>, b: seq<ControllerAction>)
    requires AllOfLoop(a) && AllOfLoop(b)
    ensures AllOfLoop(a + b)
  {
  }

  lemma {:induction false} ReceivesOfLoop(rs: seq<Received>, kill: Kill)
    ensures AllOfLoop(Receives(rs, kill))
    decreases |rs|
  {
    if rs != [] && rs[0].Message? { ReceivesOfLoop(rs[1..], kill); }
  }

  lemma PassIsOfLoop(f: Flags, p: LoopPass)
    ensures AllOfLoop(PassActions(f, p))
  {
    if p.poll.Revents? {
      var rs := if Drains(f, p) then Receives(p.received, p.kill) else [];
      ReceivesOfLoop(p.received, p.kill);
      OfLoopConcat(rs, Ends(p));
      OfLoopConcat(Commands(p), rs + Ends(p));
      OfLoopConcat([Poll(p.poll.control, p.poll.channel, p.poll.init)], AfterPoll(f, p));
    }
    OfLoopConcat(if p.stopping then [StopSignal(p.kill)] else [], Polled(f, p));
  }

  /** In every run in which the controller makes the actions of a pass, whatever the others do in
      between, its flags become and it prints what the loop computes. */
  lemma PassSimulates(s: State, actions: seq<Action>, p: LoopPass)
    requires s.controller.Top? && CompletePass(s.flags, p)
    requires RunFrom(s, actions).Some? && Controls(actions) == PassActions(s.flags, p)
    ensures var t, o := RunFrom(s, actions).value, OnPass(s.flags, p);
            t.controller == EndAt(p) && t.flags == o.flags && t.status == s.status + o.lines
  {
    var l := Local(s.controller, s.flags, [], []);
    PassIsOfLoop(s.flags, p);
    RunTracks(s.status, None, s, actions, l);
    PassIsOnPass(s.flags, p, l);
    assert [] + OnPass(s.flags, p).lines == OnPass(s.flags, p).lines;
  }

  // ----- every possible pass has a run -----

  function AsRun(acts: seq<ControllerAction>): (r: seq<Action>)
    ensures |r| == |acts| && forall i | 0 <= i < |r| :: r[i] == ByController(acts[i])
  {
    seq(|acts|, i requires 0 <= i < |acts| => ByController(acts[i]))
  }

  lemma {:induction false} ControlsOfRun(acts: seq<ControllerAction>)
    ensures Controls(AsRun(acts)) == acts
  {
    if acts != [] {
      assert AsRun(acts)[1..] == AsRun(acts[1..]);
      ControlsOfRun(acts[1..]);
    }
  }

  /** The controller alone can make these actions one after the other. */
  ghost predicate CanRun(s: State, acts: seq<ControllerAction>)
    decreases |acts|
  {
    acts == [] || (ControllerEnabled(s, acts[0]) && CanRun(ControllerStep(s, acts[0]), acts[1..]))
  }

  function After(s: State, acts: seq<ControllerAction>): State
    requires CanRun(s, acts)
    decreases |acts|
  {
    if acts == [] then s else After(ControllerStep(s, acts[0]), acts[1..])
  }

  lemma {:induction false} CanRunIsRun(s: State, acts: seq<ControllerAction>)
    requires CanRun(s, acts)
    ensures RunFrom(s, AsRun(acts)) == Some(After(s, acts))
    decreases |acts|
  {
    if acts != [] {
      assert AsRun(acts)[1..] == AsRun(acts[1..]);
      CanRunIsRun(ControllerStep(s, acts[0]), acts[1..]);
    }
  }

  lemma {:induction false} CanRunConcat(s: State, a: seq<ControllerAction>, b: seq<ControllerAction>)
    requires CanRun(s, a) && CanRun(After(s, a), b)
    ensures CanRun(s, a + b)
    decreases |a|
  {
    if a == [] {
      assert a + b == b;
    } else {
      assert (a + b)[1..] == a[1..] + b;
      CanRunConcat(ControllerStep(s, a[0]), a[1..], b);
    }
  }

  /** What the drain can meet, if init does nothing meanwhile. */
  ghost predicate PossibleReceives(sent: seq<Event>, taken: nat, alive: bool, unread: bool, rs: seq<Received>)
    decreases |rs|
  {
    && rs != []
    && match rs[0]
       case Message(e) =>
         taken < |sent| && e == sent[taken] && PossibleReceives(sent, taken + 1, alive, unread, rs[1..])
       case Empty => taken == |sent|
       case Eof => taken == |sent| && !alive
       case Broken => !alive && unread
  }

  /** The pass is possible in this state, if nobody else moves meanwhile. */
  ghost predicate PossiblePass(s: State, p: LoopPass) {
    && s.controller.Top? && PossibleKill(s, p.kill)
    && (p.poll.Revents? ==>
          && (p.poll.control ==> s.flags.controlOpen && PossibleCommand(s, p.command))
          && (p.poll.control && p.sendOk ==> Alive(s.init) && s.flags.channelOpen)
          && (p.poll.init ==> s.init.Zombie? && (p.wait.WaitError? ==> Errno(p.wait.errno)))
          && (Drains(s.flags, p) ==> PossibleReceives(s.sent, s.taken, Alive(s.init), s.toInit != [], p.received)))
  }

  lemma {:induction false} ReceivesRun(s: State, rs: seq<Received>, kill: Kill)
    requires s.controller.InPass? && !s.controller.command && s.controller.drain && PossibleKill(s, kill)
    requires PossibleReceives(s.sent, s.taken, Alive(s.init), s.toInit != [], rs)
    ensures CanRun(s, Receives(rs, kill))
    ensures After(s, Receives(rs, kill)).controller == s.controller.(drain := false)
    ensures SameWorld(s, After(s, Receives(rs, kill))) && Complete(rs)
    decreases |rs|
  {
    var a := Receive(rs[0], kill);
    ReceiveStep(s, rs[0], kill);
    var t := ControllerStep(s, a);
    if rs[0].Message? {
      ReceivesRun(t, rs[1..], kill);
      assert Receives(rs, kill)[1..] == Receives(rs[1..], kill);
    } else {
      assert Receives(rs, kill) == [a] && Receives(rs, kill)[1..] == [];
    }
  }

  lemma EndsRun(s: State, p: LoopPass)
    requires p.poll.Revents? && s.controller == InPass(false, false, p.poll.init)
    requires p.poll.init ==> s.init.Zombie? && (p.wait.WaitError? ==> Errno(p.wait.errno))
    ensures CanRun(s, Ends(p))
  {
    if p.poll.init && p.wait.WaitDone? {
      assert [Join, PrintLast][1..] == [PrintLast] && [PrintLast][1..] == [];
      assert CanRun(ControllerStep(s, Join), [PrintLast]);
    } else {
      assert Ends(p)[1..] == [];
    }
  }

  lemma DrainAndEndRun(s: State, p: LoopPass, f: Flags)
    requires p.poll.Revents? && s.controller == InPass(false, Drains(f, p), p.poll.init) && PossibleKill(s, p.kill)
    requires p.poll.init ==> s.init.Zombie? && (p.wait.WaitError? ==> Errno(p.wait.errno))
    requires Drains(f, p) ==> PossibleReceives(s.sent, s.taken, Alive(s.init), s.toInit != [], p.received)
    ensures CanRun(s, (if Drains(f, p) then Receives(p.received, p.kill) else []) + Ends(p)) && CompletePass(f, p)
  {
    if Drains(f, p) {
      ReceivesRun(s, p.received, p.kill);
      EndsRun(After(s, Receives(p.received, p.kill)), p);
      CanRunConcat(s, Receives(p.received, p.kill), Ends(p));
    } else {
      assert [] + Ends(p) == Ends(p);
      EndsRun(s, p);
    }
  }

  lemma CommandRun(s: State, p: LoopPass)
    requires p.poll.Revents? && s.controller.InPass? && s.controller.command == p.poll.control && PossibleKill(s, p.kill)
    requires p.poll.control ==> PossibleCommand(s, p.command) && (p.sendOk ==> Alive(s.init) && s.flags.channelOpen)
    ensures CanRun(s, Commands(p))
    ensures var t := After(s, Commands(p));
            && t.controller == s.controller.(command := false) && SameWorld(s, t) && t.taken == s.taken
            && (t.toInit == s.toInit || Alive(s.init))
  {
    if p.poll.control {
      assert Commands(p)[1..] == [];
      CommandStep(s, p.command, p.sendOk, p.kill);
      var o := OnCommand(s.flags, p.command, p.sendOk, p.kill);
      assert o.sends == [] ==> s.toInit + o.sends == s.toInit;
    }
  }

  /** Unread bytes matter to the drain only when init is gone. */
  lemma {:induction false} UnreadMatters(sent: seq<Event>, taken: nat, unread: bool, unread': bool, rs: seq<Received>)
    requires PossibleReceives(sent, taken, true, unread, rs)
    ensures PossibleReceives(sent, taken, true, unread', rs)
    decreases |rs|
  {
    if rs[0].Message? { UnreadMatters(sent, taken + 1, unread, unread', rs[1..]); }
  }

  lemma AfterPollRuns(s: State, p: LoopPass, f: Flags)
    requires p.poll.Revents? && s.controller == InPass(p.poll.control, Drains(f, p), p.poll.init) && PossibleKill(s, p.kill)
    requires p.poll.control ==> PossibleCommand(s, p.command) && (p.sendOk ==> Alive(s.init) && s.flags.channelOpen)
    requires p.poll.init ==> s.init.Zombie? && (p.wait.WaitError? ==> Errno(p.wait.errno))
    requires Drains(f, p) ==> PossibleReceives(s.sent, s.taken, Alive(s.init), s.toInit != [], p.received)
    ensures CanRun(s, AfterPoll(f, p)) && CompletePass(f, p)
  {
    CommandRun(s, p);
    var t := After(s, Commands(p));
    if Drains(f, p) && Alive(s.init) {
      UnreadMatters(s.sent, s.taken, s.toInit != [], t.toInit != [], p.received);
    }
    DrainAndEndRun(t, p, f);
    CanRunConcat(s, Commands(p), (if Drains(f, p) then Receives(p.received, p.kill) else []) + Ends(p));
  }

  lemma StopStep(s: State, kill: Kill)
    requires s.controller.Top? && PossibleKill(s, kill)
    ensures var t := ControllerStep(s, StopSignal(kill));
            && t.controller.Top? && SameWorld(s, t) && t.toInit == s.toInit && t.taken == s.taken && t.control == s.control
            && t.flags.controlOpen == s.flags.controlOpen && t.flags.channelOpen == s.flags.channelOpen
  {
    assert s.toInit + [] == s.toInit;
  }

  /** The pass is possible after the stop, if it was before. */
  lemma StillPossible(s: State, t: State, p: LoopPass)
    requires PossiblePass(s, p) && t.controller.Top? && SameWorld(s, t)
    requires t.toInit == s.toInit && t.taken == s.taken && t.control == s.control
    requires t.flags.controlOpen == s.flags.controlOpen && t.flags.channelOpen == s.flags.channelOpen
    ensures PossiblePass(t, p)
  {
  }

  lemma ReadyRuns(s: State, p: LoopPass, f: Flags)
    requires PossiblePass(s, p) && p.poll.Revents? && s.flags.channelOpen == f.channelOpen
    ensures CanRun(s, [Poll(p.poll.control, p.poll.channel, p.poll.init)] + AfterPoll(f, p)) && CompletePass(f, p)
  {
    var a := Poll(p.poll.control, p.poll.channel, p.poll.init);
    var t := ControllerStep(s, a);
    assert t == s.(controller := InPass(p.poll.control, Drains(f, p), p.poll.init));
    AfterPollRuns(t, p, f);
    assert ([a] + AfterPoll(f, p))[1..] == AfterPoll(f, p);
  }

  lemma PolledRuns(s: State, p: LoopPass, f: Flags)
    requires PossiblePass(s, p) && s.flags.channelOpen == f.channelOpen
    ensures CanRun(s, Polled(f, p)) && CompletePass(f, p)
  {
    if p.poll.Revents? {
      ReadyRuns(s, p, f);
    } else if p.poll.Failing? {
      assert [PollFails(p.kill)][1..] == [];
    }
  }

  lemma PassRuns(s: State, p: LoopPass)
    requires PossiblePass(s, p)
    ensures CanRun(s, PassActions(s.flags, p)) && CompletePass(s.flags, p)
  {
    if p.stopping {
      var t := ControllerStep(s, StopSignal(p.kill));
      StopStep(s, p.kill);
      StillPossible(s, t, p);
      PolledRuns(t, p, s.flags);
      assert PassActions(s.flags, p)[1..] == Polled(s.flags, p);
    } else {
      PolledRuns(s, p, s.flags);
      assert PassActions(s.flags, p) == Polled(s.flags, p);
    }
  }

  /** For every pass that is possible in a state there is a run with exactly its flags, lines and
      bytes sent. */
  lemma EveryPassHasRun(s: State, p: LoopPass)
    requires PossiblePass(s, p)
    ensures RunFrom(s, AsRun(PassActions(s.flags, p))).Some?
    ensures var t, o := RunFrom(s, AsRun(PassActions(s.flags, p))).value, OnPass(s.flags, p);
            && t.controller == EndAt(p) && t.flags == o.flags
            && t.status == s.status + o.lines && t.toInit == s.toInit + o.sends
  {
    var acts := PassActions(s.flags, p);
    PassRuns(s, p);
    CanRunIsRun(s, acts);
    ControlsOfRun(acts);
    PassIsOfLoop(s.flags, p);
    var l := Local(s.controller, s.flags, [], []);
    assert s.toInit + [] == s.toInit && s.status + [] == s.status;
    RunTracks(s.status, Some(s.toInit), s, AsRun(acts), l);
    PassIsOnPass(s.flags, p, l);
    var o := OnPass(s.flags, p);
    assert [] + o.lines == o.lines && [] + o.sends == o.sends;
  }

  // ----- one kill a pass -----

  lemma StopIfKillsOnce(f: Flags, condition: bool, kill: Kill)
    ensures KillsOnce(f, if condition then Stop(f, kill) else Nothing(f), kill)
  {
    if condition { StopKillsOnce(f, kill); }
  }

  lemma ThenKillsOnce(f: Flags, a: Outcome, b: Outcome, kill: Kill)
    requires KillsOnce(f, a, kill) && KillsOnce(a.flags, b, kill)
    ensures KillsOnce(f, Then(a, b), kill)
  {
    CountConcat(a.lines, b.lines, IsFault);
  }

  lemma ControlKillsOnce(f: Flags, p: LoopPass)
    ensures KillsOnce(f, OnControl(f, p), p.kill)
  {
    if p.poll.Revents? && p.poll.control { StopKillsOnce(f, p.kill); }
  }

  lemma EndKillsNot(f: Flags, p: LoopPass)
    ensures KillsOnce(f, OnInit(f, p), p.kill)
  {
    if p.poll.Revents? && p.poll.init {
      CountOne(Tree);
      CountOne(Error(ECHILD));
      CountConcat([Error(ECHILD)], [Tree], IsFault);
      if p.wait.WaitError? { CountOne(Error(p.wait.errno)); }
      assert [] + [Tree] == [Tree];
    }
  }

  /** A pass attempts the kill at most once, only if it was not attempted before, and prints a
      fault exactly when that attempt is refused. */
  lemma PassKillsOnce(f: Flags, p: LoopPass)
    ensures KillsOnce(f, OnPass(f, p), p.kill)
  {
    var a := if p.stopping then Stop(f, p.kill) else Nothing(f);
    StopIfKillsOnce(f, p.stopping, p.kill);
    var b := Then(a, if p.poll.Failing? then Stop(a.flags, p.kill) else Nothing(a.flags));
    StopIfKillsOnce(a.flags, p.poll.Failing?, p.kill);
    ThenKillsOnce(f, a, if p.poll.Failing? then Stop(a.flags, p.kill) else Nothing(a.flags), p.kill);
    var c := Then(b, OnControl(b.flags, p));
    ControlKillsOnce(b.flags, p);
    ThenKillsOnce(f, b, OnControl(b.flags, p), p.kill);
    if p.poll.Revents? && (p.poll.channel || p.poll.init) && c.flags.channelOpen {
      DrainKillsOnce(c.flags, p.received, p.kill);
    }
    var d := Then(c, OnChannel(c.flags, p));
    ThenKillsOnce(f, c, OnChannel(c.flags, p), p.kill);
    EndKillsNot(d.flags, p);
    ThenKillsOnce(f, d, OnInit(d.flags, p), p.kill);
  }
}
