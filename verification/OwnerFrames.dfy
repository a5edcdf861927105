/** What the reader of the status stream accepts, told from the text: frames that end in a line feed
    and have at most 80 characters, the line each of them shows, and the order of the lines. */
module OwnershipFrames {
  import opened Numbers
  import opened Schema
  import opened OwnerStatus
  import opened OwnerController
  import opened OwnershipSafety

  // ----- one frame -----

  /** The number behind a word. */
  predicate NumberIs(value: string, word: string, n: int) {
    word <= value && TryParse(value[|word|..]) == Some(n)
  }

  /** The line that a frame shows. A namespace and a fault are positive. */
  predicate Shows(value: string, l: Line) {
    match l
    case Created(n) => NumberIs(value, "CREATED ", n) && n > 0
    case Ready => value == "READY"
    case Exec => value == "EXEC"
    case Root(n) => NumberIs(value, "ROOT ", n)
    case Error(n) => NumberIs(value, "ERROR ", n)
    case Fault(n) => NumberIs(value, "FAULT ", n) && n > 0
    case Tree => value == "TREE"
  }

  lemma WordsDiffer(value: string)
    ensures "CREATED " <= value ==> value[0] == 'C'
    ensures "ROOT " <= value ==> value[0] == 'R' && value[1] == 'O'
    ensures "ERROR " <= value ==> value[0] == 'E' && value[1] == 'R'
    ensures "FAULT " <= value ==> value[0] == 'F'
  {
  }

  /** A frame is taken as the one line it shows, and refused if it shows none. */
  lemma FrameIsLine(r: Reader, value: string)
    ensures forall l | Shows(value, l) :: TakeFrame(r, value) == Accept(r, l)
    ensures TakeFrame(r, value).Some? ==> exists l :: Shows(value, l)
  {
    WordsDiffer(value);
    var t := TestFrame(value);
    if t.created.Some? { assert t.created.value > 0 ==> Shows(value, Created(t.created.value)); }
    if t.root.Some? { assert Shows(value, Root(t.root.value)); }
    if t.error.Some? { assert Shows(value, Error(t.error.value)); }
    if t.fault.Some? { assert t.fault.value > 0 ==> Shows(value, Fault(t.fault.value)); }
    assert value == "READY" ==> Shows(value, Ready);
    assert value == "EXEC" ==> Shows(value, Exec);
    assert value == "TREE" ==> Shows(value, Tree);
  }

  // ----- the frames of a text -----

  /** The frames that a line feed ends, and what is left. */
  function Split(text: string): (seq<string>, string) {
    if text == [] then ([], [])
    else
      var before := Split(text[..|text| - 1]);
      if text[|text| - 1] == '\n' then (before.0 + [before.1], []) else (before.0, before.1 + [text[|text| - 1]])
  }

  predicate NoFeed(t: string) {
    forall i | 0 <= i < |t| :: t[i] != '\n'
  }

  function Joined(frames: seq<string>): string {
    if frames == [] then [] else Joined(frames[..|frames| - 1]) + frames[|frames| - 1] + "\n"
  }

  lemma {:induction false} SplitIs(text: string)
    ensures var p := Split(text);
            text == Joined(p.0) + p.1 && NoFeed(p.1) && forall i | 0 <= i < |p.0| :: NoFeed(p.0[i])
    decreases |text|
  {
    if text != [] {
      var n := |text| - 1;
      SplitIs(text[..n]);
      var p := Split(text[..n]);
      assert text == text[..n] + [text[n]];
      if text[n] == '\n' {
        assert (p.0 + [p.1])[..|p.0|] == p.0;
        assert text == Joined(p.0) + p.1 + "\n";
      } else {
        assert text == Joined(p.0) + (p.1 + [text[n]]);
      }
    }
  }

  ghost predicate Short(frames: seq<string>) {
    forall i | 0 <= i < |frames| :: |frames[i]| <= 80
  }

  /** All frames taken in turn. */
  function TakeAll(frames: seq<string>): Option<Reader> {
    if frames == [] then Some(FRESH)
    else
      var before := TakeAll(frames[..|frames| - 1]);
      if before.Some? then TakeFrame(before.value, frames[|frames| - 1]) else None
  }

  const START_SCAN := Scan([], FRESH, false)

  lemma TakeNext(frames: seq<string>, frame: string)
    ensures TakeAll(frames + [frame]) == if TakeAll(frames).Some? then TakeFrame(TakeAll(frames).value, frame) else None
    ensures Short(frames + [frame]) <==> Short(frames) && |frame| <= 80
  {
    var all := frames + [frame];
    assert all[..|all| - 1] == frames;
    assert Short(all) ==> |all[|frames|]| <= 80;
    assert Short(all) ==> forall i | 0 <= i < |frames| :: |all[i]| <= 80;
  }

  /** The reader has failed exactly when a frame was too long or not taken. */
  lemma {:induction false} FedIs(text: string)
    ensures var s, p := FeedAll(START_SCAN, text), Split(text);
            && (s.failed <==> !(Short(p.0) && TakeAll(p.0).Some? && |p.1| <= 80))
            && (!s.failed ==> s.line == p.1 && Some(s.reader) == TakeAll(p.0))
    decreases |text|
  {
    if text != [] {
      var n := |text| - 1;
      FedIs(text[..n]);
      var p := Split(text[..n]);
      if text[n] == '\n' { TakeNext(p.0, p.1); }
    }
  }

  ghost predicate AllShow(frames: seq<string>, ls: seq<Line>) {
    |frames| == |ls| && forall i | 0 <= i < |ls| :: Shows(frames[i], ls[i])
  }

  lemma {:induction false} TakenAsLines(frames: seq<string>, ls: seq<Line>)
    requires AllShow(frames, ls)
    ensures TakeAll(frames) == AcceptAll(FRESH, ls)
    decreases |ls|
  {
    if ls != [] {
      var n := |ls| - 1;
      TakenAsLines(frames[..n], ls[..n]);
      if TakeAll(frames[..n]).Some? { FrameIsLine(TakeAll(frames[..n]).value, frames[n]); }
      assert Shows(frames[n], ls[n]);
    }
  }

  lemma {:induction false} LinesShown(frames: seq<string>) returns (ls: seq<Line>)
    requires TakeAll(frames).Some?
    ensures AllShow(frames, ls)
    decreases |frames|
  {
    ls := [];
    if frames != [] {
      var n := |frames| - 1;
      ls := LinesShown(frames[..n]);
      FrameIsLine(TakeAll(frames[..n]).value, frames[n]);
      var l :| Shows(frames[n], l);
      ls := ls + [l];
    }
  }

  /** The frames show lines in an order that is accepted. */
  ghost predicate ShowAccepted(frames: seq<string>) {
    exists ls :: AllShow(frames, ls) && AcceptAll(FRESH, ls).Some?
  }

  /** The reader thread gets through a stream exactly when it ends in a line feed, no frame has more
      than 80 characters, and the frames show lines in an order that is accepted. It then knows what
      the lines say. */
  lemma StreamIsRead(text: string)
    ensures var end, p := AtEnd(FeedAll(START_SCAN, text)), Split(text);
            && (!end.failed <==> p.1 == [] && Short(p.0) && ShowAccepted(p.0))
            && (!end.failed ==> forall ls | AllShow(p.0, ls) :: AcceptAll(FRESH, ls) == Some(end.reader))
  {
    var frames := Split(text).0;
    FedIs(text);
    if TakeAll(frames).Some? {
      var ls := LinesShown(frames);
      TakenAsLines(frames, ls);
    }
    forall ls | AllShow(frames, ls) ensures AcceptAll(FRESH, ls) == TakeAll(frames) { TakenAsLines(frames, ls); }
  }

  // ----- the order of lines -----

  /** Every kind of line at most once, READY behind CREATED and EXEC behind READY. */
  ghost predicate InLineOrder(ls: seq<Line>) {
    && (forall i, j | 0 <= i < j < |ls| :: !SameKind(ls[i], ls[j]))
    && (forall j | 0 <= j < |ls| && ls[j].Ready? :: exists i :: 0 <= i < j && ls[i].Created?)
    && forall j | 0 <= j < |ls| && ls[j].Exec? :: exists i :: 0 <= i < j && ls[i].Ready?
  }

  ghost predicate AllPrintable(ls: seq<Line>) {
    forall i | 0 <= i < |ls| :: Printable(ls[i])
  }

  /** A line fits behind the others. */
  ghost predicate FitsBehind(ls: seq<Line>, l: Line) {
    && (forall i | 0 <= i < |ls| :: !SameKind(ls[i], l))
    && (l.Ready? ==> Printed(ls, |ls|, IsCreated)) && (l.Exec? ==> Printed(ls, |ls|, IsReady))
  }

  lemma OrderMore(ls: seq<Line>, l: Line)
    requires InLineOrder(ls)
    ensures InLineOrder(ls + [l]) <==> FitsBehind(ls, l)
  {
    var all := ls + [l];
    assert forall i | 0 <= i < |ls| :: all[i] == ls[i];
    assert all[|ls|] == l;
    if InLineOrder(all) {
      forall i | 0 <= i < |ls| ensures !SameKind(ls[i], l) { assert !SameKind(all[i], all[|ls|]); }
      if l.Ready? {
        var i :| 0 <= i < |ls| && all[i].Created?;
        assert IsCreated(ls[i]);
      }
      if l.Exec? {
        var i :| 0 <= i < |ls| && all[i].Ready?;
        assert IsReady(ls[i]);
      }
    }
    if FitsBehind(ls, l) {
      forall j | 0 <= j < |all| && all[j].Ready? ensures exists i :: 0 <= i < j && all[i].Created? {
        BehindCreated(ls, l, j);
      }
      forall j | 0 <= j < |all| && all[j].Exec? ensures exists i :: 0 <= i < j && all[i].Ready? {
        BehindReady(ls, l, j);
      }
    }
  }

  lemma BehindCreated(ls: seq<Line>, l: Line, j: nat)
    requires InLineOrder(ls) && FitsBehind(ls, l) && j <= |ls| && (ls + [l])[j].Ready?
    ensures exists i :: 0 <= i < j && (ls + [l])[i].Created?
  {
    var i :| 0 <= i < j && i < |ls| && IsCreated(ls[i]);
    assert (ls + [l])[i].Created?;
  }

  lemma BehindReady(ls: seq<Line>, l: Line, j: nat)
    requires InLineOrder(ls) && FitsBehind(ls, l) && j <= |ls| && (ls + [l])[j].Exec?
    ensures exists i :: 0 <= i < j && (ls + [l])[i].Ready?
  {
    var i :| 0 <= i < j && i < |ls| && IsReady(ls[i]);
    assert (ls + [l])[i].Ready?;
  }

  lemma OrderNext(ls: seq<Line>, r: Reader, l: Line)
    requires Printable(l) && KnowsExactly(ls, |ls|, r) && KnowsLaunch(ls, |ls|, r)
    ensures Accept(r, l).Some? <==> FitsBehind(ls, l)
  {
    match l
    case Created(_) => assert Printed(ls, |ls|, IsCreated) <==> exists i :: 0 <= i < |ls| && SameKind(ls[i], l);
    case Ready => assert Printed(ls, |ls|, IsReady) <==> exists i :: 0 <= i < |ls| && SameKind(ls[i], l);
    case Exec => assert Printed(ls, |ls|, IsExec) <==> exists i :: 0 <= i < |ls| && SameKind(ls[i], l);
    case Root(_) => assert Printed(ls, |ls|, IsRoot) <==> exists i :: 0 <= i < |ls| && SameKind(ls[i], l);
    case Error(_) => assert Printed(ls, |ls|, IsError) <==> exists i :: 0 <= i < |ls| && SameKind(ls[i], l);
    case Fault(_) => assert Printed(ls, |ls|, IsFault) <==> exists i :: 0 <= i < |ls| && SameKind(ls[i], l);
    case Tree => assert Printed(ls, |ls|, IsTree) <==> exists i :: 0 <= i < |ls| && SameKind(ls[i], l);
  }

  /** Lines are accepted exactly in this order. */
  lemma {:induction false} AcceptedIffInOrder(ls: seq<Line>)
    requires AllPrintable(ls)
    ensures AcceptAll(FRESH, ls).Some? <==> InLineOrder(ls)
    decreases |ls|
  {
    if ls != [] {
      var n := |ls| - 1;
      AcceptedIffInOrder(ls[..n]);
      assert ls == ls[..n] + [ls[n]];
      if AcceptAll(FRESH, ls[..n]).Some? {
        ReaderAfter(ls[..n]);
        OrderNext(ls[..n], AcceptAll(FRESH, ls[..n]).value, ls[n]);
        OrderMore(ls[..n], ls[n]);
      } else if InLineOrder(ls) {
        OrderOfPrefix(ls, n);
      }
    }
  }

  lemma ReaderAfter(ls: seq<Line>)
    requires AllPrintable(ls) && AcceptAll(FRESH, ls).Some?
    ensures KnowsExactly(ls, |ls|, AcceptAll(FRESH, ls).value) && KnowsLaunch(ls, |ls|, AcceptAll(FRESH, ls).value)
  {
    AcceptAllIsAcceptTo(ls, |ls|);
    assert ls[..|ls|] == ls;
    ReaderKnows(ls, |ls|);
    ReaderKnowsLaunch(ls, |ls|);
  }

  lemma OrderOfPrefix(ls: seq<Line>, n: nat)
    requires InLineOrder(ls) && n <= |ls|
    ensures InLineOrder(ls[..n])
  {
  }
}
