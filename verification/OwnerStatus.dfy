/** The status stream of the Linux ownership controller: the lines it prints and the
    reader thread that accepts them. */
module OwnerStatus {
  import opened Numbers
  import opened Schema

  datatype Line =
    | Created(number: int)
    | Ready
    | Exec
    | Root(number: int)
    | Error(number: int)
    | Fault(number: int)
    | Tree

  /** What the reader has learnt: its one-shot events and stored numbers. */
  datatype Reader = Reader(
    created: bool, ready: bool, executed: bool, root: bool, treeReaped: bool,
    namespaceId: int, rootCode: int, launchError: int, cleanupError: int)

  const FRESH := Reader(false, false, false, false, false, 0, 0, 0, 0)

  // ----- frames -----

  function Render(l: Line): string {
    match l
    case Created(n) => "CREATED " + Decimal(n)
    case Ready => "READY"
    case Exec => "EXEC"
    case Root(n) => "ROOT " + Decimal(n)
    case Error(n) => "ERROR " + Decimal(n)
    case Fault(n) => "FAULT " + Decimal(n)
    case Tree => "TREE"
  }

  predicate Printable(l: Line) {
    match l
    case Created(n) => 0 < n && IsInt32(n)
    case Root(n) => IsInt32(n)
    case Error(n) => 0 < n && IsInt32(n)
    case Fault(n) => 0 < n && IsInt32(n)
    case _ => true
  }

  function NumberAfter(value: string, word: string): Option<int> {
    if word <= value then TryParse(value[|word|..]) else None
  }

  /** What the tests on one frame find: numbers after a word, and whole words. */
  datatype Tests = Tests(
    created: Option<int>, ready: bool, exec: bool, root: Option<int>,
    error: Option<int>, fault: Option<int>, tree: bool)

  const NOTHING := Tests(None, false, false, None, None, None, false)

  function TestFrame(value: string): Tests {
    Tests(
      NumberAfter(value, "CREATED "), value == "READY", value == "EXEC", NumberAfter(value, "ROOT "),
      NumberAfter(value, "ERROR "), NumberAfter(value, "FAULT "), value == "TREE")
  }

  /** The reader's chain of conditions, in its order. */
  function DecideStart(r: Reader, t: Tests): Option<Reader> {
    if t.created.Some? && t.created.value > 0 && !r.created then
      Some(r.(namespaceId := t.created.value, created := true))
    else if t.ready && r.created && !r.ready then Some(r.(ready := true))
    else if t.exec && r.ready && !r.executed then Some(r.(executed := true))
    else None
  }

  function DecideEnd(r: Reader, t: Tests): Option<Reader> {
    if t.root.Some? && !r.root then Some(r.(rootCode := t.root.value, root := true))
    else if t.error.Some? && r.launchError == 0 then Some(r.(launchError := t.error.value))
    else if t.fault.Some? && t.fault.value > 0 && r.cleanupError == 0 then Some(r.(cleanupError := t.fault.value))
    else if t.tree && !r.treeReaped then Some(r.(treeReaped := true))
    else None
  }

  function Decide(r: Reader, t: Tests): Option<Reader> {
    var start := DecideStart(r, t);
    if start.Some? then start else DecideEnd(r, t)
  }

  function TakeFrame(r: Reader, value: string): Option<Reader> {
    Decide(r, TestFrame(value))
  }

  /** The order of lines the reader allows. */
  function Accept(r: Reader, l: Line): Option<Reader> {
    match l
    case Created(n) => if !r.created then Some(r.(namespaceId := n, created := true)) else None
    case Ready => if r.created && !r.ready then Some(r.(ready := true)) else None
    case Exec => if r.ready && !r.executed then Some(r.(executed := true)) else None
    case Root(n) => if !r.root then Some(r.(rootCode := n, root := true)) else None
    case Error(n) => if r.launchError == 0 then Some(r.(launchError := n)) else None
    case Fault(n) => if r.cleanupError == 0 then Some(r.(cleanupError := n)) else None
    case Tree => if !r.treeReaped then Some(r.(treeReaped := true)) else None
  }

  function AcceptAll(r: Reader, ls: seq<Line>): Option<Reader> {
    if ls == [] then Some(r)
    else
      var before := AcceptAll(r, ls[..|ls| - 1]);
      if before.Some? then Accept(before.value, ls[|ls| - 1]) else None
  }

  lemma {:induction false} NumberAfterWord(word: string, n: int)
    ensures NumberAfter(word + Decimal(n), word) == if IsInt32(n) then Some(n) else None
  {
    assert (word + Decimal(n))[|word|..] == Decimal(n);
    TryParseDecimal(n);
  }

  lemma Differs(value: string, word: string, other: string, i: nat)
    requires word <= value && i < |word| && i < |other| && word[i] != other[i]
    ensures NumberAfter(value, other) == None && value != other
  {
  }

  lemma TestsOfNumber(word: string, value: string)
    requires word in {"CREATED ", "ROOT ", "ERROR ", "FAULT "} && word <= value
    ensures var n := NumberAfter(value, word);
            TestFrame(value) == match word[0]
              case 'C' => NOTHING.(created := n)
              case 'R' => NOTHING.(root := n)
              case 'E' => NOTHING.(error := n)
              case _ => NOTHING.(fault := n)
  {
    if word[0] != 'C' { Differs(value, word, "CREATED ", 0); }
    Differs(value, word, "READY", if word[0] == 'R' then 1 else 0);
    Differs(value, word, "EXEC", if word[0] == 'E' then 1 else 0);
    if word[0] != 'R' { Differs(value, word, "ROOT ", 0); }
    if word[0] != 'E' { Differs(value, word, "ERROR ", 0); }
    if word[0] != 'F' { Differs(value, word, "FAULT ", 0); }
    Differs(value, word, "TREE", 0);
  }

  lemma TestsOfReady()
    ensures TestFrame("READY") == NOTHING.(ready := true)
  {
    Differs("READY", "READY", "CREATED ", 0);
    Differs("READY", "READY", "ROOT ", 1);
    Differs("READY", "READY", "ERROR ", 0);
    Differs("READY", "READY", "FAULT ", 0);
  }

  lemma TestsOfExec()
    ensures TestFrame("EXEC") == NOTHING.(exec := true)
  {
    Differs("EXEC", "EXEC", "CREATED ", 0);
    Differs("EXEC", "EXEC", "ROOT ", 0);
    Differs("EXEC", "EXEC", "ERROR ", 1);
    Differs("EXEC", "EXEC", "FAULT ", 0);
  }

  lemma TestsOfTree()
    ensures TestFrame("TREE") == NOTHING.(tree := true)
  {
    Differs("TREE", "TREE", "CREATED ", 0);
    Differs("TREE", "TREE", "ROOT ", 0);
    Differs("TREE", "TREE", "ERROR ", 0);
    Differs("TREE", "TREE", "FAULT ", 0);
  }

  /** On printed lines the string comparisons decide exactly the line order. */
  lemma TakeRendered(r: Reader, l: Line)
    requires Printable(l)
    ensures TakeFrame(r, Render(l)) == Accept(r, l)
  {
    match l
    case Created(n) => NumberAfterWord("CREATED ", n); TestsOfNumber("CREATED ", Render(l));
    case Root(n) => NumberAfterWord("ROOT ", n); TestsOfNumber("ROOT ", Render(l));
    case Error(n) => NumberAfterWord("ERROR ", n); TestsOfNumber("ERROR ", Render(l));
    case Fault(n) => NumberAfterWord("FAULT ", n); TestsOfNumber("FAULT ", Render(l));
    case Ready => TestsOfReady();
    case Exec => TestsOfExec();
    case Tree => TestsOfTree();
  }

  // ----- characters -----

  /** The reader thread: the frame being collected, what is known, and whether it gave up. */
  datatype Scan = Scan(line: string, reader: Reader, failed: bool)

  const FRAME_LIMIT := 80

  function Feed(s: Scan, c: char): Scan {
    if s.failed then s
    else if c != '\n' then
      if |s.line| == FRAME_LIMIT then s.(failed := true) else s.(line := s.line + [c])
    else
      var r := TakeFrame(s.reader, s.line);
      if r.Some? then Scan([], r.value, false) else Scan([], s.reader, true)
  }

  function FeedAll(s: Scan, text: string): Scan {
    if text == [] then s else Feed(FeedAll(s, text[..|text| - 1]), text[|text| - 1])
  }

  /** At the end of the stream an unfinished frame is an error. */
  function AtEnd(s: Scan): Scan {
    if s.line != [] then s.(failed := true) else s
  }

  function StreamOf(ls: seq<Line>): string {
    if ls == [] then [] else StreamOf(ls[..|ls| - 1]) + Render(ls[|ls| - 1]) + "\n"
  }

  lemma {:induction false} FeedConcat(s: Scan, a: string, b: string)
    ensures FeedAll(s, a + b) == FeedAll(FeedAll(s, a), b)
    decreases |b|
  {
    if b == [] {
      assert a + b == a;
    } else {
      FeedConcat(s, a, b[..|b| - 1]);
      assert (a + b)[..|a + b| - 1] == a + b[..|b| - 1];
    }
  }

  lemma {:induction false} FeedPlain(s: Scan, t: string)
    requires !s.failed && |s.line| + |t| <= FRAME_LIMIT && forall i | 0 <= i < |t| :: t[i] != '\n'
    ensures FeedAll(s, t) == s.(line := s.line + t)
    decreases |t|
  {
    if t == [] {
      assert s.line + t == s.line;
    } else {
      FeedPlain(s, t[..|t| - 1]);
      assert s.line + t == s.line + t[..|t| - 1] + [t[|t| - 1]];
    }
  }

  lemma DecimalShort(n: int)
    requires IsInt32(n)
    ensures |Decimal(n)| <= 11
  {
    assert Power(10) == 10000000000;
    DigitsLength(if n < 0 then -n else n, 10, 10000000000);
  }

  lemma RenderFits(l: Line)
    requires Printable(l)
    ensures |Render(l)| <= FRAME_LIMIT && forall i | 0 <= i < |Render(l)| :: Render(l)[i] != '\n'
  {
    if !l.Ready? && !l.Exec? && !l.Tree? { DecimalShort(l.number); }
  }

  /** The reader thread and the line order agree. */
  predicate Agrees(s: Scan, r: Option<Reader>) {
    if r.Some? then s == Scan([], r.value, false) else s.failed && s.line == []
  }

  /** Every stream of printed lines is framed and understood: the reader thread ends in
      the state the line order gives, and it fails exactly when the order does. */
  lemma {:induction false} StreamIsUnderstood(ls: seq<Line>)
    requires forall i | 0 <= i < |ls| :: Printable(ls[i])
    ensures Agrees(FeedAll(Scan([], FRESH, false), StreamOf(ls)), AcceptAll(FRESH, ls))
    decreases |ls|
  {
    if ls != [] {
      var init, last := ls[..|ls| - 1], ls[|ls| - 1];
      StreamIsUnderstood(init);
      var start := Scan([], FRESH, false);
      FeedConcat(start, StreamOf(init), Render(last) + "\n");
      assert StreamOf(ls) == StreamOf(init) + (Render(last) + "\n");
      NextLine(FeedAll(start, StreamOf(init)), AcceptAll(FRESH, init), last);
    }
  }

  lemma NextLine(s: Scan, r: Option<Reader>, l: Line)
    requires Agrees(s, r) && Printable(l)
    ensures Agrees(FeedAll(s, Render(l) + "\n"), if r.Some? then Accept(r.value, l) else None)
  {
    if r.Some? {
      FeedLine(s, l);
    } else {
      Stuck(s, Render(l) + "\n");
    }
  }

  lemma {:induction false} Stuck(s: Scan, t: string)
    requires s.failed
    ensures FeedAll(s, t) == s
    decreases |t|
  {
    if t != [] { Stuck(s, t[..|t| - 1]); }
  }

  lemma FeedLine(s: Scan, l: Line)
    requires !s.failed && s.line == [] && Printable(l)
    ensures var r := Accept(s.reader, l);
            FeedAll(s, Render(l) + "\n") == if r.Some? then Scan([], r.value, false) else Scan([], s.reader, true)
  {
    RenderFits(l);
    FeedPlain(s, Render(l));
    assert s.line + Render(l) == Render(l);
    TakeRendered(s.reader, l);
    var t := Render(l) + "\n";
    assert t[..|t| - 1] == Render(l);
  }

  /** The reader thread. */
  class StatusReader {
    var created: bool
    var ready: bool
    var executed: bool
    var root: bool
    var treeReaped: bool
    var readerFailed: bool
    var stopRequested: bool
    var ended: bool
    var namespaceId: int
    var rootCode: int
    var launchError: int
    var cleanupError: int

    function Known(): Reader
      reads this
    {
      Reader(created, ready, executed, root, treeReaped, namespaceId, rootCode, launchError, cleanupError)
    }

    constructor ()
      ensures Known() == FRESH && !readerFailed && !stopRequested && !ended
    {
      created, ready, executed, root, treeReaped := false, false, false, false, false;
      readerFailed, stopRequested, ended := false, false, false;
      namespaceId, rootCode, launchError, cleanupError := 0, 0, 0, 0;
    }

    /** One frame; false when the reader throws. */
    method Frame(value: string) returns (ok: bool)
      modifies this`namespaceId, this`created, this`ready, this`executed, this`rootCode, this`root
      modifies this`launchError, this`cleanupError, this`treeReaped
      ensures var r := TakeFrame(old(Known()), value);
              ok == r.Some? && Known() == (if ok then r.value else old(Known()))
    {
      var t := TestFrame(value);
      ok := FrameOfStart(t);
      if !ok { ok := FrameOfEnd(t); }
    }

    method FrameOfStart(t: Tests) returns (ok: bool)
      modifies this`namespaceId, this`created, this`ready, this`executed
      ensures var r := DecideStart(old(Known()), t);
              ok == r.Some? && Known() == (if ok then r.value else old(Known()))
    {
      ok := true;
      if t.created.Some? && t.created.value > 0 && !created {
        namespaceId := t.created.value;
        created := true;
      } else if t.ready && created && !ready {
        ready := true;
      } else if t.exec && ready && !executed {
        executed := true;
      } else {
        ok := false;
      }
    }

    method FrameOfEnd(t: Tests) returns (ok: bool)
      modifies this`rootCode, this`root, this`launchError, this`cleanupError, this`treeReaped
      ensures var r := DecideEnd(old(Known()), t);
              ok == r.Some? && Known() == (if ok then r.value else old(Known()))
    {
      ok := true;
      if t.root.Some? && !root {
        rootCode := t.root.value;
        root := true;
      } else if t.error.Some? && launchError == 0 {
        launchError := t.error.value;
      } else if t.fault.Some? && t.fault.value > 0 && cleanupError == 0 {
        cleanupError := t.fault.value;
      } else if t.tree && !treeReaped {
        treeReaped := true;
      } else {
        ok := false;
      }
    }

    /** The whole stream up to its end. */
    method ReadStatus(stream: string)
      requires !readerFailed && !stopRequested
      modifies this
      ensures var end := AtEnd(FeedAll(Scan([], old(Known()), false), stream));
              Known() == end.reader && readerFailed == end.failed
      ensures stopRequested == readerFailed && ended
    {
      var line := [];
      ghost var start := Scan([], Known(), false);
      for i := 0 to |stream|
        invariant !readerFailed && !stopRequested
        invariant FeedAll(start, stream[..i]) == Scan(line, Known(), false)
      {
        assert stream[..i + 1][..i] == stream[..i];
        ghost var next := Feed(Scan(line, Known(), false), stream[i]);
        assert FeedAll(start, stream[..i + 1]) == next;
        assert stream == stream[..i + 1] + stream[i + 1..];
        if stream[i] != '\n' {
          if |line| == FRAME_LIMIT {
            FeedConcat(start, stream[..i + 1], stream[i + 1..]);
            Stuck(next, stream[i + 1..]);
            readerFailed, stopRequested, ended := true, true, true;
            return;
          }
          line := line + [stream[i]];
        } else {
          var value := line;
          line := [];
          var ok := Frame(value);
          if !ok {
            FeedConcat(start, stream[..i + 1], stream[i + 1..]);
            Stuck(next, stream[i + 1..]);
            readerFailed, stopRequested, ended := true, true, true;
            return;
          }
        }
      }
      assert stream[..|stream|] == stream;
      if line != [] { readerFailed, stopRequested := true, true; }
      ended := true;
    }

    /** What WaitForEmpty answers once the controller has exited and both readers are joined. */
    method Empty() returns (r: bool)
      ensures r <==> Known().treeReaped && !readerFailed && Known().cleanupError == 0
    {
      r := treeReaped && !readerFailed && cleanupError == 0;
    }
  }
}
