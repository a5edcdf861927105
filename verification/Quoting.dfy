/** Windows command lines: the printer of the retained-test runner against the argv
    rules of the Microsoft C runtime. */
module Quoting {
  import opened Schema

  const BACKSLASH := '\\'
  const QUOTE := '\"'
  const VERTICAL_TAB := 11 as char

  // ----- the printer -----

  function Repeat(c: char, n: nat): (r: string)
    ensures |r| == n && forall i | 0 <= i < n :: r[i] == c
  {
    if n == 0 then [] else [c] + Repeat(c, n - 1)
  }

  predicate IsSpecial(c: char) {
    c == ' ' || c == '\t' || c == '\n' || c == VERTICAL_TAB || c == QUOTE
  }

  predicate NeedsQuotes(s: string) {
    s == [] || exists i :: 0 <= i < |s| && IsSpecial(s[i])
  }

  /** The inside of a quoted argument when `n` backslashes are waiting to be written. */
  function Escape(s: string, n: nat): string {
    if s == [] then Repeat(BACKSLASH, 2 * n)
    else if s[0] == BACKSLASH then Escape(s[1..], n + 1)
    else if s[0] == QUOTE then Repeat(BACKSLASH, 2 * n + 1) + [QUOTE] + Escape(s[1..], 0)
    else Repeat(BACKSLASH, n) + [s[0]] + Escape(s[1..], 0)
  }

  function Quoted(s: string): string {
    if NeedsQuotes(s) then [QUOTE] + Escape(s, 0) + [QUOTE] else s
  }

  method QuoteArgument(argument: string) returns (r: string)
    ensures r == Quoted(argument)
  {
    var special := false;
    for i := 0 to |argument|
      invariant special <==> exists j :: 0 <= j < i && IsSpecial(argument[j])
    {
      if IsSpecial(argument[i]) { special := true; }
    }
    if |argument| != 0 && !special { return argument; }
    var result := [QUOTE];
    var backslashes := 0;
    assert argument[0..] == argument;
    for i := 0 to |argument|
      invariant [QUOTE] + Escape(argument, 0) == result + Escape(argument[i..], backslashes)
    {
      assert argument[i..][1..] == argument[i + 1..];
      if argument[i] == BACKSLASH {
        backslashes := backslashes + 1;
      } else if argument[i] == QUOTE {
        result := result + Repeat(BACKSLASH, backslashes * 2 + 1);
        result := result + [QUOTE];
        backslashes := 0;
      } else {
        result := result + Repeat(BACKSLASH, backslashes);
        result := result + [argument[i]];
        backslashes := 0;
      }
    }
    result := result + Repeat(BACKSLASH, backslashes * 2);
    return result + [QUOTE];
  }

  /** A null argument is printed as an empty one. */
  function OrEmpty(a: Option<string>): string {
    if a.Some? then a.value else []
  }

  function Arguments(args: seq<Option<string>>): string {
    if args == [] then [] else [' '] + Quoted(OrEmpty(args[0])) + Arguments(args[1..])
  }

  method BuildCommandLine(executable: string, arguments: seq<Option<string>>) returns (r: string)
    ensures r == Quoted(executable) + Arguments(arguments)
  {
    r := QuoteArgument(executable);
    assert arguments[0..] == arguments;
    for i := 0 to |arguments|
      invariant Quoted(executable) + Arguments(arguments) == r + Arguments(arguments[i..])
    {
      assert arguments[i..][1..] == arguments[i + 1..];
      r := r + [' '];
      var quoted := QuoteArgument(OrEmpty(arguments[i]));
      r := r + quoted;
    }
  }

  // ----- the parser -----

  /** How a parser treats "" inside a quoted part: as the end of the part, as a quote
      that stays in it, or as a quote that ends it. Runtimes differ. */
  datatype DoubleQuote = EndsPart | QuoteInside | QuoteAndEnd

  predicate IsBlank(c: char) {
    c == ' ' || c == '\t'
  }

  /** One argument, with `n` backslashes read but not yet interpreted: the argument
      and what follows it. */
  function ParseArgument(s: string, inQuotes: bool, n: nat, rule: DoubleQuote): (r: (string, string))
    ensures |r.1| <= |s|
    ensures s != [] && (inQuotes || !IsBlank(s[0])) ==> |r.1| < |s|
    decreases |s|
  {
    if s == [] then (Repeat(BACKSLASH, n), [])
    else if s[0] == BACKSLASH then ParseArgument(s[1..], inQuotes, n + 1, rule)
    else if s[0] == QUOTE then
      if n % 2 == 1 then
        var r := ParseArgument(s[1..], inQuotes, 0, rule);
        (Repeat(BACKSLASH, n / 2) + [QUOTE] + r.0, r.1)
      else if inQuotes && rule != EndsPart && |s| > 1 && s[1] == QUOTE then
        var r := ParseArgument(s[2..], rule == QuoteInside, 0, rule);
        (Repeat(BACKSLASH, n / 2) + [QUOTE] + r.0, r.1)
      else
        var r := ParseArgument(s[1..], !inQuotes, 0, rule);
        (Repeat(BACKSLASH, n / 2) + r.0, r.1)
    else if IsBlank(s[0]) && !inQuotes then (Repeat(BACKSLASH, n), s)
    else
      var r := ParseArgument(s[1..], inQuotes, 0, rule);
      (Repeat(BACKSLASH, n) + [s[0]] + r.0, r.1)
  }

  /** All arguments after the program name. */
  function ParseArguments(s: string, rule: DoubleQuote): seq<string>
    decreases |s|
  {
    if s == [] then []
    else if IsBlank(s[0]) then ParseArguments(s[1..], rule)
    else
      var r := ParseArgument(s, false, 0, rule);
      [r.0] + ParseArguments(r.1, rule)
  }

  /** The program name: quotes group, backslashes mean nothing. */
  function ParseName(s: string, inQuotes: bool): (r: (string, string))
    decreases |s|
  {
    if s == [] then ([], [])
    else if s[0] == QUOTE then ParseName(s[1..], !inQuotes)
    else if IsBlank(s[0]) && !inQuotes then ([], s)
    else var r := ParseName(s[1..], inQuotes); ([s[0]] + r.0, r.1)
  }

  /** A command line as the program it starts sees it. */
  function ParseCommandLine(s: string, rule: DoubleQuote): (string, seq<string>) {
    var r := ParseName(s, false);
    (r.0, ParseArguments(r.1, rule))
  }

  // ----- the round trip -----

  lemma {:induction false} RepeatSplit(c: char, m: nat, n: nat)
    ensures Repeat(c, m) + Repeat(c, n) == Repeat(c, m + n)
  {
  }

  lemma RepeatCons(n: nat, s: string)
    requires s != []
    ensures Repeat(BACKSLASH, n) + [s[0]] + s[1..] == Repeat(BACKSLASH, n) + s
    ensures Repeat(BACKSLASH, n) + [s[0]] + (Repeat(BACKSLASH, 0) + s[1..]) == Repeat(BACKSLASH, n) + s
    ensures s[0] == BACKSLASH ==> Repeat(BACKSLASH, n + 1) + s[1..] == Repeat(BACKSLASH, n) + s
  {
    RepeatSplit(BACKSLASH, n, 1);
    assert [s[0]] + s[1..] == s;
  }

  /** Backslashes only accumulate. */
  lemma {:induction false} ReadBackslashes(k: nat, s: string, inQuotes: bool, n: nat, rule: DoubleQuote)
    ensures ParseArgument(Repeat(BACKSLASH, k) + s, inQuotes, n, rule) == ParseArgument(s, inQuotes, n + k, rule)
    decreases k
  {
    if k == 0 {
      assert Repeat(BACKSLASH, k) + s == s;
    } else {
      ReadBackslashes(k - 1, s, inQuotes, n + 1, rule);
      assert (Repeat(BACKSLASH, k) + s)[1..] == Repeat(BACKSLASH, k - 1) + s;
    }
  }

  /** What may follow an argument: nothing or a blank. */
  predicate EndsArgument(rest: string) {
    rest == [] || IsBlank(rest[0])
  }

  lemma AfterArgument(rest: string, rule: DoubleQuote)
    requires EndsArgument(rest)
    ensures ParseArgument(rest, false, 0, rule) == ([], rest)
  {
  }

  /** Reading back the inside of a quoted argument and its closing quote. */
  lemma {:induction false} ReadEscaped(s: string, n: nat, rest: string, rule: DoubleQuote)
    requires EndsArgument(rest)
    ensures ParseArgument(Escape(s, n) + ([QUOTE] + rest), true, 0, rule) == (Repeat(BACKSLASH, n) + s, rest)
    decreases |s|
  {
    if s == [] {
      ReadClosing(n, rest, rule);
    } else if s[0] == BACKSLASH {
      ReadEscaped(s[1..], n + 1, rest, rule);
      RepeatCons(n, s);
    } else {
      ReadEscaped(s[1..], 0, rest, rule);
      EscapeStep(s, n, [QUOTE] + rest);
      ReadOrdinary(s[0], n, Escape(s[1..], 0) + ([QUOTE] + rest), rule);
      RepeatCons(n, s);
    }
  }

  lemma EscapeStep(s: string, n: nat, after: string)
    requires s != [] && s[0] != BACKSLASH
    ensures var k := if s[0] == QUOTE then 2 * n + 1 else n;
            Escape(s, n) + after == Repeat(BACKSLASH, k) + ([s[0]] + (Escape(s[1..], 0) + after))
  {
  }

  lemma ReadClosing(n: nat, rest: string, rule: DoubleQuote)
    requires EndsArgument(rest)
    ensures ParseArgument(Repeat(BACKSLASH, 2 * n) + ([QUOTE] + rest), true, 0, rule) == (Repeat(BACKSLASH, n) + [], rest)
  {
    var after := [QUOTE] + rest;
    ReadBackslashes(2 * n, after, true, 0, rule);
    assert after[1..] == rest;
    AfterArgument(rest, rule);
  }

  /** A character that is not a backslash, with the backslashes written before it. */
  lemma ReadOrdinary(c: char, n: nat, tail: string, rule: DoubleQuote)
    requires c != BACKSLASH
    ensures var k := if c == QUOTE then 2 * n + 1 else n;
            var r := ParseArgument(tail, true, 0, rule);
            ParseArgument(Repeat(BACKSLASH, k) + ([c] + tail), true, 0, rule) == (Repeat(BACKSLASH, n) + [c] + r.0, r.1)
  {
    ReadBackslashes(if c == QUOTE then 2 * n + 1 else n, [c] + tail, true, 0, rule);
    assert ([c] + tail)[1..] == tail;
  }

  /** An argument printed without quotes is read as it stands. */
  lemma {:induction false} ReadPlain(s: string, n: nat, rest: string, rule: DoubleQuote)
    requires EndsArgument(rest) && forall i | 0 <= i < |s| :: !IsSpecial(s[i])
    ensures ParseArgument(s + rest, false, n, rule) == (Repeat(BACKSLASH, n) + s, rest)
    decreases |s|
  {
    if s == [] {
      assert s + rest == rest && Repeat(BACKSLASH, n) + s == Repeat(BACKSLASH, n);
    } else {
      assert (s + rest)[1..] == s[1..] + rest;
      if s[0] == BACKSLASH {
        ReadPlain(s[1..], n + 1, rest, rule);
        RepeatCons(n, s);
      } else {
        ReadPlain(s[1..], 0, rest, rule);
        RepeatCons(n, s);
      }
    }
  }

  lemma ReadQuoted(a: string, rest: string, rule: DoubleQuote)
    requires EndsArgument(rest)
    ensures ParseArgument(Quoted(a) + rest, false, 0, rule) == (a, rest)
  {
    if NeedsQuotes(a) {
      var inside := Escape(a, 0) + ([QUOTE] + rest);
      assert (Quoted(a) + rest)[1..] == inside;
      ReadEscaped(a, 0, rest, rule);
      assert Repeat(BACKSLASH, 0) + a == a && Repeat(BACKSLASH, 0) + (Repeat(BACKSLASH, 0) + a) == a;
    } else {
      ReadPlain(a, 0, rest, rule);
      assert Repeat(BACKSLASH, 0) + a == a;
    }
  }

  function Values(args: seq<Option<string>>): (r: seq<string>)
    ensures |r| == |args| && forall i | 0 <= i < |args| :: r[i] == OrEmpty(args[i])
  {
    seq(|args|, i requires 0 <= i < |args| => OrEmpty(args[i]))
  }

  lemma QuotedNotBlank(a: string, rest: string)
    ensures Quoted(a) + rest != [] && !IsBlank((Quoted(a) + rest)[0])
  {
  }

  lemma ReadNext(a: string, rest: string, rule: DoubleQuote)
    requires EndsArgument(rest)
    ensures ParseArguments([' '] + (Quoted(a) + rest), rule) == [a] + ParseArguments(rest, rule)
  {
    var s := Quoted(a) + rest;
    assert ([' '] + s)[1..] == s;
    QuotedNotBlank(a, rest);
    ReadQuoted(a, rest, rule);
    assert ParseArguments(s, rule) == [a] + ParseArguments(rest, rule);
  }

  /** Every argument list comes back, whichever way the parser treats "". */
  lemma {:induction false} ArgumentsRoundTrip(args: seq<Option<string>>, rule: DoubleQuote)
    ensures ParseArguments(Arguments(args), rule) == Values(args)
    decreases |args|
  {
    if args != [] {
      var a, rest := OrEmpty(args[0]), Arguments(args[1..]);
      ArgumentsRoundTrip(args[1..], rule);
      assert Arguments(args) == [' '] + (Quoted(a) + rest);
      ReadNext(a, rest, rule);
      assert Values(args) == [a] + Values(args[1..]);
    }
  }

  predicate QuoteFree(s: string) {
    forall i | 0 <= i < |s| :: s[i] != QUOTE
  }

  lemma {:induction false} NameInside(s: string, inQuotes: bool, rest: string)
    requires QuoteFree(s) && (inQuotes || forall i | 0 <= i < |s| :: !IsBlank(s[i]))
    ensures ParseName(s + rest, inQuotes) == (s + ParseName(rest, inQuotes).0, ParseName(rest, inQuotes).1)
    decreases |s|
  {
    if s == [] {
      assert s + rest == rest;
      assert s + ParseName(rest, inQuotes).0 == ParseName(rest, inQuotes).0;
    } else {
      assert (s + rest)[1..] == s[1..] + rest;
      NameInside(s[1..], inQuotes, rest);
      var name := ParseName(rest, inQuotes).0;
      assert [s[0]] + (s[1..] + name) == s + name;
    }
  }

  lemma {:induction false} EscapeQuoteFree(s: string, n: nat)
    requires QuoteFree(s)
    ensures QuoteFree(Escape(s, n))
    decreases |s|
  {
    if s != [] { EscapeQuoteFree(s[1..], if s[0] == BACKSLASH then n + 1 else 0); }
  }

  predicate EndsInBackslash(s: string) {
    s != [] && s[|s| - 1] == BACKSLASH
  }

  /** Without quotes inside, only a trailing run of backslashes is changed: doubled. */
  lemma {:induction false} EscapeDoubles(s: string, n: nat)
    requires QuoteFree(s)
    ensures Escape(s, n) == Repeat(BACKSLASH, n) + s + Repeat(BACKSLASH, Trailing(s, n))
    decreases |s|
  {
    if s == [] {
      RepeatSplit(BACKSLASH, n, n);
      assert Repeat(BACKSLASH, n) + s == Repeat(BACKSLASH, n);
    } else if s[0] == BACKSLASH {
      EscapeDoubles(s[1..], n + 1);
      RepeatCons(n, s);
    } else {
      EscapeDoubles(s[1..], 0);
      RepeatCons(n, s);
    }
  }

  /** Length of the backslash run at the end of `s`, when `n` more stand before `s`. */
  function Trailing(s: string, n: nat): (r: nat)
    ensures s != [] ==> (r == 0 <==> !EndsInBackslash(s))
  {
    if s == [] then n else Trailing(s[1..], if s[0] == BACKSLASH then n + 1 else 0)
  }

  /** For an executable without quotes, as every Windows path is, the arguments come back
      exactly; the executable itself does so unless it is printed in quotes and ends in a
      backslash, which the printer doubles and the program-name rule does not undo. */
  lemma CommandLineRoundTrip(executable: string, args: seq<Option<string>>, rule: DoubleQuote)
    requires QuoteFree(executable)
    ensures ParseCommandLine(Quoted(executable) + Arguments(args), rule).1 == Values(args)
    ensures ParseCommandLine(Quoted(executable) + Arguments(args), rule).0 == executable
      <==> !(NeedsQuotes(executable) && EndsInBackslash(executable))
  {
    var rest := Arguments(args);
    ReadName(executable, rest);
    if NeedsQuotes(executable) { EscapeDoubles(executable, 0); }
    assert Repeat(BACKSLASH, 0) + executable == executable;
    ArgumentsRoundTrip(args, rule);
  }

  lemma ReadName(executable: string, rest: string)
    requires QuoteFree(executable) && EndsArgument(rest)
    ensures var inside := if NeedsQuotes(executable) then Escape(executable, 0) else executable;
            ParseName(Quoted(executable) + rest, false) == (inside, rest)
  {
    assert ParseName(rest, false) == ([], rest);
    if NeedsQuotes(executable) {
      EscapeQuoteFree(executable, 0);
      ReadQuotedName(Escape(executable, 0), rest);
      assert Quoted(executable) + rest == [QUOTE] + Escape(executable, 0) + ([QUOTE] + rest);
    } else {
      NameInside(executable, false, rest);
      assert executable + [] == executable;
    }
  }

  lemma ReadQuotedName(inside: string, rest: string)
    requires QuoteFree(inside) && EndsArgument(rest)
    ensures ParseName([QUOTE] + inside + ([QUOTE] + rest), false) == (inside, rest)
  {
    var after := [QUOTE] + rest;
    assert ([QUOTE] + inside + after)[1..] == inside + after;
    assert after[1..] == rest;
    assert ParseName(rest, false) == ([], rest);
    assert ParseName(after, true) == ([], rest);
    NameInside(inside, true, after);
    assert inside + [] == inside;
  }

  // ----- any executable -----

  /** The program-name rule passes over all of `s`: no blank stands outside quotes. */
  predicate Grouped(s: string, inQuotes: bool) {
    s == []
    || (if s[0] == QUOTE then Grouped(s[1..], !inQuotes)
        else (inQuotes || !IsBlank(s[0])) && Grouped(s[1..], inQuotes))
  }

  /** Whether a quoted part is open behind `s`. */
  predicate OpenAfter(s: string, inQuotes: bool) {
    if s == [] then inQuotes else OpenAfter(s[1..], if s[0] == QUOTE then !inQuotes else inQuotes)
  }

  function WithoutQuotes(s: string): string {
    if s == [] then [] else (if s[0] == QUOTE then [] else [s[0]]) + WithoutQuotes(s[1..])
  }

  lemma {:induction false} GroupedConcat(a: string, b: string, inQuotes: bool)
    ensures Grouped(a + b, inQuotes) <==> Grouped(a, inQuotes) && Grouped(b, OpenAfter(a, inQuotes))
    ensures OpenAfter(a + b, inQuotes) == OpenAfter(b, OpenAfter(a, inQuotes))
    decreases |a|
  {
    if a == [] {
      assert a + b == b;
    } else {
      assert (a + b)[1..] == a[1..] + b;
      GroupedConcat(a[1..], b, if a[0] == QUOTE then !inQuotes else inQuotes);
    }
  }

  lemma {:induction false} BackslashesGrouped(n: nat, inQuotes: bool)
    ensures Grouped(Repeat(BACKSLASH, n), inQuotes) && OpenAfter(Repeat(BACKSLASH, n), inQuotes) == inQuotes
  {
    if n > 0 {
      assert Repeat(BACKSLASH, n)[1..] == Repeat(BACKSLASH, n - 1);
      BackslashesGrouped(n - 1, inQuotes);
    }
  }

  /** A character with backslashes before it, and the rest. */
  lemma GroupedStep(k: nat, c: char, rest: string, inQuotes: bool)
    requires c != BACKSLASH
    ensures var open := if c == QUOTE then !inQuotes else inQuotes;
            var s := Repeat(BACKSLASH, k) + ([c] + rest);
            && (Grouped(s, inQuotes) <==> (c == QUOTE || inQuotes || !IsBlank(c)) && Grouped(rest, open))
            && OpenAfter(s, inQuotes) == OpenAfter(rest, open)
  {
    BackslashesGrouped(k, inQuotes);
    GroupedConcat(Repeat(BACKSLASH, k), [c] + rest, inQuotes);
    assert ([c] + rest)[1..] == rest;
  }

  /** The printer only adds backslashes, which the program-name rule does not heed. */
  lemma {:induction false} EscapeGrouped(s: string, n: nat, inQuotes: bool)
    ensures Grouped(Escape(s, n), inQuotes) <==> Grouped(s, inQuotes)
    ensures OpenAfter(Escape(s, n), inQuotes) == OpenAfter(s, inQuotes)
    decreases |s|
  {
    if s == [] {
      BackslashesGrouped(2 * n, inQuotes);
    } else if s[0] == BACKSLASH {
      EscapeGrouped(s[1..], n + 1, inQuotes);
    } else {
      EscapeGrouped(s[1..], 0, if s[0] == QUOTE then !inQuotes else inQuotes);
      EscapeStep(s, n, []);
      var k := if s[0] == QUOTE then 2 * n + 1 else n;
      assert Escape(s, n) + [] == Escape(s, n) && Escape(s[1..], 0) + [] == Escape(s[1..], 0);
      GroupedStep(k, s[0], Escape(s[1..], 0), inQuotes);
    }
  }

  lemma {:induction false} NameOver(s: string, inQuotes: bool, rest: string)
    requires Grouped(s, inQuotes)
    ensures var r := ParseName(rest, OpenAfter(s, inQuotes));
            ParseName(s + rest, inQuotes) == (WithoutQuotes(s) + r.0, r.1)
    decreases |s|
  {
    var r := ParseName(rest, OpenAfter(s, inQuotes));
    if s == [] {
      assert s + rest == rest && WithoutQuotes(s) + r.0 == r.0;
    } else {
      assert (s + rest)[1..] == s[1..] + rest;
      NameOver(s[1..], if s[0] == QUOTE then !inQuotes else inQuotes, rest);
      if s[0] == QUOTE {
        assert WithoutQuotes(s) == WithoutQuotes(s[1..]);
      } else {
        assert [s[0]] + (WithoutQuotes(s[1..]) + r.0) == WithoutQuotes(s) + r.0;
      }
    }
  }

  /** The name ends inside `s`, at a blank. */
  lemma {:induction false} NameStopsIn(s: string, inQuotes: bool, rest: string)
    requires !Grouped(s, inQuotes)
    ensures |ParseName(s + rest, inQuotes).1| > |rest|
    decreases |s|
  {
    assert (s + rest)[1..] == s[1..] + rest;
    if s[0] == QUOTE {
      NameStopsIn(s[1..], !inQuotes, rest);
    } else if inQuotes || !IsBlank(s[0]) {
      NameStopsIn(s[1..], inQuotes, rest);
    }
  }

  /** Its quotes are paired, counting the two the printer adds, and no blank stands outside the pairs. */
  predicate Sealed(executable: string) {
    NeedsQuotes(executable) ==> Grouped(executable, true) && OpenAfter(executable, true)
  }

  lemma QuotedGrouped(inside: string)
    ensures Grouped([QUOTE] + (inside + [QUOTE]), false) <==> Grouped(inside, true)
    ensures OpenAfter([QUOTE] + (inside + [QUOTE]), false) <==> !OpenAfter(inside, true)
  {
    GroupedConcat(inside, [QUOTE], true);
    assert ([QUOTE] + (inside + [QUOTE]))[1..] == inside + [QUOTE];
    assert [QUOTE][1..] == [];
  }

  lemma PrintedGrouped(executable: string)
    ensures var s := Quoted(executable);
            && (Grouped(s, false) <==> NeedsQuotes(executable) ==> Grouped(executable, true))
            && (OpenAfter(s, false) <==> NeedsQuotes(executable) && !OpenAfter(executable, true))
  {
    if NeedsQuotes(executable) {
      var inside := Escape(executable, 0);
      EscapeGrouped(executable, 0, true);
      QuotedGrouped(inside);
      assert Quoted(executable) == [QUOTE] + (inside + [QUOTE]);
    } else {
      PlainGrouped(executable);
    }
  }

  lemma {:induction false} PlainGrouped(s: string)
    requires forall i | 0 <= i < |s| :: !IsSpecial(s[i])
    ensures Grouped(s, false) && !OpenAfter(s, false)
    decreases |s|
  {
    if s != [] { PlainGrouped(s[1..]); }
  }

  /** The arguments come back behind every sealed executable. */
  lemma SealedRoundTrip(executable: string, args: seq<Option<string>>, rule: DoubleQuote)
    requires Sealed(executable)
    ensures ParseCommandLine(Quoted(executable) + Arguments(args), rule)
      == (WithoutQuotes(Quoted(executable)), Values(args))
  {
    var rest := Arguments(args);
    PrintedGrouped(executable);
    NameOver(Quoted(executable), false, rest);
    assert EndsArgument(rest) && ParseName(rest, false) == ([], rest);
    ArgumentsRoundTrip(args, rule);
    assert WithoutQuotes(Quoted(executable)) + [] == WithoutQuotes(Quoted(executable));
  }

  /** The name ends at the right place exactly for sealed executables, if there are arguments: an
      unpaired quote makes it go on into them, and a blank outside the pairs cuts it short. */
  lemma NameEndsIffSealed(executable: string, args: seq<Option<string>>)
    requires args != []
    ensures ParseName(Quoted(executable) + Arguments(args), false).1 == Arguments(args) <==> Sealed(executable)
  {
    var s, rest := Quoted(executable), Arguments(args);
    PrintedGrouped(executable);
    if !Grouped(s, false) {
      NameStopsIn(s, false, rest);
    } else {
      NameOver(s, false, rest);
      if Sealed(executable) {
        assert ParseName(rest, false) == ([], rest);
      } else {
        NameGoesOn(rest);
      }
    }
  }

  /** Inside quotes the blank in front of the arguments is part of the name. */
  lemma NameGoesOn(rest: string)
    requires rest != [] && rest[0] == ' '
    ensures |ParseName(rest, true).1| < |rest|
  {
    NameShortens(rest[1..], true);
  }

  lemma {:induction false} NameShortens(s: string, inQuotes: bool)
    ensures |ParseName(s, inQuotes).1| <= |s|
    decreases |s|
  {
    if s != [] {
      NameShortens(s[1..], !inQuotes);
      NameShortens(s[1..], inQuotes);
    }
  }

  /** Quotes are not allowed in a Windows file name. The program-name rule knows no escape, so an
      unpaired one makes all arguments printed without quotes part of the name. */
  lemma QuoteInNameSwallowsArguments(executable: string, args: seq<Option<string>>, rule: DoubleQuote)
    requires Grouped(Quoted(executable), false) && !Sealed(executable) && QuoteFree(Arguments(args))
    ensures ParseCommandLine(Quoted(executable) + Arguments(args), rule)
      == (WithoutQuotes(Quoted(executable)) + Arguments(args), [])
  {
    var rest := Arguments(args);
    PrintedGrouped(executable);
    NameOver(Quoted(executable), false, rest);
    NameInside(rest, true, []);
    assert rest + [] == rest;
  }

  lemma SwallowExample()
    ensures Grouped(Quoted([QUOTE]), false) && !Sealed([QUOTE])
  {
    assert [QUOTE][1..] == [];
    PrintedGrouped([QUOTE]);
  }

  // ----- the printed form, told without the printer -----

  lemma {:induction false} EscapeGrows(s: string, n: nat)
    ensures |Escape(s, n)| >= |s| + n
    decreases |s|
  {
    if s != [] { EscapeGrows(s[1..], if s[0] == BACKSLASH then n + 1 else 0); }
  }

  /** An argument is printed as it stands exactly when it is not empty and holds no blank, tab, line
      feed, vertical tab or quote. */
  lemma PrintedAsItStands(s: string)
    ensures Quoted(s) == s <==> s != "" && forall i | 0 <= i < |s| ::
      s[i] != ' ' && s[i] != '\t' && s[i] != '\n' && s[i] != 11 as char && s[i] != '\"'
  {
    EscapeGrows(s, 0);
    if NeedsQuotes(s) {
      assert |Quoted(s)| == |Escape(s, 0)| + 2;
      if s != [] {
        var i :| 0 <= i < |s| && IsSpecial(s[i]);
        assert s[i] == ' ' || s[i] == '\t' || s[i] == '\n' || s[i] == 11 as char || s[i] == '\"';
      }
    } else {
      forall i | 0 <= i < |s|
        ensures s[i] != ' ' && s[i] != '\t' && s[i] != '\n' && s[i] != 11 as char && s[i] != '\"'
      {
        assert !IsSpecial(s[i]);
      }
    }
  }

  /** A run of backslashes and what ends it, printed inside quotes. */
  function PrintedPiece(n: nat, c: char): string {
    if c == '\"' then Repeat('\\', 2 * n + 1) + "\"" else Repeat('\\', n) + [c]
  }

  lemma {:induction false} EscapeRun(n: nat, m: nat, after: string)
    ensures Escape(Repeat('\\', m) + after, n) == Escape(after, n + m)
    decreases m
  {
    if m == 0 {
      assert Repeat('\\', 0) + after == after;
    } else {
      EscapeRun(n + 1, m - 1, after);
      assert (Repeat('\\', m) + after)[1..] == Repeat('\\', m - 1) + after;
    }
  }

  /** Inside quotes the printer doubles the backslashes before a quote and before the end, and puts
      one more before the quote. Everything else stays. */
  lemma PrintedPieces(m: nat, c: char, rest: string)
    requires c != '\\'
    ensures Escape(Repeat('\\', m) + ([c] + rest), 0) == PrintedPiece(m, c) + Escape(rest, 0)
    ensures Escape(Repeat('\\', m), 0) == Repeat('\\', 2 * m)
  {
    EscapeRun(0, m, [c] + rest);
    assert ([c] + rest)[1..] == rest;
    EscapeRun(0, m, []);
    assert Repeat('\\', m) + [] == Repeat('\\', m);
  }

  /** The documented rules of the reader: an even run of backslashes before a quote is halved and the
      quote opens or closes a part, an odd run is halved and the quote belongs to the argument, and
      other backslashes stand for themselves. */
  lemma ReaderRules(n: nat, c: char, rest: string, inside: bool)
    requires c != '\\'
    ensures var s, read := Repeat('\\', n) + ([c] + rest), ParseArgument(rest, inside, 0, EndsPart);
            ParseArgument(s, inside, 0, EndsPart) ==
              if c == '\"' && n % 2 == 0 then
                var other := ParseArgument(rest, !inside, 0, EndsPart);
                (Repeat('\\', n / 2) + other.0, other.1)
              else if c == '\"' then (Repeat('\\', n / 2) + "\"" + read.0, read.1)
              else if (c == ' ' || c == '\t') && !inside then (Repeat('\\', n), [c] + rest)
              else (Repeat('\\', n) + [c] + read.0, read.1)
  {
    ReadBackslashes(n, [c] + rest, inside, 0, EndsPart);
    assert ([c] + rest)[1..] == rest;
  }
}
