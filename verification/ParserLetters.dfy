/** Letters and blanks in column definitions: which words the parser takes for types, keys and
    metrics, and why neither the case of a letter nor the kind of a blank matters. */
module ParserLetters {
  import opened Numbers
  import opened Schema
  import opened ColumnParser

  // ----- letters -----

  function Capital(c: char): char {
    match c
    case 'a' => 'A' case 'b' => 'B' case 'c' => 'C' case 'd' => 'D' case 'e' => 'E' case 'f' => 'F' case 'g' => 'G'
    case 'h' => 'H' case 'i' => 'I' case 'j' => 'J' case 'k' => 'K' case 'l' => 'L' case 'm' => 'M' case 'n' => 'N'
    case 'o' => 'O' case 'p' => 'P' case 'q' => 'Q' case 'r' => 'R' case 's' => 'S' case 't' => 'T' case 'u' => 'U'
    case 'v' => 'V' case 'w' => 'W' case 'x' => 'X' case 'y' => 'Y' case 'z' => 'Z'
    case _ => c
  }

  /** The same letter, large or small, or the same character. */
  predicate SameLetter(a: char, b: char) {
    a == b || a == Capital(b) || Capital(a) == b
  }

  predicate SameWord(a: string, b: string) {
    |a| == |b| && forall i | 0 <= i < |a| :: SameLetter(a[i], b[i])
  }

  lemma CapitalIs(c: char)
    ensures 'a' <= c <= 'z' ==> Lower(Capital(c)) == c && 'A' <= Capital(c) <= 'Z'
    ensures !('a' <= c <= 'z') ==> Capital(c) == c
  {
  }

  /** Of two letters that are the same when small, one is the other's capital. */
  lemma LowerIs(a: char, b: char)
    ensures Lower(a) == Lower(b) <==> SameLetter(a, b)
  {
    CapitalIs(a);
    CapitalIs(b);
    LowerPair(a, b, Capital(a), Capital(b));
  }

  lemma LowerPair(a: char, b: char, ca: char, cb: char)
    requires if 'a' <= a <= 'z' then Lower(ca) == a && 'A' <= ca <= 'Z' else ca == a
    requires if 'a' <= b <= 'z' then Lower(cb) == b && 'A' <= cb <= 'Z' else cb == b
    ensures Lower(a) == Lower(b) <==> a == b || a == cb || ca == b
  {
  }

  /** sqlite3_strnicmp tells whether the next n characters are the first n of the word. */
  lemma {:induction false} MatchesIs(s: string, i: nat, w: string, j: nat, n: nat)
    requires j <= n <= |w| && i + j <= |s|
    ensures Matches(s, i, w, j, n) <==> i + n <= |s| && SameWord(s[i + j..i + n], w[j..n])
    decreases n - j
  {
    if j < n && i + j < |s| {
      MatchesIs(s, i, w, j + 1, n);
      LowerIs(s[i + j], w[j]);
      if i + n <= |s| {
        assert s[i + j..i + n] == [s[i + j]] + s[i + j + 1..i + n] && w[j..n] == [w[j]] + w[j + 1..n];
      }
    }
  }

  /** The word stands in the text at `i`. */
  predicate StartsWith(s: string, i: nat, w: string) {
    i + |w| <= |s| && SameWord(s[i..i + |w|], w)
  }

  lemma {:induction false} MatchesLong(s: string, i: nat, w: string, j: nat, n: nat)
    requires j <= |w| < n && i + n <= |s|
    ensures !Matches(s, i, w, j, n)
    decreases |w| - j
  {
    if j < |w| { MatchesLong(s, i, w, j + 1, n); }
  }

  /** A type is one of five words, in letters of either case, with anything behind it. */
  lemma ElementIs(s: string, t: Token)
    requires t.start <= |s|
    ensures var i := t.start;
            ElementAt(s, t) ==
              if StartsWith(s, i, "float") || StartsWith(s, i, "f32") then Some(Float32)
              else if StartsWith(s, i, "int8") || StartsWith(s, i, "i8") then Some(Int8)
              else if StartsWith(s, i, "bit") then Some(ElementType.Bit)
              else None
  {
    WordStands(s, t.start, "float");
    WordStands(s, t.start, "f32");
    WordStands(s, t.start, "int8");
    WordStands(s, t.start, "i8");
    WordStands(s, t.start, "bit");
  }

  lemma WordStands(s: string, i: nat, w: string)
    requires i <= |s|
    ensures Matches(s, i, w, 0, |w|) <==> StartsWith(s, i, w)
  {
    MatchesIs(s, i, w, 0, |w|);
    assert w[0..|w|] == w;
  }

  /** The text of a token. */
  function TextOf(s: string, t: Token): string
    requires InSource(s, t)
  {
    s[t.start..t.end]
  }

  /** `a` is the beginning of the word, in letters of either case. */
  predicate Abbreviates(a: string, w: string) {
    |a| <= |w| && SameWord(a, w[..|a|])
  }

  lemma AbbreviationIs(s: string, t: Token, w: string)
    requires InSource(s, t)
    ensures Matches(s, t.start, w, 0, t.end - t.start) <==> Abbreviates(TextOf(s, t), w)
  {
    var n := t.end - t.start;
    if n <= |w| {
      MatchesIs(s, t.start, w, 0, n);
      assert w[0..n] == w[..n];
    } else {
      MatchesLong(s, t.start, w, 0, n);
    }
  }

  /** The key and the metrics may be abbreviated, in letters of either case. */
  lemma MetricIs(s: string, t: Token)
    requires InSource(s, t)
    ensures IsMetricKey(s, t) <==> Abbreviates(TextOf(s, t), "distance_metric")
    ensures MetricAt(s, t) ==
      if Abbreviates(TextOf(s, t), "l2") then Some(L2)
      else if Abbreviates(TextOf(s, t), "l1") then Some(L1)
      else if Abbreviates(TextOf(s, t), "cosine") then Some(Cosine)
      else None
  {
    AbbreviationIs(s, t, "distance_metric");
    AbbreviationIs(s, t, "l2");
    AbbreviationIs(s, t, "l1");
    AbbreviationIs(s, t, "cosine");
  }

  // ----- texts that differ in case or blanks -----

  predicate IsBlank(c: char) {
    c == ' ' || c == '\t' || c == '\n' || c == '\r'
  }

  predicate IsLetter(c: char) {
    'a' <= c <= 'z' || 'A' <= c <= 'Z'
  }

  predicate IsNumeral(c: char) {
    '0' <= c <= '9'
  }

  predicate IsOfWord(c: char) {
    IsLetter(c) || IsNumeral(c) || c == '_'
  }

  /** The token at `k`: a word or a number goes on as long as it can, four characters stand alone,
      and no other character starts a token. */
  predicate IsTokenAt(s: string, k: nat, r: Next)
    requires k < |s|
  {
    if IsLetter(s[k]) then
      && r.Found? && r.token.tokenType == Identifier && r.token.start == k < r.token.end <= |s|
      && (forall m | k <= m < r.token.end :: IsOfWord(s[m])) && (r.token.end < |s| ==> !IsOfWord(s[r.token.end]))
    else if IsNumeral(s[k]) then
      && r.Found? && r.token.tokenType == Digit && r.token.start == k < r.token.end <= |s|
      && (forall m | k <= m < r.token.end :: IsNumeral(s[m])) && (r.token.end < |s| ==> !IsNumeral(s[r.token.end]))
    else if s[k] == '[' then r == Found(Token(LBracket, k + 1, k + 1))
    else if s[k] == ']' then r == Found(Token(RBracket, k + 1, k + 1))
    else if s[k] == '=' then r == Found(Token(Equals, k + 1, k + 1))
    else if s[k] == '+' then r == Found(Token(Plus, k + 1, k + 1))
    else r == Bad
  }

  /** Blanks are skipped, and then comes a token, the end, or a character that is refused. */
  lemma {:induction false} TokenIs(s: string, i: nat) returns (k: nat)
    requires i <= |s|
    ensures i <= k <= |s| && (forall m | i <= m < k :: IsBlank(s[m])) && (k < |s| ==> !IsBlank(s[k]))
    ensures if k == |s| then NextToken(s, i) == Eof else IsTokenAt(s, k, NextToken(s, i))
    decreases |s| - i
  {
    k := i;
    if i < |s| && IsBlank(s[i]) { k := TokenIs(s, i + 1); }
  }

  predicate SameChar(a: char, b: char) {
    SameLetter(a, b) || (IsBlank(a) && IsBlank(b))
  }

  predicate SameText(a: string, b: string) {
    |a| == |b| && forall i | 0 <= i < |a| :: SameChar(a[i], b[i])
  }

  /** The tokenizer sees no difference between such characters. */
  lemma SameClass(a: char, b: char)
    requires SameChar(a, b)
    ensures IsAlpha(a) == IsAlpha(b) && IsDigit(a) == IsDigit(b) && IsSpace(a) == IsSpace(b) && IsWordChar(a) == IsWordChar(b)
    ensures a == b || ((IsAlpha(a) || IsSpace(a)) && (IsAlpha(b) || IsSpace(b)))
    ensures Lower(a) == Lower(b) || (IsSpace(a) && IsSpace(b))
  {
    LowerIs(a, b);
    CapitalIs(a);
    CapitalIs(b);
  }

  lemma {:induction false} SameWordEnd(s: string, s': string, i: nat)
    requires SameText(s, s') && i <= |s|
    ensures WordEnd(s, i) == WordEnd(s', i) && NumberEnd(s, i) == NumberEnd(s', i)
    decreases |s| - i
  {
    if i < |s| {
      SameClass(s[i], s'[i]);
      SameWordEnd(s, s', i + 1);
    }
  }

  lemma SameHere(s: string, s': string, i: nat)
    requires SameText(s, s') && i < |s| && !IsSpace(s[i])
    ensures NextToken(s, i) == NextToken(s', i)
  {
    SameClass(s[i], s'[i]);
    SameWordEnd(s, s', i + 1);
  }

  lemma {:induction false} SameToken(s: string, s': string, i: nat)
    requires SameText(s, s') && i <= |s|
    ensures NextToken(s, i) == NextToken(s', i)
    decreases |s| - i
  {
    if i < |s| {
      SameClass(s[i], s'[i]);
      if IsSpace(s[i]) { SameToken(s, s', i + 1); } else { SameHere(s, s', i); }
    }
  }

  lemma {:induction false} SameTokens(s: string, s': string, i: nat)
    requires SameText(s, s') && i <= |s|
    ensures Lex(s, i) == Lex(s', i)
    decreases |s| - i
  {
    SameToken(s, s', i);
    LexStep(s, i);
    LexStep(s', i);
    if NextToken(s, i).Found? { SameTokens(s, s', NextToken(s, i).token.end); }
  }

  lemma {:induction false} SameMatches(s: string, s': string, i: nat, w: string, j: nat, n: int)
    requires SameText(s, s') && forall k | 0 <= k < |w| :: !IsSpace(w[k])
    ensures Matches(s, i, w, j, n) == Matches(s', i, w, j, n)
    decreases n - j
  {
    if j < n && i + j < |s| && j < |w| {
      SameClass(s[i + j], s'[i + j]);
      LowerKeepsSpace(s[i + j], w[j]);
      LowerKeepsSpace(s'[i + j], w[j]);
      SameMatches(s, s', i, w, j + 1, n);
    }
  }

  lemma LowerKeepsSpace(c: char, w: char)
    requires !IsSpace(w)
    ensures IsSpace(c) ==> Lower(c) != Lower(w)
  {
  }

  lemma SameElement(s: string, s': string, t: Token)
    requires SameText(s, s')
    ensures ElementAt(s, t) == ElementAt(s', t)
  {
    SameMatches(s, s', t.start, "float", 0, 5);
    SameMatches(s, s', t.start, "f32", 0, 3);
    SameMatches(s, s', t.start, "int8", 0, 4);
    SameMatches(s, s', t.start, "i8", 0, 2);
    SameMatches(s, s', t.start, "bit", 0, 3);
  }

  lemma SameMetric(s: string, s': string, t: Token)
    requires SameText(s, s')
    ensures MetricAt(s, t) == MetricAt(s', t) && IsMetricKey(s, t) == IsMetricKey(s', t)
  {
    SameMatches(s, s', t.start, "l2", 0, t.end - t.start);
    SameMatches(s, s', t.start, "l1", 0, t.end - t.start);
    SameMatches(s, s', t.start, "cosine", 0, t.end - t.start);
    SameMatches(s, s', t.start, KEY, 0, t.end - t.start);
  }

  lemma {:induction false} SameOptions(s: string, s': string, ts: Tokens, isBit: bool, metric: Metric)
    requires SameText(s, s')
    ensures Options(s, ts, isBit, metric) == Options(s', ts, isBit, metric)
    decreases ts
  {
    if ts.More? && ts.rest.More? {
      SameMetric(s, s', ts.first);
      SameMetric(s, s', ts.rest.first);
      if ts.rest.rest.More? {
        var value := ts.rest.rest.first;
        SameMetric(s, s', value);
        if MetricAt(s, value).Some? { SameOptions(s, s', ts.rest.rest.rest, isBit, MetricAt(s, value).value); }
      }
    } else if ts.More? {
      SameMetric(s, s', ts.first);
    }
  }

  /** atoi stops at letters and skips blanks. */
  ghost predicate IgnoresCase(atoi: string -> int) {
    forall a, b | SameText(a, b) :: atoi(a) == atoi(b)
  }

  lemma {:induction false} SameWithoutBlanks(a: string, b: string)
    requires SameText(a, b)
    ensures SameText(DropWhite(a), DropWhite(b))
    decreases |a|
  {
    if a != [] {
      SameClass(a[0], b[0]);
      SameWithoutBlanks(a[1..], b[1..]);
    }
  }

  lemma {:induction false} SameRun(a: string, b: string)
    requires SameText(a, b)
    ensures DigitRun(a) == DigitRun(b)
    decreases |a|
  {
    if a != [] {
      SameClass(a[0], b[0]);
      SameRun(a[1..], b[1..]);
    }
  }

  lemma SameDigits(a: string, b: string)
    requires SameText(a, b)
    ensures DigitRun(a) == DigitRun(b) && a[..DigitRun(a)] == b[..DigitRun(b)]
  {
    SameRun(a, b);
    forall k | 0 <= k < DigitRun(a) ensures a[k] == b[k] { SameClass(a[k], b[k]); }
  }

  lemma AtoiIgnoresCase()
    ensures IgnoresCase(Atoi)
  {
    forall a, b | SameText(a, b) ensures Atoi(a) == Atoi(b) {
      var t, u := DropWhite(a), DropWhite(b);
      SameWithoutBlanks(a, b);
      if t != [] {
        SameClass(t[0], u[0]);
        SameDigits(t[1..], u[1..]);
      }
      SameDigits(t, u);
    }
  }

  /** The same outcome, with names that stand in the same place. */
  ghost predicate SameOutcome(s: string, o: Outcome, s': string, o': Outcome) {
    match (o, o')
    case (NotVector, NotVector) => true
    case (Invalid, Invalid) => true
    case (Parsed(c), Parsed(c')) =>
      && (exists i, j :: c.name == Between(s, i, j) && c'.name == Between(s', i, j))
      && c.elementType == c'.elementType && c.dimensions == c'.dimensions && c.metric == c'.metric
    case _ => false
  }

  /** Texts that differ only in the case of letters, and in which blank stands where, mean the same. */
  lemma CaseIsIgnored(s: string, s': string, atoi: string -> int)
    requires SameText(s, s') && IgnoresCase(atoi)
    ensures SameOutcome(s, Meaning(s, atoi), s', Meaning(s', atoi))
  {
    var ts := Lex(s, 0);
    SameTokens(s, s', 0);
    if ts.More? && ts.rest.More? && ts.rest.rest.More? {
      SameElement(s, s', ts.rest.first);
      SameBody(s, s', ts.rest.rest.rest, ts.first, ElementAt(s, ts.rest.first), atoi);
    }
  }

  lemma SameBody(s: string, s': string, ts: Tokens, name: Token, element: Option<ElementType>, atoi: string -> int)
    requires SameText(s, s') && IgnoresCase(atoi)
    ensures element.Some? ==>
      SameOutcome(s, Body(s, ts, Between(s, name.start, name.end), element.value, atoi),
                  s', Body(s', ts, Between(s', name.start, name.end), element.value, atoi))
  {
    if element.Some? && ts.More? && ts.rest.More? {
      assert SameText(From(s, ts.first.start), From(s', ts.first.start));
      SameOptions(s, s', ts.rest.rest, element.value.Bit?, L2);
    }
  }

  /** What LastOptionWins says of a text it says of all its spellings, as of
      "a FLOAT[3] Distance_Metric=COSINE". */
  lemma AnyCaseIsRead(s: string, name: string, word: string, element: ElementType, n: nat, tail: string,
                      words: seq<string>, metrics: seq<Metric>, atoi: string -> int)
    requires IsName(name) && Spells(word, element) && 0 < n && IsInt32(n) && IsAtoi(atoi) && IgnoresCase(atoi)
    requires tail == OptionTexts(words) && NameAll(words, metrics) && SameText(ColumnParser.Text(name, word, n, tail), s)
    ensures var metric := if words == [] then Some(L2) else LastMetric(metrics, element.Bit?);
            var o := Meaning(s, atoi);
            if metric.None? then o == Invalid
            else o.Parsed? && o.column.elementType == element && o.column.dimensions == n && o.column.metric == metric.value
  {
    CaseIsIgnored(ColumnParser.Text(name, word, n, tail), s, atoi);
    if words == [] {
      PlainText(name, word, element, n, atoi);
    } else {
      LastOptionWins(ColumnParser.Text(name, word, n, tail), name, word, element, n, tail, words, metrics, atoi);
    }
  }
}
