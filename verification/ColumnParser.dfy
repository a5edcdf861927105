/** The tokenizer and the parser of vector column definitions. */
module ColumnParser {
  import opened Numbers
  import opened Schema

  datatype TokenType = Identifier | Digit | LBracket | RBracket | Plus | Equals

  /** A token by its place in the source; punctuation has no text. */
  datatype Token = Token(tokenType: TokenType, start: nat, end: nat)

  datatype Next = Found(token: Token) | Eof | Bad

  predicate IsAlpha(c: char) {
    'a' <= c <= 'z' || 'A' <= c <= 'Z'
  }

  predicate IsSpace(c: char) {
    c == ' ' || c == '\t' || c == '\n' || c == '\r'
  }

  predicate IsWordChar(c: char) {
    IsAlpha(c) || IsDigit(c) || c == '_'
  }

  // ----- the tokenizer -----

  function WordEnd(s: string, i: nat): (e: nat)
    requires i <= |s|
    ensures i <= e <= |s| && forall k | i <= k < e :: IsWordChar(s[k])
    ensures e < |s| ==> !IsWordChar(s[e])
    decreases |s| - i
  {
    if i < |s| && IsWordChar(s[i]) then WordEnd(s, i + 1) else i
  }

  function NumberEnd(s: string, i: nat): (e: nat)
    requires i <= |s|
    ensures i <= e <= |s| && forall k | i <= k < e :: IsDigit(s[k])
    ensures e < |s| ==> !IsDigit(s[e])
    decreases |s| - i
  {
    if i < |s| && IsDigit(s[i]) then NumberEnd(s, i + 1) else i
  }

  /** The next token from `i` on. A token found always ends beyond `i`. */
  function NextToken(s: string, i: nat): (r: Next)
    requires i <= |s|
    ensures r.Found? ==> i < r.token.end <= |s| && r.token.start <= r.token.end
    ensures r.Found? && r.token.tokenType.RBracket? ==> r.token.start == r.token.end
    decreases |s| - i
  {
    if i == |s| then Eof
    else if IsSpace(s[i]) then NextToken(s, i + 1)
    else if s[i] == '+' then Found(Token(Plus, i + 1, i + 1))
    else if s[i] == '[' then Found(Token(LBracket, i + 1, i + 1))
    else if s[i] == ']' then Found(Token(RBracket, i + 1, i + 1))
    else if s[i] == '=' then Found(Token(Equals, i + 1, i + 1))
    else if IsAlpha(s[i]) then Found(Token(Identifier, i, WordEnd(s, i + 1)))
    else if IsDigit(s[i]) then Found(Token(Digit, i, NumberEnd(s, i + 1)))
    else Bad
  }

  method TokenNext(s: string, start: nat) returns (r: Next)
    requires start <= |s|
    ensures r == NextToken(s, start)
  {
    var ptr := start;
    while ptr < |s|
      invariant start <= ptr <= |s|
      invariant NextToken(s, start) == NextToken(s, ptr)
    {
      var curr := s[ptr];
      if IsSpace(curr) {
        ptr := ptr + 1;
        continue;
      } else if curr == '+' {
        return Found(Token(Plus, ptr + 1, ptr + 1));
      } else if curr == '[' {
        return Found(Token(LBracket, ptr + 1, ptr + 1));
      } else if curr == ']' {
        return Found(Token(RBracket, ptr + 1, ptr + 1));
      } else if curr == '=' {
        return Found(Token(Equals, ptr + 1, ptr + 1));
      } else if IsAlpha(curr) {
        var begin := ptr;
        while ptr < |s| && IsWordChar(s[ptr])
          invariant begin <= ptr <= |s| && WordEnd(s, begin) == WordEnd(s, ptr)
        {
          ptr := ptr + 1;
        }
        return Found(Token(Identifier, begin, ptr));
      } else if IsDigit(curr) {
        var begin := ptr;
        while ptr < |s| && IsDigit(s[ptr])
          invariant begin <= ptr <= |s| && NumberEnd(s, begin) == NumberEnd(s, ptr)
        {
          ptr := ptr + 1;
        }
        return Found(Token(Digit, begin, ptr));
      } else {
        return Bad;
      }
    }
    return Eof;
  }

  /** The scanner moves on only past a token it found; otherwise the caller's token stays. */
  method ScannerNext(s: string, at: nat, token: Token) returns (rc: Next, next: nat, out: Token)
    requires at <= |s|
    ensures rc == NextToken(s, at)
    ensures if rc.Found? then out == rc.token && next == out.end else out == token && next == at
  {
    rc := TokenNext(s, at);
    if rc.Found? {
      next, out := rc.token.end, rc.token;
    } else {
      next, out := at, token;
    }
  }

  // ----- words -----

  function Lower(c: char): char {
    if 'A' <= c <= 'Z' then (c as int + 32) as char else c
  }

  /** sqlite3_strnicmp of the source from `i` on and `w`, from their characters `j` on up to
      `n`: whether they are found equal. Both texts end in a NUL. */
  predicate Matches(s: string, i: nat, w: string, j: nat, n: int)
    decreases n - j
  {
    if j >= n then true
    else if i + j >= |s| then j >= |w|
    else if j >= |w| then false
    else Lower(s[i + j]) == Lower(w[j]) && Matches(s, i, w, j + 1, n)
  }

  predicate InSource(s: string, t: Token) {
    t.start <= t.end <= |s|
  }

  datatype Metric = L2 | L1 | Cosine

  /** The type name is matched as a prefix of what follows. */
  function ElementAt(s: string, t: Token): Option<ElementType> {
    var i := t.start;
    if Matches(s, i, "float", 0, 5) || Matches(s, i, "f32", 0, 3) then Some(Float32)
    else if Matches(s, i, "int8", 0, 4) || Matches(s, i, "i8", 0, 2) then Some(Int8)
    else if Matches(s, i, "bit", 0, 3) then Some(ElementType.Bit)
    else None
  }

  const KEY := "distance_metric"

  /** Keys and metrics are matched up to the length of the token: abbreviations pass. */
  predicate IsMetricKey(s: string, t: Token) {
    Matches(s, t.start, KEY, 0, t.end - t.start)
  }

  function MetricAt(s: string, t: Token): Option<Metric> {
    var i, n := t.start, t.end - t.start;
    if Matches(s, i, "l2", 0, n) then Some(L2)
    else if Matches(s, i, "l1", 0, n) then Some(L1)
    else if Matches(s, i, "cosine", 0, n) then Some(Cosine)
    else None
  }

  // ----- the language -----

  /** The tokens of a text, up to its end or to a character that starts none. */
  datatype Tokens = More(first: Token, rest: Tokens) | AtEnd | Stuck

  function Lex(s: string, i: nat): Tokens
    requires i <= |s|
    decreases |s| - i
  {
    match NextToken(s, i)
    case Found(t) => More(t, Lex(s, t.end))
    case Eof => AtEnd
    case Bad => Stuck
  }

  /** The text between two places, and from one on. */
  function Between(s: string, i: nat, j: nat): string {
    if i <= j <= |s| then s[i..j] else []
  }

  function From(s: string, i: nat): string {
    if i <= |s| then s[i..] else []
  }

  datatype Column = Column(name: string, elementType: ElementType, dimensions: int, metric: Metric)

  datatype Outcome = NotVector | Invalid | Parsed(column: Column)

  /** The options: a key, any token in the place of the equals sign, a value. The last value
      may be missing when the token in that place is an identifier, which then is the value
      too. The last option wins. */
  function Options(s: string, ts: Tokens, isBit: bool, metric: Metric): Option<Metric>
    decreases ts
  {
    match ts
    case AtEnd => Some(metric)
    case Stuck => None
    case More(key, afterKey) =>
      if !IsMetricKey(s, key) || isBit then None
      else
        match afterKey
        case AtEnd => None
        case Stuck => None
        case More(slot, afterSlot) =>
          match afterSlot
          case AtEnd => if slot.tokenType.Identifier? then MetricAt(s, slot) else None
          case Stuck => None
          case More(value, rest) =>
            var m := MetricAt(s, value);
            if m.None? then None else Options(s, rest, isBit, m.value)
  }

  /** A dimension, one more token, and options. */
  function Body(s: string, ts: Tokens, name: string, element: ElementType, atoi: string -> int): Outcome {
    if !ts.More? || !ts.rest.More? then Invalid
    else
      var dimensions := atoi(From(s, ts.first.start));
      var metric := Options(s, ts.rest.rest, element.Bit?, L2);
      if dimensions <= 0 || metric.None? then Invalid else Parsed(Column(name, element, dimensions, metric.value))
  }

  /** A name, a type, a token in the place of the left bracket, and the body. Of the five
      tokens only the second must have its type. */
  function Definition(s: string, ts: Tokens, atoi: string -> int): Outcome {
    if !ts.More? || !ts.rest.More? then NotVector
    else
      var name, word := ts.first, ts.rest.first;
      var element := ElementAt(s, word);
      if !word.tokenType.Identifier? || element.None? || !ts.rest.rest.More? then NotVector
      else Body(s, ts.rest.rest.rest, Between(s, name.start, name.end), element.value, atoi)
  }

  /** What a definition means. */
  function Meaning(s: string, atoi: string -> int): Outcome {
    Definition(s, Lex(s, 0), atoi)
  }

  // ----- the parser -----

  lemma {:induction false} BlankIsZero(s: string, i: nat)
    requires i <= |s| && NextToken(s, i).Eof?
    ensures DropWhite(s[i..]) == []
    decreases |s| - i
  {
    if i < |s| {
      BlankIsZero(s, i + 1);
      assert s[i..][1..] == s[i + 1..];
    }
  }

  lemma LexStep(s: string, i: nat)
    requires i <= |s|
    ensures Lex(s, i) ==
      match NextToken(s, i)
      case Found(t) => More(t, Lex(s, t.end))
      case Eof => AtEnd
      case Bad => Stuck
  {
  }

  /** The equals sign and the value of an option. A token left over from an earlier call
      takes the place of one that is not found, as long as its type fits. */
  method ParseValue(s: string, start: nat, key: Token) returns (r: Option<Metric>, at: nat, token: Token)
    requires start <= |s| && InSource(s, key)
    ensures start <= at <= |s| && InSource(s, token)
    ensures var ts := Lex(s, start);
            if ts.More? && ts.rest.More? then r == MetricAt(s, ts.rest.first) && Lex(s, at) == ts.rest.rest
            else if ts.More? && ts.first.tokenType.Identifier? then
              r == MetricAt(s, ts.first) && Lex(s, at) == ts.rest
            else r == None
  {
    LexStep(s, start);
    var rc: Next;
    rc, at, token := ScannerNext(s, start, key);
    if !rc.Found? && !token.tokenType.Equals? { return None, at, token; }
    LexStep(s, at);
    rc, at, token := ScannerNext(s, at, token);
    if !rc.Found? && !token.tokenType.Identifier? { return None, at, token; }
    r := MetricAt(s, token);
  }

  function OptionsFrom(s: string, i: nat, isBit: bool, metric: Metric): Option<Metric>
    requires i <= |s|
  {
    Options(s, Lex(s, i), isBit, metric)
  }

  /** The option loop. */
  method ParseOptions(s: string, start: nat, stale: Token, isBit: bool) returns (r: Option<Metric>)
    requires start <= |s| && InSource(s, stale)
    ensures r == OptionsFrom(s, start, isBit, L2)
  {
    var at, token, metric := start, stale, L2;
    while true
      invariant at <= |s| && InSource(s, token)
      invariant OptionsFrom(s, at, isBit, metric) == OptionsFrom(s, start, isBit, L2)
      decreases |s| - at
    {
      LexStep(s, at);
      var rc: Next;
      rc, at, token := ScannerNext(s, at, token);
      if rc.Eof? { break; }
      if !rc.Found? && !token.tokenType.Identifier? { return None; }
      if !IsMetricKey(s, token) { return None; }
      if isBit { return None; }
      var m: Option<Metric>;
      m, at, token := ParseValue(s, at, token);
      if m.None? { return None; }
      metric := m.value;
    }
    return Some(metric);
  }

  method ParseBody(s: string, start: nat, stale: Token, name: string, element: ElementType, atoi: string -> int)
    returns (r: Outcome)
    requires start <= |s| && InSource(s, stale) && IsAtoi(atoi)
    ensures r == Body(s, Lex(s, start), name, element, atoi)
  {
    LexStep(s, start);
    var rc, at, token := ScannerNext(s, start, stale);
    if !rc.Found? && !token.tokenType.Digit? { return Invalid; }
    var dimensions := atoi(From(s, token.start));
    if dimensions <= 0 { return Invalid; }
    LexStep(s, at);
    rc, at, token := ScannerNext(s, at, token);
    if !rc.Found? && !token.tokenType.RBracket? { return Invalid; }
    if rc.Eof? { BlankIsZero(s, token.start); }
    var metric := ParseOptions(s, at, token, element.Bit?);
    if metric.None? { return Invalid; }
    return Parsed(Column(name, element, dimensions, metric.value));
  }

  /** `garbage` is what the token variable holds before the first call: nothing depends on it. */
  method ParseVectorColumn(s: string, garbage: Token, atoi: string -> int) returns (r: Outcome)
    requires IsAtoi(atoi)
    ensures r == Meaning(s, atoi)
  {
    LexStep(s, 0);
    var rc, at, token := ScannerNext(s, 0, garbage);
    if !rc.Found? && !token.tokenType.Identifier? { return NotVector; }
    var name := token;
    LexStep(s, at);
    rc, at, token := ScannerNext(s, at, token);
    if !rc.Found? || !token.tokenType.Identifier? { return NotVector; }
    var element := ElementAt(s, token);
    if element.None? { return NotVector; }
    LexStep(s, at);
    rc, at, token := ScannerNext(s, at, token);
    if !rc.Found? && !token.tokenType.LBracket? { return NotVector; }
    r := ParseBody(s, at, token, Between(s, name.start, name.end), element.value, atoi);
  }

  // ----- the canonical text -----

  /** Type names and metrics as the documentation spells them. */
  predicate Spells(word: string, element: ElementType) {
    match element
    case Float32 => word == "float" || word == "f32"
    case Int8 => word == "int8" || word == "i8"
    case Bit => word == "bit"
  }

  predicate Names(word: string, metric: Metric) {
    match metric
    case L2 => word == "l2" || word == "L2"
    case L1 => word == "l1" || word == "L1"
    case Cosine => word == "cosine"
  }

  predicate IsName(s: string) {
    && s != [] && ('a' <= s[0] <= 'z' || 'A' <= s[0] <= 'Z')
    && forall i | 0 <= i < |s| ::
         'a' <= s[i] <= 'z' || 'A' <= s[i] <= 'Z' || '0' <= s[i] <= '9' || s[i] == '_'
  }

  lemma {:induction false} WordEndIs(s: string, i: nat, e: nat)
    requires i <= e <= |s| && (forall k | i <= k < e :: IsWordChar(s[k])) && (e < |s| ==> !IsWordChar(s[e]))
    ensures WordEnd(s, i) == e
    decreases e - i
  {
    if i < e { WordEndIs(s, i + 1, e); }
  }

  lemma {:induction false} NumberEndIs(s: string, i: nat, e: nat)
    requires i <= e <= |s| && (forall k | i <= k < e :: IsDigit(s[k])) && (e < |s| ==> !IsDigit(s[e]))
    ensures NumberEnd(s, i) == e
    decreases e - i
  {
    if i < e { NumberEndIs(s, i + 1, e); }
  }

  /** `t` stands in `s` at `i`. */
  predicate Has(s: string, i: nat, t: string) {
    i + |t| <= |s| && forall k | 0 <= k < |t| :: s[i + k] == t[k]
  }

  /** A text that is made of two stands there piece by piece. */
  lemma HasBoth(s: string, i: nat, a: string, b: string)
    requires Has(s, i, a + b)
    ensures Has(s, i, a) && Has(s, i + |a|, b)
  {
    forall k | 0 <= k < |a| ensures s[i + k] == a[k] { assert (a + b)[k] == a[k]; }
    forall k | 0 <= k < |b| ensures s[i + |a| + k] == b[k] { assert (a + b)[|a| + k] == b[k]; }
  }

  lemma HasSlice(s: string, i: nat, t: string)
    requires Has(s, i, t)
    ensures s[i..i + |t|] == t && s[i..] == t + s[i + |t|..]
  {
  }

  // ----- words -----

  lemma {:induction false} MatchesSame(s: string, i: nat, w: string, j: nat, n: nat)
    requires j <= n <= |w| && i + n <= |s| && forall k | j <= k < n :: Lower(s[i + k]) == Lower(w[k])
    ensures Matches(s, i, w, j, n)
    decreases n - j
  {
    if j < n { MatchesSame(s, i, w, j + 1, n); }
  }

  lemma {:induction false} MatchesNot(s: string, i: nat, w: string, j: nat, n: nat, k: nat)
    requires j <= k < n && k < |w| && i + k < |s| && Lower(s[i + k]) != Lower(w[k])
    ensures !Matches(s, i, w, j, n)
    decreases k - j
  {
    if j < k { MatchesNot(s, i, w, j + 1, n, k); }
  }

  lemma ReadsElement(s: string, i: nat, word: string, element: ElementType)
    requires Has(s, i, word) && Spells(word, element)
    ensures ElementAt(s, Token(Identifier, i, i + |word|)) == Some(element)
  {
    assert s[i] == word[0] && s[i + 1] == word[1];
    if word == "float" {
      MatchesSame(s, i, "float", 0, 5);
    } else if word == "f32" {
      MatchesSame(s, i, "f32", 0, 3);
    } else {
      MatchesNot(s, i, "float", 0, 5, 0);
      MatchesNot(s, i, "f32", 0, 3, 0);
      if word == "int8" {
        MatchesSame(s, i, "int8", 0, 4);
      } else if word == "i8" {
        MatchesSame(s, i, "i8", 0, 2);
      } else {
        MatchesNot(s, i, "int8", 0, 4, 0);
        MatchesNot(s, i, "i8", 0, 2, 0);
        MatchesSame(s, i, "bit", 0, 3);
      }
    }
  }

  lemma ReadsMetric(s: string, i: nat, word: string, metric: Metric)
    requires Has(s, i, word) && Names(word, metric)
    ensures MetricAt(s, Token(Identifier, i, i + |word|)) == Some(metric)
  {
    var n := |word|;
    assert s[i] == word[0] && s[i + 1] == word[1];
    match metric
    case L2 => MatchesSame(s, i, "l2", 0, n);
    case L1 => MatchesNot(s, i, "l2", 0, n, 1); MatchesSame(s, i, "l1", 0, n);
    case Cosine =>
      MatchesNot(s, i, "l2", 0, n, 0);
      MatchesNot(s, i, "l1", 0, n, 0);
      MatchesSame(s, i, "cosine", 0, n);
  }

  lemma ReadsKey(s: string, i: nat)
    requires Has(s, i, KEY)
    ensures IsMetricKey(s, Token(Identifier, i, i + |KEY|))
  {
    MatchesSame(s, i, KEY, 0, |KEY|);
  }

  lemma SpelledIsName(word: string, element: ElementType)
    requires Spells(word, element)
    ensures IsName(word)
  {
  }

  lemma MetricIsName(word: string, metric: Metric)
    requires Names(word, metric)
    ensures IsName(word) && IsName(KEY)
  {
  }

  // ----- tokens -----

  predicate IsPunctuation(c: char) {
    c == '[' || c == ']' || c == '=' || c == '+'
  }

  lemma LexName(s: string, i: nat, t: string)
    requires Has(s, i, t) && IsName(t) && (i + |t| < |s| ==> !IsWordChar(s[i + |t|]))
    ensures Lex(s, i) == More(Token(Identifier, i, i + |t|), Lex(s, i + |t|))
  {
    assert s[i] == t[0];
    forall k | i <= k < i + |t| ensures IsWordChar(s[k]) { assert s[i + (k - i)] == t[k - i]; }
    WordEndIs(s, i + 1, i + |t|);
    LexStep(s, i);
  }

  lemma LexDigits(s: string, i: nat, t: string)
    requires Has(s, i, t) && t != [] && (forall k | 0 <= k < |t| :: IsDigit(t[k]))
    requires i + |t| < |s| ==> !IsDigit(s[i + |t|])
    ensures Lex(s, i) == More(Token(Digit, i, i + |t|), Lex(s, i + |t|))
  {
    assert s[i] == t[0];
    forall k | i <= k < i + |t| ensures IsDigit(s[k]) { assert s[i + (k - i)] == t[k - i]; }
    NumberEndIs(s, i + 1, i + |t|);
    LexStep(s, i);
  }

  lemma LexBlank(s: string, i: nat)
    requires i < |s| && s[i] == ' '
    ensures Lex(s, i) == Lex(s, i + 1)
  {
    LexStep(s, i);
    LexStep(s, i + 1);
  }

  lemma LexPunctuation(s: string, i: nat) returns (t: Token)
    requires i < |s| && IsPunctuation(s[i])
    ensures t.start == i + 1 == t.end && Lex(s, i) == More(t, Lex(s, i + 1))
  {
    t := NextToken(s, i).token;
  }

  // ----- what tokens mean -----

  lemma OneOption(s: string, k: Token, e: Token, v: Token, rest: Tokens, first: Metric, metric: Metric)
    requires IsMetricKey(s, k) && MetricAt(s, v) == Some(metric)
    ensures Options(s, More(k, More(e, More(v, rest))), false, first) == Options(s, rest, false, metric)
    ensures Options(s, More(k, More(e, More(v, rest))), true, first) == None
  {
  }

  /** At the end of the text the equals sign may be missing. */
  lemma ValueIsLast(s: string, key: Token, slot: Token, metric: Metric)
    requires IsMetricKey(s, key) && slot.tokenType.Identifier? && MetricAt(s, slot) == Some(metric)
    ensures Options(s, More(key, More(slot, AtEnd)), false, L2) == Some(metric)
    ensures Options(s, More(key, More(slot, AtEnd)), true, L2) == None
  {
  }

  /** Punctuation has no text, and no text abbreviates every word: any three are an option. */
  lemma PunctuationOption(s: string, k: Token, e: Token, v: Token, rest: Tokens, isBit: bool, metric: Metric)
    requires k.end <= k.start && v.end <= v.start
    ensures Options(s, More(k, More(e, More(v, rest))), isBit, metric) == if isBit then None else Options(s, rest, isBit, L2)
  {
  }

  function Told(name: string, element: ElementType, n: int, metric: Option<Metric>): Outcome {
    if metric.None? then Invalid else Parsed(Column(name, element, n, metric.value))
  }

  lemma BodyOf(s: string, number: Token, close: Token, rest: Tokens, name: string, element: ElementType, n: nat,
               atoi: string -> int)
    requires atoi(From(s, number.start)) == n && 0 < n
    ensures Body(s, More(number, More(close, rest)), name, element, atoi)
      == Told(name, element, n, Options(s, rest, element.Bit?, L2))
  {
  }

  lemma DefinitionOf(s: string, name: Token, word: Token, open: Token, rest: Tokens, element: ElementType, atoi: string -> int)
    requires word.tokenType.Identifier? && ElementAt(s, word) == Some(element)
    ensures Definition(s, More(name, More(word, More(open, rest))), atoi)
      == Body(s, rest, Between(s, name.start, name.end), element, atoi)
  {
  }

  // ----- texts -----

  /** name type[N], then `tail`; other characters may stand in the places of the brackets. */
  function Spelled(name: string, word: string, open: char, n: nat, close: char, tail: string): string {
    name + (" " + (word + ([open] + (Digits(n) + ([close] + tail)))))
  }

  function Text(name: string, word: string, n: nat, tail: string): string {
    Spelled(name, word, '[', n, ']', tail)
  }

  /** Where the pieces stand: the type at `w`, the brackets at `b` and `d`. */
  ghost predicate Laid(s: string, name: string, word: string, digits: string, tail: string, w: nat, b: nat, d: nat) {
    && w == |name| + 1 && b == w + |word| && d == b + 1 + |digits| && |s| == d + 1 + |tail|
    && Has(s, 0, name) && s[|name|] == ' ' && Has(s, w, word) && IsPunctuation(s[b])
    && Has(s, b + 1, digits) && IsPunctuation(s[d]) && Has(s, d + 1, tail)
  }

  lemma LastPieces(s: string, i: nat, digits: string, close: char, tail: string)
    requires Has(s, i, digits + ([close] + tail)) && |s| == i + |digits| + 1 + |tail|
    ensures Has(s, i, digits) && s[i + |digits|] == close && Has(s, i + |digits| + 1, tail)
  {
    HasBoth(s, i, digits, [close] + tail);
    HasBoth(s, i + |digits|, [close], tail);
    assert s[i + |digits| + 0] == [close][0];
  }

  lemma FirstPieces(s: string, name: string, after: string, word: string, open: char, bracket: string, rest: string)
    requires s == name + after && after == " " + (word + bracket) && bracket == [open] + rest
    ensures var w, b := |name| + 1, |name| + 1 + |word|;
            && |s| == b + 1 + |rest| && Has(s, 0, name) && s[|name|] == ' ' && Has(s, w, word)
            && s[b] == open && Has(s, b + 1, rest)
  {
    HasBoth(s, 0, name, after);
    HasBoth(s, |name|, " ", word + bracket);
    HasBoth(s, |name| + 1, word, bracket);
    HasBoth(s, |name| + 1 + |word|, [open], rest);
    assert s[|name| + 0] == " "[0] && s[|name| + 1 + |word| + 0] == [open][0];
  }

  lemma SpelledIsLaid(s: string, name: string, word: string, open: char, n: nat, close: char, tail: string)
    returns (w: nat, b: nat, d: nat)
    requires s == Spelled(name, word, open, n, close, tail) && IsPunctuation(open) && IsPunctuation(close)
    ensures Laid(s, name, word, Digits(n), tail, w, b, d) && s[b] == open && s[d] == close
  {
    w, b := |name| + 1, |name| + 1 + |word|;
    d := b + 1 + |Digits(n)|;
    var rest := Digits(n) + ([close] + tail);
    var bracket := [open] + rest;
    FirstPieces(s, name, " " + (word + bracket), word, open, bracket, rest);
    LastPieces(s, b + 1, Digits(n), close, tail);
  }

  /** The dimension, the token in the place of the right bracket, and the options. */
  lemma BodyRead(s: string, i: nat, n: nat, name: string, element: ElementType, atoi: string -> int)
    requires Has(s, i, Digits(n)) && i + |Digits(n)| < |s| && IsPunctuation(s[i + |Digits(n)|])
    requires 0 < n && IsInt32(n) && IsAtoi(atoi)
    ensures Body(s, Lex(s, i), name, element, atoi)
      == Told(name, element, n, OptionsFrom(s, i + |Digits(n)| + 1, element.Bit?, L2))
  {
    var d := i + |Digits(n)|;
    LexDigits(s, i, Digits(n));
    var close := LexPunctuation(s, d);
    HasSlice(s, i, Digits(n));
    assert s[d..][0] == s[d];
    assert atoi(Digits(n) + s[d..]) == n;
    BodyOf(s, Token(Digit, i, d), close, Lex(s, d + 1), name, element, n, atoi);
  }

  /** The type and the token in the place of the left bracket. */
  lemma WordRead(s: string, w: nat, word: string, element: ElementType) returns (open: Token)
    requires Has(s, w, word) && Spells(word, element) && w + |word| < |s| && IsPunctuation(s[w + |word|])
    ensures ElementAt(s, Token(Identifier, w, w + |word|)) == Some(element)
    ensures Lex(s, w) == More(Token(Identifier, w, w + |word|), More(open, Lex(s, w + |word| + 1)))
  {
    SpelledIsName(word, element);
    LexName(s, w, word);
    ReadsElement(s, w, word, element);
    open := LexPunctuation(s, w + |word|);
  }

  predicate IsHead(name: string) {
    IsName(name) || (name != [] && forall k | 0 <= k < |name| :: '0' <= name[k] <= '9')
  }

  /** A name, or a number in its place. */
  lemma NameRead(s: string, name: string) returns (t: Token)
    requires Has(s, 0, name) && |name| < |s| && s[|name|] == ' '
    requires IsHead(name)
    ensures t.start == 0 && t.end == |name| && Between(s, 0, |name|) == name
    ensures Lex(s, 0) == More(t, Lex(s, |name| + 1))
  {
    HasSlice(s, 0, name);
    LexBlank(s, |name|);
    if IsName(name) {
      LexName(s, 0, name);
      t := Token(Identifier, 0, |name|);
    } else {
      LexDigits(s, 0, name);
      t := Token(Digit, 0, |name|);
    }
  }

  /** The tokens in front of the dimension. */
  ghost predicate Headed(s: string, name: string, element: ElementType, t: Token, wordAt: Token, open: Token, i: nat) {
    && i <= |s| && Lex(s, 0) == More(t, More(wordAt, More(open, Lex(s, i))))
    && wordAt.tokenType.Identifier? && ElementAt(s, wordAt) == Some(element) && Between(s, t.start, t.end) == name
  }

  lemma HeadRead(s: string, name: string, word: string, element: ElementType, w: nat, b: nat)
    returns (t: Token, wordAt: Token, open: Token)
    requires Has(s, 0, name) && w == |name| + 1 && |name| < |s| && s[|name|] == ' ' && IsHead(name)
    requires Has(s, w, word) && Spells(word, element) && b == w + |word| && b < |s| && IsPunctuation(s[b])
    ensures Headed(s, name, element, t, wordAt, open, b + 1)
  {
    t := NameRead(s, name);
    open := WordRead(s, w, word, element);
    wordAt := Token(Identifier, w, b);
  }

  lemma MeaningIs(s: string, name: string, element: ElementType, t: Token, wordAt: Token, open: Token, i: nat,
                  o: Outcome, atoi: string -> int)
    requires Headed(s, name, element, t, wordAt, open, i) && Body(s, Lex(s, i), name, element, atoi) == o
    ensures Meaning(s, atoi) == o
  {
    DefinitionOf(s, t, wordAt, open, Lex(s, i), element, atoi);
  }

  lemma LaidHead(s: string, name: string, word: string, element: ElementType, digits: string, tail: string,
                 w: nat, b: nat, d: nat)
    returns (t: Token, wordAt: Token, open: Token)
    requires Laid(s, name, word, digits, tail, w, b, d) && Spells(word, element) && IsHead(name)
    ensures Headed(s, name, element, t, wordAt, open, b + 1)
  {
    t, wordAt, open := HeadRead(s, name, word, element, w, b);
  }

  lemma LaidBody(s: string, name: string, word: string, element: ElementType, n: nat, tail: string,
                 w: nat, b: nat, d: nat, m: Option<Metric>, atoi: string -> int)
    requires Laid(s, name, word, Digits(n), tail, w, b, d) && 0 < n && IsInt32(n) && IsAtoi(atoi)
    requires OptionsFrom(s, d + 1, element.Bit?, L2) == m
    ensures b + 1 <= |s| && Body(s, Lex(s, b + 1), name, element, atoi) == Told(name, element, n, m)
  {
    BodyRead(s, b + 1, n, name, element, atoi);
  }

  /** What is written in front of the options is read back. */
  lemma TextRead(s: string, name: string, word: string, element: ElementType, n: nat, tail: string,
                 w: nat, b: nat, d: nat, m: Option<Metric>, atoi: string -> int)
    requires Laid(s, name, word, Digits(n), tail, w, b, d) && Spells(word, element) && IsHead(name)
    requires 0 < n && IsInt32(n) && IsAtoi(atoi)
    requires OptionsFrom(s, d + 1, element.Bit?, L2) == m
    ensures Meaning(s, atoi) == Told(name, element, n, m)
  {
    var t, wordAt, open := LaidHead(s, name, word, element, Digits(n), tail, w, b, d);
    LaidBody(s, name, word, element, n, tail, w, b, d, m, atoi);
    MeaningIs(s, name, element, t, wordAt, open, b + 1, Told(name, element, n, m), atoi);
  }

  lemma EndsText(s: string, isBit: bool)
    ensures OptionsFrom(s, |s|, isBit, L2) == Some(L2)
  {
    LexStep(s, |s|);
  }

  /** The canonical text is read back: for every legal name, type and dimension from 1 to
      the largest int. */
  lemma PlainText(name: string, word: string, element: ElementType, n: nat, atoi: string -> int)
    requires IsName(name) && Spells(word, element) && 0 < n && IsInt32(n) && IsAtoi(atoi)
    ensures Meaning(Text(name, word, n, []), atoi) == Parsed(Column(name, element, n, L2))
  {
    var s := Text(name, word, n, []);
    var w, b, d := SpelledIsLaid(s, name, word, '[', n, ']', []);
    EndsText(s, element.Bit?);
    TextRead(s, name, word, element, n, [], w, b, d, Some(L2), atoi);
  }

  /** A metric option; `sign` is the equals sign, or a blank in its place. */
  function OptionText(sign: char, word: string): string {
    " " + (KEY + ([sign] + word))
  }

  lemma OptionPieces(s: string, i: nat, sign: char, word: string)
    requires Has(s, i, OptionText(sign, word))
    ensures var e := i + 1 + |KEY|;
            |s| >= e + 1 + |word| && s[i] == ' ' && Has(s, i + 1, KEY) && s[e] == sign && Has(s, e + 1, word)
  {
    HasBoth(s, i, " ", KEY + ([sign] + word));
    HasBoth(s, i + 1, KEY, [sign] + word);
    HasBoth(s, i + 1 + |KEY|, [sign], word);
    assert s[i + 0] == " "[0] && s[i + 1 + |KEY| + 0] == [sign][0];
  }

  lemma ValueRead(s: string, i: nat, word: string, metric: Metric)
    requires Has(s, i, word) && Names(word, metric) && (i + |word| < |s| ==> s[i + |word|] == ' ')
    ensures MetricAt(s, Token(Identifier, i, i + |word|)) == Some(metric)
    ensures Lex(s, i) == More(Token(Identifier, i, i + |word|), Lex(s, i + |word|))
  {
    MetricIsName(word, metric);
    LexName(s, i, word);
    ReadsMetric(s, i, word, metric);
  }

  /** The key and the value of an option. */
  lemma KeyRead(s: string, i: nat, sign: char, word: string, metric: Metric)
    requires Has(s, i, OptionText(sign, word)) && Names(word, metric) && (sign == '=' || sign == ' ')
    requires var j := i + |OptionText(sign, word)|; j < |s| ==> s[j] == ' '
    ensures var e := i + 1 + |KEY|; var j := e + 1 + |word|;
            && j == i + |OptionText(sign, word)| && j <= |s| && s[e] == sign
            && IsMetricKey(s, Token(Identifier, i + 1, e)) && MetricAt(s, Token(Identifier, e + 1, j)) == Some(metric)
            && Lex(s, i) == More(Token(Identifier, i + 1, e), Lex(s, e))
            && Lex(s, e + 1) == More(Token(Identifier, e + 1, j), Lex(s, j))
  {
    var e := i + 1 + |KEY|;
    OptionPieces(s, i, sign, word);
    MetricIsName(word, metric);
    LexBlank(s, i);
    LexName(s, i + 1, KEY);
    ReadsKey(s, i + 1);
    ValueRead(s, e + 1, word, metric);
  }

  /** An option replaces the metric, wherever it stands. */
  lemma OptionRead(s: string, i: nat, word: string, first: Metric, metric: Metric)
    requires Has(s, i, OptionText('=', word)) && Names(word, metric)
    requires var j := i + |OptionText('=', word)|; j < |s| ==> s[j] == ' '
    ensures OptionsFrom(s, i, false, first) == OptionsFrom(s, i + |OptionText('=', word)|, false, metric)
    ensures OptionsFrom(s, i, true, first) == None
  {
    var e := i + 1 + |KEY|;
    var j := e + 1 + |word|;
    KeyRead(s, i, '=', word, metric);
    var t := LexPunctuation(s, e);
    OneOption(s, Token(Identifier, i + 1, e), t, Token(Identifier, e + 1, j), Lex(s, j), first, metric);
  }

  /** At the end of the text a blank does for the equals sign. */
  lemma BlankOptionRead(s: string, i: nat, word: string, metric: Metric)
    requires Has(s, i, OptionText(' ', word)) && |s| == i + |OptionText(' ', word)| && Names(word, metric)
    ensures OptionsFrom(s, i, false, L2) == Some(metric) && OptionsFrom(s, i, true, L2) == None
  {
    var e := i + 1 + |KEY|;
    KeyRead(s, i, ' ', word, metric);
    LexBlank(s, e);
    LexStep(s, |s|);
    ValueIsLast(s, Token(Identifier, i + 1, e), Token(Identifier, e + 1, |s|), metric);
  }

  /** One option after the other. */
  function OptionTexts(words: seq<string>): string {
    if words == [] then [] else OptionText('=', words[0]) + OptionTexts(words[1..])
  }

  ghost predicate NameAll(words: seq<string>, metrics: seq<Metric>) {
    |words| == |metrics| && forall i | 0 <= i < |words| :: Names(words[i], metrics[i])
  }

  lemma {:induction false} OptionsRead(s: string, i: nat, words: seq<string>, metrics: seq<Metric>, first: Metric,
                                       isBit: bool)
    requires Has(s, i, OptionTexts(words)) && |s| == i + |OptionTexts(words)| && NameAll(words, metrics)
    ensures OptionsFrom(s, i, isBit, first) ==
      if words == [] then Some(first) else if isBit then None else Some(metrics[|words| - 1])
    decreases |words|
  {
    if words == [] {
      LexStep(s, |s|);
    } else {
      var text, rest := OptionText('=', words[0]), OptionTexts(words[1..]);
      HasBoth(s, i, text, rest);
      if words[1..] != [] { assert s[i + |text| + 0] == rest[0] == ' '; }
      OptionRead(s, i, words[0], first, metrics[0]);
      if !isBit { OptionsRead(s, i + |text|, words[1..], metrics[1..], metrics[0], isBit); }
    }
  }

  /** The metric that a row of options leaves. */
  function LastMetric(metrics: seq<Metric>, isBit: bool): Option<Metric>
    requires metrics != []
  {
    if isBit then None else Some(metrics[|metrics| - 1])
  }

  lemma TailOptions(s: string, i: nat, tail: string, words: seq<string>, metrics: seq<Metric>, isBit: bool)
    requires Has(s, i, tail) && |s| == i + |tail| && tail == OptionTexts(words)
    requires NameAll(words, metrics) && words != []
    ensures OptionsFrom(s, i, isBit, L2) == LastMetric(metrics, isBit)
  {
    OptionsRead(s, i, words, metrics, L2, isBit);
  }

  lemma LaidOptions(s: string, name: string, word: string, digits: string, tail: string, w: nat, b: nat, d: nat,
                    words: seq<string>, metrics: seq<Metric>, isBit: bool)
    requires Laid(s, name, word, digits, tail, w, b, d) && tail == OptionTexts(words)
    requires NameAll(words, metrics) && words != []
    ensures OptionsFrom(s, d + 1, isBit, L2) == LastMetric(metrics, isBit)
  {
    TailOptions(s, d + 1, tail, words, metrics, isBit);
  }

  lemma LaidBlankOption(s: string, name: string, word: string, digits: string, tail: string, w: nat, b: nat, d: nat,
                        metricWord: string, metric: Metric, isBit: bool)
    requires Laid(s, name, word, digits, tail, w, b, d) && tail == OptionText(' ', metricWord) && Names(metricWord, metric)
    ensures OptionsFrom(s, d + 1, isBit, L2) == if isBit then None else Some(metric)
  {
    BlankOptionRead(s, d + 1, metricWord, metric);
  }

  /** Repeated options are accepted and the last one wins, as in
      "a float[3] distance_metric=l1 distance_metric=cosine". */
  lemma LastOptionWins(s: string, name: string, word: string, element: ElementType, n: nat, tail: string,
                       words: seq<string>, metrics: seq<Metric>, atoi: string -> int)
    requires IsName(name) && Spells(word, element) && 0 < n && IsInt32(n) && IsAtoi(atoi) && words != []
    requires tail == OptionTexts(words) && NameAll(words, metrics) && s == Text(name, word, n, tail)
    ensures Meaning(s, atoi) == Told(name, element, n, LastMetric(metrics, element.Bit?))
  {
    var w, b, d := SpelledIsLaid(s, name, word, '[', n, ']', tail);
    var m := LastMetric(metrics, element.Bit?);
    LaidOptions(s, name, word, Digits(n), tail, w, b, d, words, metrics, element.Bit?);
    TextRead(s, name, word, element, n, tail, w, b, d, m, atoi);
  }

  /** A distance metric is read back as well, on columns that are not bit columns. */
  lemma TextWithMetric(s: string, name: string, word: string, element: ElementType, n: nat,
                       tail: string, metricWord: string, metric: Metric, atoi: string -> int)
    requires IsName(name) && Spells(word, element) && 0 < n && IsInt32(n) && IsAtoi(atoi)
    requires tail == OptionText('=', metricWord) && Names(metricWord, metric) && s == Text(name, word, n, tail)
    ensures Meaning(s, atoi) == if element.Bit? then Invalid else Parsed(Column(name, element, n, metric))
  {
    assert OptionTexts([]) == [] && OptionTexts([metricWord]) == tail;
    LastOptionWins(s, name, word, element, n, tail, [metricWord], [metric], atoi);
  }

  // ----- texts that are not in the grammar -----

  /** "name type[N] distance_metric m", without the equals sign, means the same as with it. */
  lemma MissingEquals(s: string, name: string, word: string, element: ElementType, n: nat, tail: string,
                      metricWord: string, metric: Metric, atoi: string -> int)
    requires IsName(name) && Spells(word, element) && 0 < n && IsInt32(n) && IsAtoi(atoi)
    requires tail == OptionText(' ', metricWord) && Names(metricWord, metric) && s == Text(name, word, n, tail)
    ensures Meaning(s, atoi) == if element.Bit? then Invalid else Parsed(Column(name, element, n, metric))
  {
    var w, b, d := SpelledIsLaid(s, name, word, '[', n, ']', tail);
    LaidBlankOption(s, name, word, Digits(n), tail, w, b, d, metricWord, metric, element.Bit?);
    TextRead(s, name, word, element, n, tail, w, b, d, if element.Bit? then None else Some(metric), atoi);
  }

  lemma PunctuationRead(s: string, i: nat, isBit: bool, metric: Metric)
    requires |s| == i + 3 && IsPunctuation(s[i]) && IsPunctuation(s[i + 1]) && IsPunctuation(s[i + 2])
    ensures OptionsFrom(s, i, isBit, metric) == if isBit then None else Some(L2)
  {
    var k := LexPunctuation(s, i);
    var e := LexPunctuation(s, i + 1);
    var v := LexPunctuation(s, i + 2);
    LexStep(s, |s|);
    PunctuationOption(s, k, e, v, AtEnd, isBit, metric);
  }

  lemma TailPunctuation(s: string, i: nat, tail: string, isBit: bool)
    requires Has(s, i, tail) && |s| == i + |tail| && |tail| == 3 && forall k | 0 <= k < 3 :: IsPunctuation(tail[k])
    ensures OptionsFrom(s, i, isBit, L2) == if isBit then None else Some(L2)
  {
    assert s[i + 0] == tail[0] && s[i + 1] == tail[1] && s[i + 2] == tail[2];
    PunctuationRead(s, i, isBit, L2);
  }

  /** "name type[N]" and any three punctuation characters, such as "a float[3]]]]", is accepted
      like the text without them, on columns that are not bit columns. */
  lemma PunctuationIsAnOption(s: string, name: string, word: string, element: ElementType, n: nat, tail: string,
                              atoi: string -> int)
    requires IsName(name) && Spells(word, element) && 0 < n && IsInt32(n) && IsAtoi(atoi)
    requires |tail| == 3 && (forall k | 0 <= k < 3 :: IsPunctuation(tail[k])) && s == Text(name, word, n, tail)
    ensures Meaning(s, atoi) == if element.Bit? then Invalid else Parsed(Column(name, element, n, L2))
  {
    var w, b, d := SpelledIsLaid(s, name, word, '[', n, ']', tail);
    TailPunctuation(s, d + 1, tail, element.Bit?);
    TextRead(s, name, word, element, n, tail, w, b, d, if element.Bit? then None else Some(L2), atoi);
  }

  /** Of the tokens in front of the options only the second has its type tested: a number in the
      place of the name and any punctuation in the places of the brackets, as in "1 float=3+",
      make a column too. */
  lemma TypesIgnored(s: string, m: nat, word: string, element: ElementType, open: char, n: nat, close: char,
                     atoi: string -> int)
    requires Spells(word, element) && IsPunctuation(open) && IsPunctuation(close) && 0 < n && IsInt32(n) && IsAtoi(atoi)
    requires s == Spelled(Digits(m), word, open, n, close, [])
    ensures Meaning(s, atoi) == Parsed(Column(Digits(m), element, n, L2))
  {
    var w, b, d := SpelledIsLaid(s, Digits(m), word, open, n, close, []);
    EndsText(s, element.Bit?);
    TextRead(s, Digits(m), word, element, n, [], w, b, d, Some(L2), atoi);
  }
}
