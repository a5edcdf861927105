/** The meaning of a column definition read off its list of tokens. */
module ParserTokens {
  import opened Schema
  import opened ColumnParser
  import opened ParserLetters

  /** The tokens in a row. */
  function Flat(ts: Tokens): seq<Token> {
    if ts.More? then [ts.first] + Flat(ts.rest) else []
  }

  /** No character is refused. */
  predicate Complete(ts: Tokens) {
    match ts
    case More(_, rest) => Complete(rest)
    case AtEnd => true
    case Stuck => false
  }

  predicate IsMetric(s: string, t: Token) {
    InSource(s, t)
    && (Abbreviates(TextOf(s, t), "l2") || Abbreviates(TextOf(s, t), "l1") || Abbreviates(TextOf(s, t), "cosine"))
  }

  predicate IsKey(s: string, t: Token) {
    InSource(s, t) && Abbreviates(TextOf(s, t), "distance_metric")
  }

  /** Tokens in threes, a key, anything, and a metric; of the last three the middle one may be missing. */
  ghost predicate OptionsAllowed(s: string, ts: seq<Token>, isBit: bool) {
    && (ts != [] ==> !isBit)
    && (forall i | 0 <= i < |ts| && i % 3 == 0 :: IsKey(s, ts[i]))
    && (forall i | 0 <= i < |ts| && i % 3 == 2 :: IsMetric(s, ts[i]))
    && |ts| % 3 != 1
    && (|ts| % 3 == 2 ==> ts[|ts| - 1].tokenType == Identifier && IsMetric(s, ts[|ts| - 1]))
  }

  function MetricOf(s: string, t: Token): Metric {
    if !InSource(s, t) || Abbreviates(TextOf(s, t), "l2") then L2
    else if Abbreviates(TextOf(s, t), "l1") then L1
    else Cosine
  }

  predicate AllInSource(s: string, ts: seq<Token>) {
    forall i | 0 <= i < |ts| :: InSource(s, ts[i])
  }

  lemma {:induction false} OptionsAre(s: string, ts: Tokens, isBit: bool, metric: Metric)
    requires AllInSource(s, Flat(ts))
    ensures Options(s, ts, isBit, metric) ==
      if !Complete(ts) || !OptionsAllowed(s, Flat(ts), isBit) then None
      else if Flat(ts) == [] then Some(metric)
      else Some(MetricOf(s, Flat(ts)[|Flat(ts)| - 1]))
    decreases ts
  {
    if ts.More? && ts.rest.More? && ts.rest.rest.More? {
      FlatThree(ts);
      ThreeOptions(s, ts, isBit, metric);
      var value := MetricAt(s, ts.rest.rest.first);
      if value.Some? {
        RestInSource(s, ts);
        OptionsAre(s, ts.rest.rest.rest, isBit, value.value);
      }
    } else if ts.More? {
      FewOptions(s, ts, isBit, metric);
    }
  }

  lemma FewOptions(s: string, ts: Tokens, isBit: bool, metric: Metric)
    requires AllInSource(s, Flat(ts)) && ts.More? && (ts.rest.More? ==> !ts.rest.rest.More?)
    ensures Options(s, ts, isBit, metric) ==
      if !Complete(ts) || !OptionsAllowed(s, Flat(ts), isBit) then None
      else Some(MetricOf(s, Flat(ts)[|Flat(ts)| - 1]))
  {
    assert InSource(s, Flat(ts)[0]);
    MetricIs(s, ts.first);
    if ts.rest.More? {
      assert Flat(ts.rest) == [ts.rest.first] && Flat(ts) == [ts.first, ts.rest.first];
      assert Complete(ts.rest) == Complete(ts.rest.rest);
      assert InSource(s, Flat(ts)[1]);
      MetricIs(s, ts.rest.first);
      assert IsKey(s, Flat(ts)[0]) <==> IsMetricKey(s, ts.first);
    } else {
      assert Flat(ts) == [ts.first];
    }
  }

  lemma FlatThree(ts: Tokens)
    requires ts.More? && ts.rest.More? && ts.rest.rest.More?
    ensures Flat(ts) == [ts.first, ts.rest.first, ts.rest.rest.first] + Flat(ts.rest.rest.rest)
    ensures Complete(ts) == Complete(ts.rest.rest.rest)
  {
    assert Flat(ts.rest.rest) == [ts.rest.rest.first] + Flat(ts.rest.rest.rest);
    assert Flat(ts.rest) == [ts.rest.first] + Flat(ts.rest.rest);
    assert Complete(ts.rest) == Complete(ts.rest.rest);
  }

  lemma RestInSource(s: string, ts: Tokens)
    requires AllInSource(s, Flat(ts)) && ts.More? && ts.rest.More? && ts.rest.rest.More?
    ensures AllInSource(s, Flat(ts.rest.rest.rest))
  {
    var rest := Flat(ts.rest.rest.rest);
    FlatThree(ts);
    forall i | 0 <= i < |rest| ensures InSource(s, rest[i]) { assert rest[i] == Flat(ts)[i + 3]; }
  }

  /** The first three tokens, and the rest. */
  lemma ThreeOptions(s: string, ts: Tokens, isBit: bool, metric: Metric)
    requires AllInSource(s, Flat(ts)) && ts.More? && ts.rest.More? && ts.rest.rest.More?
    ensures var value := ts.rest.rest.first; var rest := ts.rest.rest.rest;
            && (OptionsAllowed(s, Flat(ts), isBit) <==>
                  !isBit && IsKey(s, ts.first) && IsMetric(s, value) && OptionsAllowed(s, Flat(rest), isBit))
            && (IsKey(s, ts.first) <==> IsMetricKey(s, ts.first))
            && MetricAt(s, value) == (if IsMetric(s, value) then Some(MetricOf(s, value)) else None)
            && Flat(ts)[|Flat(ts)| - 1] == if Flat(rest) == [] then value else Flat(rest)[|Flat(rest)| - 1]
  {
    var three, rest := [ts.first, ts.rest.first, ts.rest.rest.first], Flat(ts.rest.rest.rest);
    FlatThree(ts);
    assert InSource(s, Flat(ts)[0]) && InSource(s, Flat(ts)[2]);
    MetricIs(s, ts.first);
    MetricIs(s, ts.rest.rest.first);
    MoreOptions(s, three, rest, isBit);
  }

  lemma MoreOptions(s: string, three: seq<Token>, rest: seq<Token>, isBit: bool)
    requires |three| == 3
    ensures OptionsAllowed(s, three + rest, isBit) <==>
      !isBit && IsKey(s, three[0]) && IsMetric(s, three[2]) && OptionsAllowed(s, rest, isBit)
  {
    var all := three + rest;
    if OptionsAllowed(s, all, isBit) {
      assert IsKey(s, all[0]) && IsMetric(s, all[2]);
      forall i | 0 <= i < |rest|
        ensures i % 3 == 0 ==> IsKey(s, rest[i])
        ensures i % 3 == 2 ==> IsMetric(s, rest[i])
      {
        assert all[i + 3] == rest[i];
      }
    } else if !isBit && IsKey(s, three[0]) && IsMetric(s, three[2]) && OptionsAllowed(s, rest, isBit) {
      forall i | 0 <= i < |all|
        ensures i % 3 == 0 ==> IsKey(s, all[i])
        ensures i % 3 == 2 ==> IsMetric(s, all[i])
      {
        if i >= 3 { assert all[i] == rest[i - 3] && (i - 3) % 3 == i % 3; }
      }
    }
  }

  lemma {:induction false} TokensInSource(s: string, i: nat)
    requires i <= |s|
    ensures AllInSource(s, Flat(Lex(s, i)))
    decreases |s| - i
  {
    LexStep(s, i);
    var r := NextToken(s, i);
    if r.Found? {
      TokensInSource(s, r.token.end);
      var rest := Flat(Lex(s, r.token.end));
      assert Flat(Lex(s, i)) == [r.token] + rest;
    }
  }

  /** The five words for the three element types; anything may follow them. */
  function TypeAt(s: string, i: nat): Option<ElementType> {
    if StartsWith(s, i, "float") || StartsWith(s, i, "f32") then Some(Float32)
    else if StartsWith(s, i, "int8") || StartsWith(s, i, "i8") then Some(Int8)
    else if StartsWith(s, i, "bit") then Some(ElementType.Bit)
    else None
  }

  /** The first three tokens make a vector column, or something else. */
  predicate IsVectorColumn(s: string, ts: seq<Token>) {
    |ts| >= 3 && ts[1].tokenType == Identifier && ts[1].start <= |s| && TypeAt(s, ts[1].start).Some?
  }

  /** What a text means, token by token. */
  ghost function ColumnOf(s: string, ts: seq<Token>, complete: bool, atoi: string -> int): Outcome
    requires AllInSource(s, ts)
  {
    if !IsVectorColumn(s, ts) then NotVector
    else
      var element := TypeAt(s, ts[1].start).value;
      if |ts| < 5 || !complete || atoi(s[ts[3].start..]) <= 0 || !OptionsAllowed(s, ts[5..], element == ElementType.Bit)
      then Invalid
      else
        Parsed(Column(TextOf(s, ts[0]), element, atoi(s[ts[3].start..]),
                      if |ts| == 5 then L2 else MetricOf(s, ts[|ts| - 1])))
  }

  lemma FlatFive(ts: Tokens)
    requires ts.More? && ts.rest.More? && ts.rest.rest.More?
    requires ts.rest.rest.rest.More? && ts.rest.rest.rest.rest.More?
    ensures var body := ts.rest.rest.rest;
            Flat(ts) == [ts.first, ts.rest.first, ts.rest.rest.first, body.first, body.rest.first] + Flat(body.rest.rest)
            && Complete(ts) == Complete(body.rest.rest)
  {
    FlatThree(ts);
    FlatTwo(ts.rest.rest.rest);
  }

  lemma FlatTwo(ts: Tokens)
    requires ts.More? && ts.rest.More?
    ensures Flat(ts) == [ts.first, ts.rest.first] + Flat(ts.rest.rest) && Complete(ts) == Complete(ts.rest.rest)
  {
    assert Flat(ts.rest) == [ts.rest.first] + Flat(ts.rest.rest);
    assert Complete(ts.rest) == Complete(ts.rest.rest);
  }

  /** The grammar: a text is a vector column by its first three tokens, and then in order when it has
      five, no character is refused, the fourth is a positive number, and the rest are options. */
  lemma MeaningOfTokens(s: string, atoi: string -> int)
    ensures AllInSource(s, Flat(Lex(s, 0)))
    ensures Meaning(s, atoi) == ColumnOf(s, Flat(Lex(s, 0)), Complete(Lex(s, 0)), atoi)
  {
    var ts := Lex(s, 0);
    TokensInSource(s, 0);
    if ts.More? && ts.rest.More? && ts.rest.rest.More? {
      FlatThree(ts);
      HeadOfTokens(s, ts, atoi);
    } else {
      FewTokens(ts);
    }
  }

  lemma HeadOfTokens(s: string, ts: Tokens, atoi: string -> int)
    requires AllInSource(s, Flat(ts)) && ts.More? && ts.rest.More? && ts.rest.rest.More?
    requires Flat(ts) == [ts.first, ts.rest.first, ts.rest.rest.first] + Flat(ts.rest.rest.rest)
    ensures Definition(s, ts, atoi) == ColumnOf(s, Flat(ts), Complete(ts), atoi)
  {
    assert InSource(s, Flat(ts)[1]);
    ElementIs(s, ts.rest.first);
    if ts.rest.first.tokenType.Identifier? && ElementAt(s, ts.rest.first).Some? { BodyOfTokens(s, ts, atoi); }
  }

  lemma FewTokens(ts: Tokens)
    requires !(ts.More? && ts.rest.More? && ts.rest.rest.More?)
    ensures |Flat(ts)| < 3
  {
    if ts.More? && ts.rest.More? { assert Flat(ts.rest) == [ts.rest.first] + Flat(ts.rest.rest); }
  }

  lemma BodyOfTokens(s: string, ts: Tokens, atoi: string -> int)
    requires AllInSource(s, Flat(ts)) && ts.More? && ts.rest.More? && ts.rest.rest.More?
    requires ts.rest.first.start <= |s| && ElementAt(s, ts.rest.first).Some?
    requires ElementAt(s, ts.rest.first) == TypeAt(s, ts.rest.first.start) && ts.rest.first.tokenType == Identifier
    requires Flat(ts) == [ts.first, ts.rest.first, ts.rest.rest.first] + Flat(ts.rest.rest.rest)
    ensures Body(s, ts.rest.rest.rest, Between(s, ts.first.start, ts.first.end), ElementAt(s, ts.rest.first).value, atoi)
      == ColumnOf(s, Flat(ts), Complete(ts), atoi)
  {
    var body := ts.rest.rest.rest;
    assert InSource(s, Flat(ts)[0]);
    if body.More? && body.rest.More? {
      FlatFive(ts);
      var rest := Flat(body.rest.rest);
      assert Flat(ts)[5..] == rest && InSource(s, Flat(ts)[3]);
      forall i | 0 <= i < |rest| ensures InSource(s, rest[i]) { assert rest[i] == Flat(ts)[i + 5]; }
      OptionsAre(s, body.rest.rest, ElementAt(s, ts.rest.first).value.Bit?, L2);
    } else if body.More? {
      assert Flat(body) == [body.first];
    }
  }
}
