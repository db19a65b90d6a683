/** Applying parameters to a template: conditional sections first, then replacement in what is left. */
module SqlTemplates {
  import opened Wrappers
  import opened SqlConditionals
  import opened SqlParams
  import opened SqlCompleteness

  /** The text left by the conditional sections. */
  function Kept(query: string, params: Params): Result<string, TemplateError> {
    ConcatResult(Fold(Tokens(SplitLines(query)), None, params))
  }

  function Applied(query: string, params: Params): Result<string, TemplateError> {
    var kept := Kept(query, params);
    if kept.Success? then Success(ReplaceAll(kept.value, params)) else kept
  }

  method ApplyParams(query: string, params: Params) returns (r: Result<string, TemplateError>)
    ensures r == Applied(query, params)
  {
    r := ProcessConditionals(query, params);
    if r.Success? {
      var replaced := ReplaceParams(r.value, params);
      r := Success(replaced);
    }
  }

  /** Whether a query is rejected is decided by its own lines, whatever the parameters. */
  lemma AcceptedIffTemplate(query: string, params: Params)
    ensures Applied(query, params).Success? <==> exists items :: Tokens(SplitLines(query)) == Print(items)
  {
    AcceptsExactlyTemplates(Tokens(SplitLines(query)), params);
  }

  /** For any parameters a query made of text and blocks becomes its rendering with the values put in, and nothing else. */
  lemma AppliedIsReplacedRendering(query: string, items: seq<Item>, params: Params)
    requires Tokens(SplitLines(query)) == Print(items)
    ensures Applied(query, params) == Success(ReplaceAll(Concat(Render(items, params)), params))
  {
    FoldRenders(items, params);
  }

  /**
   Main result: a query made of text and blocks becomes the full expansion of its rendering,
   if the rendered text keeps its braces for placeholders and every value mentions only later
   keys; no supplied placeholder is left in it.
   */
  lemma AppliedIsExpandedRendering(query: string, items: seq<Item>, pieces: seq<Piece>, params: PieceParams)
    requires Tokens(SplitLines(query)) == Print(items)
    requires Concat(Render(items, TextParams(params))) == Spelled(pieces)
    requires WellFormed(pieces) && Keyed(params) && Ordered(params)
    ensures Applied(query, TextParams(params)) == Success(Spelled(Expand(pieces, params, 0)))
    ensures !LeavesPlaceholder(Spelled(Expand(pieces, params, 0)), TextParams(params))
  {
    FoldRenders(items, TextParams(params));
    OnePassIsFullExpansion(pieces, params);
  }

  /** On any template, whatever its braces: no supplied placeholder is left if no value touches one. */
  lemma AppliedIsComplete(query: string, params: Params)
    requires PlainKeys(params) && Clear(params)
    ensures Applied(query, params).Success? ==> !LeavesPlaceholder(Applied(query, params).value, params)
  {
    EveryTextCompleteIffClear(params);
    if Kept(query, params).Success? {
      assert Complete(Kept(query, params).value, params);
    }
  }

  // ---------- Values are never read as directives ----------

  /** The two parameter sets give every name the same truth value. */
  ghost predicate SameTruth(params: Params, other: Params) {
    forall v :: Truthy(params, v) == Truthy(other, v)
  }

  lemma {:induction false} SameTruthSameLines(tokens: seq<Line>, condition: Option<bool>, params: Params, other: Params)
    requires SameTruth(params, other)
    ensures Fold(tokens, condition, params) == Fold(tokens, condition, other)
  {
    if tokens != [] {
      var rest := tokens[1..];
      match tokens[0]
      case Text(_) => SameTruthSameLines(rest, condition, params, other);
      case If(Some(v)) => SameTruthSameLines(rest, Some(Truthy(params, v)), params, other);
      case Else => if condition.Some? { SameTruthSameLines(rest, Some(!condition.value), params, other); }
      case EndIf => SameTruthSameLines(rest, None, params, other);
      case If(None) =>
    }
  }

  /** The texts of the values play no part in which lines are kept: only their truth values do. */
  lemma ValuesNeverSelectLines(query: string, params: Params, other: Params)
    requires SameTruth(params, other)
    ensures Kept(query, params) == Kept(query, other)
    ensures Applied(query, params).Success? <==> Applied(query, other).Success?
  {
    SameTruthSameLines(Tokens(SplitLines(query)), None, params, other);
  }

  lemma {:induction false} OneLine(s: string)
    requires s != "" && forall c :: c in s ==> !IsLineEnd(c)
    ensures LineLength(s) == |s|
  {
    assert s[0] in s;
    if |s| > 1 {
      assert forall c :: c in s[1..] ==> c in s;
      OneLine(s[1..]);
    }
  }

  lemma PlaceholderIsPlain(key: string)
    requires forall c :: c in key ==> !IsLineEnd(c)
    ensures SplitLines(Placeholder(key)) == [Placeholder(key)] && Classify(Placeholder(key)) == Text(Placeholder(key))
  {
    var hole := Placeholder(key);
    assert forall c :: c in hole ==> c in key || c == '{' || c == '}';
    OneLine(hole);
    assert hole[..|hole|] == hole && hole[|hole|..] == "";
    assert hole[0] == '{';
  }

  /** No line of the text is a directive. */
  predicate NoDirectives(query: string) { forall line :: line in SplitLines(query) ==> Classify(line).Text? }

  /**
   A query without directive lines, for any parameters: the outcome is exactly the query with
   its values put in, whatever lines the values hold. What would be rejected or dropped in the
   query itself is plain text in a value.
   */
  lemma AnyValueComesThrough(query: string, params: Params)
    requires NoDirectives(query)
    ensures Applied(query, params) == Success(ReplaceAll(query, params))
  {
    PlainQueryUnchanged(query, params);
  }

  /** The smallest such query: a placeholder alone becomes its value. */
  lemma PlaceholderBecomesValue(key: string, value: string, truthy: bool)
    requires NoBraces(key) && forall c :: c in key ==> !IsLineEnd(c)
    ensures Applied(Placeholder(key), [(key, Value(value, truthy))]) == Success(value)
  {
    var hole, params := Placeholder(key), [(key, Value(value, truthy))];
    PlaceholderIsPlain(key);
    AnyValueComesThrough(hole, params);
    ReplaceAtHole(key, "", key, value);
    assert hole + "" == hole && Replace("", hole, value) == "" && value + "" == value;
    assert Replace(hole, hole, value) == value;
    assert params[1..] == [] && params[0] == (key, Value(value, truthy));
    assert ReplaceAll(hole, params) == ReplaceAll(value, []);
  }

  /** A parameter that is None takes its placeholder away. */
  lemma NullTakesPlaceholderAway(key: string)
    requires NoBraces(key) && forall c :: c in key ==> !IsLineEnd(c)
    ensures Applied(Placeholder(key), [(key, Null)]) == Success("")
  {
    var hole, params := Placeholder(key), [(key, Null)];
    PlaceholderIsPlain(key);
    AnyValueComesThrough(hole, params);
    ReplaceAtHole(key, "", key, "");
    assert hole + "" == hole && Replace("", hole, "") == "" && "" + "" == "";
    assert Replace(hole, hole, "") == "";
    assert params[1..] == [] && params[0] == (key, Null);
    assert ReplaceAll(hole, params) == ReplaceAll("", []);
  }

  lemma {:induction false} OneLineWithEnd(s: string, rest: string)
    requires forall c :: c in s ==> !IsLineEnd(c)
    ensures LineLength(s + "\n" + rest) == |s| + 1
  {
    var text := s + "\n" + rest;
    if s != "" {
      assert s[0] in s && text[1..] == s[1..] + "\n" + rest;
      assert forall c :: c in s[1..] ==> c in s;
      OneLineWithEnd(s[1..], rest);
    }
  }

  /** A line that closes nothing is rejected at the head of any query. */
  lemma StrayDirectiveIsRejected(s: string, query: string, params: Params)
    requires (forall c :: c in s ==> !IsLineEnd(c)) && Classify(s + "\n") in {EndIf, Else}
    ensures Applied(s + "\n" + query, params).Failure?
  {
    var text, line := s + "\n" + query, s + "\n";
    OneLineWithEnd(s, query);
    assert text[..|line|] == line && text[|line|..] == query;
    assert SplitLines(text) == [line] + SplitLines(query);
    assert Tokens(SplitLines(text))[0] == Classify(line);
  }

  /**
   The contrast: the same line is rejected in front of a query without directives, and changes
   nothing as a part of its values.
   */
  lemma DirectiveInAValueIsText(s: string, query: string, params: Params, others: Params)
    requires (forall c :: c in s ==> !IsLineEnd(c)) && Classify(s + "\n") in {EndIf, Else} && NoDirectives(query)
    ensures Applied(s + "\n" + query, params).Failure?
    ensures forall key, before, after, truthy ::
              var carrying := [(key, Value(before + s + "\n" + after, truthy))] + others;
              Applied(query, carrying) == Success(ReplaceAll(query, carrying))
  {
    StrayDirectiveIsRejected(s, query, params);
    forall key, before, after, truthy
      ensures var carrying := [(key, Value(before + s + "\n" + after, truthy))] + others;
              Applied(query, carrying) == Success(ReplaceAll(query, carrying))
    {
      AnyValueComesThrough(query, [(key, Value(before + s + "\n" + after, truthy))] + others);
    }
  }
}
