/**
 Conditional sections of SQL templates: lines of the form "-- TG-IF name", "-- TG-ELSE"
 and "-- TG-ENDIF" switch the lines between them on and off.
 */
module SqlConditionals {
  import opened Wrappers

  /** A template parameter: its text form and its truth value. Absent means None in the source. */
  datatype Value = Null | Value(text: string, truthy: bool)

  type Params = seq<(string, Value)>

  datatype TemplateError = ConditionalMisused

  datatype Line = Text(text: string) | If(variable: Option<string>) | Else | EndIf

  predicate IsSpace(c: char) {
    var code := c as int;
    9 <= code <= 13 || 28 <= code <= 32
  }

  predicate IsWordChar(c: char) {
    'a' <= c <= 'z' || 'A' <= c <= 'Z' || '0' <= c <= '9' || c == '_'
  }

  function SkipSpaces(s: string): (rest: string)
    ensures |rest| <= |s|
  {
    if s != "" && IsSpace(s[0]) then SkipSpaces(s[1..]) else s
  }

  function WordLength(s: string): (n: nat)
    ensures n <= |s|
  {
    if s != "" && IsWordChar(s[0]) then 1 + WordLength(s[1..]) else 0
  }

  /** What follows the keyword: spaces only, or spaces, one word and spaces. */
  function DirectiveTail(s: string): Option<Option<string>> {
    var rest := SkipSpaces(s);
    if rest == "" then Some(None)
    else if |rest| == |s| then None
    else
      var n := WordLength(rest);
      if n > 0 && SkipSpaces(rest[n..]) == "" then Some(Some(rest[..n])) else None
  }

  function DirectiveKeyword(s: string): Option<Line> {
    if "IF" <= s then
      match DirectiveTail(s[2..]) case Some(v) => Some(If(v)) case None => None
    else if "ELSE" <= s then
      match DirectiveTail(s[4..]) case Some(_) => Some(Else) case None => None
    else if "ENDIF" <= s then
      match DirectiveTail(s[5..]) case Some(_) => Some(EndIf) case None => None
    else None
  }

  /** Matching one line against the directive pattern. */
  function Classify(line: string): Line {
    if !("--" <= line) then Text(line) else
    var afterDashes := line[2..];
    var body := SkipSpaces(afterDashes);
    if |body| == |afterDashes| || !("TG-" <= body) then Text(line) else
    match DirectiveKeyword(body[3..])
    case Some(directive) => directive
    case None => Text(line)
  }

  lemma {:induction false} WordThenNewline(word: string)
    requires forall c :: c in word ==> IsWordChar(c)
    ensures WordLength(word + "\n") == |word|
  {
    if word != "" {
      assert (word + "\n")[1..] == word[1..] + "\n";
      WordThenNewline(word[1..]);
    }
  }

  /** A word after the keyword, up to the line end, is the directive's variable. */
  lemma TailWithWord(word: string)
    requires word != "" && forall c :: c in word ==> IsWordChar(c)
    ensures DirectiveTail(" " + word + "\n") == Some(Some(word))
  {
    var tail, rest := " " + word + "\n", word + "\n";
    assert tail[1..] == rest;
    assert rest[0] == word[0] && IsWordChar(word[0]);
    assert SkipSpaces(tail) == rest;
    WordThenNewline(word);
    assert rest[|word|..] == "\n" && rest[..|word|] == word;
    assert SkipSpaces("\n") == "";
  }

  lemma KeywordRecognised(keyword: string, tail: string)
    requires keyword in ["IF", "ELSE", "ENDIF"] && DirectiveTail(tail).Some?
    ensures DirectiveKeyword(keyword + tail) ==
            Some(if keyword == "IF" then If(DirectiveTail(tail).value) else if keyword == "ELSE" then Else else EndIf)
  {
    var s := keyword + tail;
    assert s[|keyword|..] == tail;
    if keyword == "IF" {
      assert "IF" <= s;
    } else if keyword == "ELSE" {
      assert s[0] == 'E' && "ELSE" <= s;
    } else {
      assert s[0] == 'E' && s[1] == 'N' && "ENDIF" <= s;
    }
  }

  lemma MarkedLine(rest: string)
    ensures Classify("-- TG-" + rest) ==
            match DirectiveKeyword(rest) case Some(directive) => directive case None => Text("-- TG-" + rest)
  {
    var line, body := "-- TG-" + rest, "TG-" + rest;
    assert "--" <= line && line[2..] == " " + body && (" " + body)[1..] == body;
    assert body[0] == 'T' && SkipSpaces(" " + body) == body;
    assert "TG-" <= body && body[3..] == rest;
  }

  /** The directive lines as templates write them are recognised, with their variable. */
  lemma PrintedDirectivesAreRecognised(variable: string)
    requires variable != "" && forall c :: c in variable ==> IsWordChar(c)
    ensures Classify("-- TG-" + ("IF" + (" " + variable + "\n"))) == If(Some(variable))
    ensures Classify("-- TG-" + ("ELSE" + "\n")) == Else
    ensures Classify("-- TG-" + ("ENDIF" + "\n")) == EndIf
  {
    TailWithWord(variable);
    KeywordRecognised("IF", " " + variable + "\n");
    assert SkipSpaces("\n") == "";
    assert DirectiveTail("\n") == Some(None);
    KeywordRecognised("ELSE", "\n");
    KeywordRecognised("ENDIF", "\n");
    MarkedLine("IF" + (" " + variable + "\n"));
    MarkedLine("ELSE" + "\n");
    MarkedLine("ENDIF" + "\n");
  }

  predicate IsLineEnd(c: char) {
    c as int in {10, 11, 12, 13, 28, 29, 30, 0x85, 0x2028, 0x2029}
  }

  /** Length of the first line of a non-empty text, line end included. */
  function LineLength(s: string): (n: nat)
    requires s != ""
    ensures 1 <= n <= |s|
  {
    if s[0] == '\r' && |s| > 1 && s[1] == '\n' then 2
    else if IsLineEnd(s[0]) || |s| == 1 then 1
    else 1 + LineLength(s[1..])
  }

  /** A line goes up to the first line end, which belongs to it; a carriage return and a line feed are one. */
  lemma {:induction false} LineEndsAtFirst(s: string)
    requires s != ""
    ensures var n := LineLength(s);
            && (n == |s| || IsLineEnd(s[n - 1]))
            && forall i :: 0 <= i < n - 1 && IsLineEnd(s[i]) ==> i == n - 2 && s[i] == '\r' && s[n - 1] == '\n'
  {
    if !(s[0] == '\r' && |s| > 1 && s[1] == '\n') && !IsLineEnd(s[0]) && |s| > 1 {
      LineEndsAtFirst(s[1..]);
      assert forall i :: 1 <= i < |s| ==> s[i] == s[1..][i - 1];
    }
  }

  function SplitLines(s: string): seq<string>
    decreases |s|
  {
    if s == "" then [] else
    var n := LineLength(s);
    [s[..n]] + SplitLines(s[n..])
  }

  function Concat(lines: seq<string>): string {
    if lines == [] then "" else lines[0] + Concat(lines[1..])
  }

  lemma {:induction false} ConcatOfSplitLines(s: string)
    ensures Concat(SplitLines(s)) == s
    decreases |s|
  {
    if s != "" {
      var n := LineLength(s);
      ConcatOfSplitLines(s[n..]);
      assert SplitLines(s)[1..] == SplitLines(s[n..]);
    }
  }

  lemma {:induction false} ConcatSnoc(lines: seq<string>, line: string)
    ensures Concat(lines + [line]) == Concat(lines) + line
  {
    if lines == [] {
      assert [line][1..] == [];
    } else {
      ConcatSnoc(lines[1..], line);
      assert (lines + [line])[1..] == lines[1..] + [line];
    }
  }

  function Tokens(lines: seq<string>): (tokens: seq<Line>)
    ensures |tokens| == |lines|
  {
    seq(|lines|, i requires 0 <= i < |lines| => Classify(lines[i]))
  }

  /** Truth value of a parameter by name; a missing parameter is false. */
  function Truthy(params: Params, variable: string): bool {
    if params == [] then false
    else if params[0].0 == variable then params[0].1.Value? && params[0].1.truthy
    else Truthy(params[1..], variable)
  }

  predicate DistinctKeys(params: Params) {
    forall i, j :: 0 <= i < j < |params| ==> params[i].0 != params[j].0
  }

  /** A name is true exactly when a parameter of that name is given with a true value. */
  lemma {:induction false} TruthyIffGivenTrue(params: Params, variable: string)
    requires DistinctKeys(params)
    ensures Truthy(params, variable) <==>
            exists i :: 0 <= i < |params| && params[i].0 == variable && params[i].1.Value? && params[i].1.truthy
  {
    if params != [] {
      assert forall i :: 0 <= i < |params| - 1 ==> params[1..][i] == params[i + 1];
      TruthyIffGivenTrue(params[1..], variable);
    }
  }

  /** The line machine: None outside a conditional, otherwise whether lines are being kept. */
  function Fold(tokens: seq<Line>, condition: Option<bool>, params: Params): Result<seq<string>, TemplateError> {
    if tokens == [] then
      if condition.None? then Success([]) else Failure(ConditionalMisused)
    else
      var rest := tokens[1..];
      match tokens[0]
      case Text(s) =>
        (match Fold(rest, condition, params)
         case Success(out) => Success(if condition != Some(false) then [s] + out else out)
         case Failure(e) => Failure(e))
      case If(Some(v)) =>
        if condition.None? then Fold(rest, Some(Truthy(params, v)), params) else Failure(ConditionalMisused)
      case Else =>
        if condition.Some? then Fold(rest, Some(!condition.value), params) else Failure(ConditionalMisused)
      case EndIf =>
        if condition.Some? then Fold(rest, None, params) else Failure(ConditionalMisused)
      case If(None) => Failure(ConditionalMisused)
  }

  /** A structured template: plain lines, and conditional blocks with branches separated by ELSE. */
  datatype Item =
    | Plain(text: string)
    | Block(variable: string, first: seq<string>, others: seq<seq<string>>)

  function Texts(lines: seq<string>): seq<Line> {
    if lines == [] then [] else [Text(lines[0])] + Texts(lines[1..])
  }

  function PrintOthers(others: seq<seq<string>>): seq<Line> {
    if others == [] then [EndIf] else [Else] + Texts(others[0]) + PrintOthers(others[1..])
  }

  function Print(items: seq<Item>): seq<Line> {
    if items == [] then [] else
    (match items[0]
     case Plain(s) => [Text(s)]
     case Block(v, first, others) => [If(Some(v))] + Texts(first) + PrintOthers(others))
    + Print(items[1..])
  }

  /** Alternate branches are kept: each ELSE toggles. */
  function RenderOthers(others: seq<seq<string>>, kept: bool): seq<string> {
    if others == [] then [] else (if kept then others[0] else []) + RenderOthers(others[1..], !kept)
  }

  function Render(items: seq<Item>, params: Params): seq<string> {
    if items == [] then [] else
    (match items[0]
     case Plain(s) => [s]
     case Block(v, first, others) =>
       var kept := Truthy(params, v);
       (if kept then first else []) + RenderOthers(others, !kept))
    + Render(items[1..], params)
  }

  function Prepend(lines: seq<string>, r: Result<seq<string>, TemplateError>): Result<seq<string>, TemplateError> {
    match r
    case Success(out) => Success(lines + out)
    case Failure(e) => Failure(e)
  }

  lemma PrependTwice(a: seq<string>, b: seq<string>, r: Result<seq<string>, TemplateError>)
    ensures Prepend(a, Prepend(b, r)) == Prepend(a + b, r)
    ensures Prepend([], r) == r
  {
    if r.Success? {
      assert a + (b + r.value) == (a + b) + r.value && [] + r.value == r.value;
    }
  }

  lemma FoldText(line: string, rest: seq<Line>, condition: Option<bool>, params: Params)
    ensures Fold([Text(line)] + rest, condition, params) ==
            Prepend(if condition != Some(false) then [line] else [], Fold(rest, condition, params))
  {
    var all := [Text(line)] + rest;
    assert all[0] == Text(line) && all[1..] == rest;
    PrependTwice([], [], Fold(rest, condition, params));
  }

  lemma {:induction false} FoldTexts(lines: seq<string>, rest: seq<Line>, condition: Option<bool>, params: Params)
    ensures Fold(Texts(lines) + rest, condition, params) ==
            Prepend(if condition != Some(false) then lines else [], Fold(rest, condition, params))
  {
    var r := Fold(rest, condition, params);
    if lines == [] {
      assert Texts(lines) + rest == rest;
      PrependTwice([], [], r);
    } else {
      var more := Texts(lines[1..]) + rest;
      assert Texts(lines) + rest == [Text(lines[0])] + more;
      FoldTexts(lines[1..], rest, condition, params);
      FoldText(lines[0], more, condition, params);
      if condition != Some(false) {
        PrependTwice([lines[0]], lines[1..], r);
        assert [lines[0]] + lines[1..] == lines;
      } else {
        PrependTwice([], [], r);
      }
    }
  }

  lemma {:induction false} FoldOthers(others: seq<seq<string>>, rest: seq<Line>, kept: bool, params: Params)
    ensures Fold(PrintOthers(others) + rest, Some(!kept), params) ==
            Prepend(RenderOthers(others, kept), Fold(rest, None, params))
  {
    var tokens := PrintOthers(others) + rest;
    var r := Fold(rest, None, params);
    if others == [] {
      assert tokens[1..] == rest;
      PrependTwice([], [], r);
    } else {
      var tail := PrintOthers(others[1..]) + rest;
      assert tokens[1..] == Texts(others[0]) + tail;
      FoldTexts(others[0], tail, Some(kept), params);
      FoldOthers(others[1..], rest, !kept, params);
      PrependTwice(if kept then others[0] else [], RenderOthers(others[1..], !kept), r);
    }
  }

  lemma FoldBlock(v: string, first: seq<string>, others: seq<seq<string>>, tail: seq<Line>, params: Params)
    ensures var kept := Truthy(params, v);
            Fold([If(Some(v))] + Texts(first) + PrintOthers(others) + tail, None, params) ==
            Prepend((if kept then first else []) + RenderOthers(others, !kept), Fold(tail, None, params))
  {
    var kept := Truthy(params, v);
    var tokens := [If(Some(v))] + Texts(first) + PrintOthers(others) + tail;
    assert tokens[1..] == Texts(first) + (PrintOthers(others) + tail);
    FoldTexts(first, PrintOthers(others) + tail, Some(kept), params);
    FoldOthers(others, tail, !kept, params);
    PrependTwice(if kept then first else [], RenderOthers(others, !kept), Fold(tail, None, params));
  }

  /** Running the line machine on a printed template renders its block structure. */
  lemma {:induction false} FoldRenders(items: seq<Item>, params: Params)
    ensures Fold(Print(items), None, params) == Success(Render(items, params))
  {
    if items != [] {
      FoldRenders(items[1..], params);
      var tail := Print(items[1..]);
      match items[0] {
        case Plain(s) =>
          assert Print(items)[1..] == tail;
        case Block(v, first, others) =>
          FoldBlock(v, first, others, tail, params);
      }
    }
  }

  /**
   A block with an alternative: its first branch is kept exactly when the variable is given with
   a true value, and its second exactly when it is not.
   */
  lemma OneBranchIsKept(v: string, first: seq<string>, other: seq<string>, params: Params)
    requires DistinctKeys(params)
    ensures var given := exists i :: 0 <= i < |params| && params[i].0 == v && params[i].1.Value? && params[i].1.truthy;
            var printed := [If(Some(v))] + Texts(first) + ([Else] + Texts(other) + [EndIf]);
            Fold(printed, None, params) == Success(if given then first else other)
  {
    TruthyIffGivenTrue(params, v);
    FoldBlock(v, first, [other], [], params);
    assert [other][1..] == [] && PrintOthers([]) == [EndIf];
    assert PrintOthers([other]) == [Else] + Texts(other) + [EndIf];
    var printed := [If(Some(v))] + Texts(first) + PrintOthers([other]);
    assert printed + [] == printed;
    assert RenderOthers([other], true) == other + RenderOthers([], false) && RenderOthers([other], false) == [] + RenderOthers([], true);
    assert first + [] == first && [] + other == other && other + [] == other;
  }

  /** Whatever the line machine accepts outside a block is a printed template. */
  lemma {:induction false} ParseOutside(tokens: seq<Line>, params: Params) returns (items: seq<Item>)
    requires Fold(tokens, None, params).Success?
    ensures tokens == Print(items)
    decreases |tokens|
  {
    if tokens == [] {
      return [];
    }
    match tokens[0] {
      case Text(s) =>
        var rest := ParseOutside(tokens[1..], params);
        items := [Plain(s)] + rest;
      case If(Some(v)) =>
        var first, others, rest := ParseInside(tokens[1..], Truthy(params, v), params);
        items := [Block(v, first, others)] + rest;
    }
    assert items[1..] + [] == items[1..];
  }

  lemma PrintedText(s: string, lines: seq<string>, rest: seq<Line>)
    ensures Texts([s] + lines) + rest == [Text(s)] + (Texts(lines) + rest)
  {
    assert ([s] + lines)[1..] == lines;
  }

  lemma PrintedElse(lines: seq<string>, others: seq<seq<string>>, rest: seq<Line>)
    ensures PrintOthers([lines] + others) + rest == [Else] + (Texts(lines) + PrintOthers(others) + rest)
  {
    assert ([lines] + others)[1..] == others;
  }

  lemma {:induction false} ParseInside(tokens: seq<Line>, kept: bool, params: Params)
    returns (first: seq<string>, others: seq<seq<string>>, items: seq<Item>)
    requires Fold(tokens, Some(kept), params).Success?
    ensures tokens == Texts(first) + PrintOthers(others) + Print(items)
    decreases |tokens|
  {
    assert tokens == [tokens[0]] + tokens[1..];
    match tokens[0] {
      case Text(s) =>
        var f: seq<string>;
        f, others, items := ParseInside(tokens[1..], kept, params);
        first := [s] + f;
        PrintedText(s, f, PrintOthers(others) + Print(items));
      case Else =>
        var f, o, i := ParseInside(tokens[1..], !kept, params);
        first, others, items := [], [f] + o, i;
        PrintedElse(f, o, Print(items));
      case EndIf =>
        first, others := [], [];
        items := ParseOutside(tokens[1..], params);
    }
  }

  /**
   Main result: the accepted line sequences are exactly the printed templates, whatever
   the parameters; every other use of the directives (nesting, a stray ELSE or ENDIF,
   IF without a name, an unclosed IF) is rejected.
   */
  lemma AcceptsExactlyTemplates(tokens: seq<Line>, params: Params)
    ensures Fold(tokens, None, params).Success? <==> exists items :: tokens == Print(items)
  {
    if Fold(tokens, None, params).Success? {
      var items := ParseOutside(tokens, params);
    }
    if items :| tokens == Print(items) {
      FoldRenders(items, params);
    }
  }

  function ConcatResult(r: Result<seq<string>, TemplateError>): Result<string, TemplateError> {
    match r
    case Success(out) => Success(Concat(out))
    case Failure(e) => Failure(e)
  }

  method ProcessConditionals(query: string, params: Params) returns (r: Result<string, TemplateError>)
    ensures r == ConcatResult(Fold(Tokens(SplitLines(query)), None, params))
  {
    var lines := SplitLines(query);
    ghost var tokens := Tokens(lines);
    var condition: Option<bool> := None;
    var updatedQuery: seq<string> := [];
    PrependTwice([], [], Fold(tokens, None, params));
    for i := 0 to |lines|
      invariant Fold(tokens, None, params) == Prepend(updatedQuery, Fold(tokens[i..], condition, params))
    {
      assert tokens[i..][1..] == tokens[i + 1..];
      match Classify(lines[i]) {
        case Text(line) =>
          if condition != Some(false) {
            PrependTwice(updatedQuery, [line], Fold(tokens[i + 1..], condition, params));
            updatedQuery := updatedQuery + [line];
          }
        case If(Some(variable)) =>
          if condition.Some? {
            return Failure(ConditionalMisused);
          }
          condition := Some(Truthy(params, variable));
        case Else =>
          if condition.None? {
            return Failure(ConditionalMisused);
          }
          condition := Some(!condition.value);
        case EndIf =>
          if condition.None? {
            return Failure(ConditionalMisused);
          }
          condition := None;
        case If(None) =>
          return Failure(ConditionalMisused);
      }
    }
    if condition.Some? {
      return Failure(ConditionalMisused);
    }
    assert updatedQuery + [] == updatedQuery;
    return Success(Concat(updatedQuery));
  }

  lemma {:induction false} ClassifyKeepsText(line: string)
    ensures Classify(line).Text? ==> Classify(line).text == line
  {
  }

  lemma {:induction false} FoldOfPlainLines(lines: seq<string>, params: Params)
    requires forall line :: line in lines ==> Classify(line).Text?
    ensures Fold(Tokens(lines), None, params) == Success(lines)
  {
    if lines != [] {
      FoldOfPlainLines(lines[1..], params);
      assert lines[0] in lines;
      ClassifyKeepsText(lines[0]);
      assert Tokens(lines)[1..] == Tokens(lines[1..]);
      assert [lines[0]] + lines[1..] == lines;
    }
  }

  /** A query without directives comes out unchanged, character by character. */
  lemma PlainQueryUnchanged(query: string, params: Params)
    requires forall line :: line in SplitLines(query) ==> Classify(line).Text?
    ensures ConcatResult(Fold(Tokens(SplitLines(query)), None, params)) == Success(query)
  {
    FoldOfPlainLines(SplitLines(query), params);
    ConcatOfSplitLines(query);
  }
}
