/**
 Which lines are directives: exactly those that match the pattern of two dashes, spaces, "TG-"
 with IF, ELSE or ENDIF, optionally spaces and one word, and spaces up to the end of the line.
 */
module SqlDirectives {
  import opened Wrappers
  import opened SqlConditionals

  predicate Spaces(s: string) { forall c :: c in s ==> IsSpace(c) }

  predicate Word(s: string) { s != "" && forall c :: c in s ==> IsWordChar(c) }

  /** What may follow the keyword, with the word in it if there is one. */
  predicate Tail(s: string, variable: Option<string>) {
    match variable
    case None => Spaces(s)
    case Some(word) =>
      Word(word) && exists n, m :: 0 < n <= m <= |s| && Spaces(s[..n]) && s[n..m] == word && Spaces(s[m..])
  }

  /** A line with a keyword of the pattern. */
  predicate Matches(line: string, keyword: string, variable: Option<string>) {
    exists n :: 2 < n <= |line| && line[..2] == "--" && Spaces(line[2..n])
      && "TG-" + keyword <= line[n..] && Tail(line[n + |"TG-" + keyword|..], variable)
  }

  /** Where the spaces at the front end. */
  lemma {:induction false} SkipSpacesIs(s: string, n: nat)
    requires n <= |s| && Spaces(s[..n]) && (n == |s| || !IsSpace(s[n]))
    ensures SkipSpaces(s) == s[n..]
  {
    if n > 0 {
      assert s[0] in s[..n] && s[..n][1..] == s[1..][..n - 1];
      assert forall c :: c in s[1..][..n - 1] ==> c in s[..n];
      SkipSpacesIs(s[1..], n - 1);
    }
  }

  lemma {:induction false} SkippedSpaces(s: string) returns (n: nat)
    ensures n <= |s| && Spaces(s[..n]) && (n == |s| || !IsSpace(s[n])) && SkipSpaces(s) == s[n..]
  {
    n := 0;
    if s != "" && IsSpace(s[0]) {
      var m := SkippedSpaces(s[1..]);
      n := m + 1;
      assert s[..n] == [s[0]] + s[1..][..m];
    }
  }

  lemma {:induction false} WordLengthIs(s: string)
    ensures var n := WordLength(s);
            (forall c :: c in s[..n] ==> IsWordChar(c)) && (n == |s| || !IsWordChar(s[n]))
  {
    if s != "" && IsWordChar(s[0]) {
      WordLengthIs(s[1..]);
      var n := WordLength(s);
      assert s[..n] == [s[0]] + s[1..][..n - 1];
    }
  }

  lemma {:induction false} WordLengthOf(s: string, n: nat)
    requires n <= |s| && (forall c :: c in s[..n] ==> IsWordChar(c)) && (n == |s| || !IsWordChar(s[n]))
    ensures WordLength(s) == n
  {
    if n > 0 {
      assert s[0] in s[..n];
      assert forall c :: c in s[1..][..n - 1] ==> c in s[..n] by {
        assert s[..n] == [s[0]] + s[1..][..n - 1];
      }
      WordLengthOf(s[1..], n - 1);
    }
  }

  lemma AllSpacesSkipped(s: string)
    ensures SkipSpaces(s) == "" <==> Spaces(s)
  {
    var n := SkippedSpaces(s);
    if n < |s| {
      assert s[n] in s;
    } else {
      assert s[..n] == s;
    }
  }

  lemma SpacesThenWord(s: string, n: nat, word: string, rest: string)
    requires n <= |s| && Spaces(s[..n]) && s[n..] == word + rest && Word(word)
    ensures SkipSpaces(s) == word + rest
  {
    assert s[n] == s[n..][0] == word[0] && word[0] in word;
    SkipSpacesIs(s, n);
  }

  lemma WordThenSpaces(word: string, rest: string)
    requires Word(word) && Spaces(rest)
    ensures WordLength(word + rest) == |word|
  {
    var s := word + rest;
    assert s[..|word|] == word;
    if rest != "" {
      assert s[|word|] == rest[0] && rest[0] in rest;
    }
    WordLengthOf(s, |word|);
  }

  lemma TailIsMatched(s: string, variable: Option<string>)
    requires Tail(s, variable)
    ensures DirectiveTail(s) == Some(variable)
  {
    match variable {
      case None => AllSpacesSkipped(s);
      case Some(word) =>
        var n, m :| 0 < n <= m <= |s| && Spaces(s[..n]) && s[n..m] == word && Spaces(s[m..]);
        var rest := s[m..];
        assert s[n..] == word + rest;
        SpacesThenWord(s, n, word, rest);
        WordThenSpaces(word, rest);
        assert (word + rest)[..|word|] == word && (word + rest)[|word|..] == rest;
        AllSpacesSkipped(rest);
    }
  }

  lemma MatchedTail(s: string, variable: Option<string>)
    requires DirectiveTail(s) == Some(variable)
    ensures Tail(s, variable)
  {
    AllSpacesSkipped(s);
    if SkipSpaces(s) != "" {
      var n := SkippedSpaces(s);
      var rest := s[n..];
      var k := WordLength(rest);
      WordLengthIs(rest);
      AllSpacesSkipped(rest[k..]);
      assert s[n..n + k] == rest[..k] && s[n + k..] == rest[k..];
    }
  }

  /** The reading of what follows the keyword finds exactly what the pattern admits, in one way only. */
  lemma TailIff(s: string, variable: Option<string>)
    ensures DirectiveTail(s) == Some(variable) <==> Tail(s, variable)
  {
    if Tail(s, variable) {
      TailIsMatched(s, variable);
    }
    if DirectiveTail(s) == Some(variable) {
      MatchedTail(s, variable);
    }
  }

  function Directive(keyword: string, variable: Option<string>): Line
    requires keyword in ["IF", "ELSE", "ENDIF"]
  {
    if keyword == "IF" then If(variable) else if keyword == "ELSE" then Else else EndIf
  }

  lemma KeywordIs(s: string, keyword: string)
    requires keyword in ["IF", "ELSE", "ENDIF"] && keyword <= s
    ensures DirectiveKeyword(s) ==
            match DirectiveTail(s[|keyword|..]) case Some(v) => Some(Directive(keyword, v)) case None => None
  {
    assert s[0] == keyword[0] && s[1] == keyword[1];
  }

  lemma MarkedBody(line: string, n: nat)
    requires 2 < n <= |line| && line[..2] == "--" && Spaces(line[2..n]) && "TG-" <= line[n..]
    ensures Classify(line) == match DirectiveKeyword(line[n..][3..]) case Some(directive) => directive case None => Text(line)
  {
    var after := line[2..];
    assert "--" <= line && after[..n - 2] == line[2..n] && after[n - 2..] == line[n..];
    assert line[n..][0] == 'T' && after[n - 2] == 'T';
    SkipSpacesIs(after, n - 2);
  }

  lemma MarkedText(line: string, n: nat, keyword: string)
    requires 2 < n <= |line| && line[..2] == "--" && Spaces(line[2..n]) && "TG-" + keyword <= line[n..]
    requires keyword in ["IF", "ELSE", "ENDIF"]
    ensures Classify(line) ==
            match DirectiveTail(line[n + |"TG-" + keyword|..]) case Some(v) => Directive(keyword, v) case None => Text(line)
  {
    var body, marked := line[n..], "TG-" + keyword;
    assert marked[..3] == "TG-" && marked[3..] == keyword;
    assert body == marked + body[|marked|..];
    assert body[..3] == "TG-" && body[3..] == keyword + body[|marked|..];
    MarkedBody(line, n);
    KeywordIs(body[3..], keyword);
    assert body[3..][|keyword|..] == line[n + |marked|..];
  }

  lemma MatchedIsDirective(line: string, keyword: string, variable: Option<string>)
    requires keyword in ["IF", "ELSE", "ENDIF"] && Matches(line, keyword, variable)
    ensures Classify(line) == Directive(keyword, variable)
  {
    var n :| 2 < n <= |line| && line[..2] == "--" && Spaces(line[2..n])
             && "TG-" + keyword <= line[n..] && Tail(line[n + |"TG-" + keyword|..], variable);
    MarkedText(line, n, keyword);
    TailIff(line[n + |"TG-" + keyword|..], variable);
  }

  lemma DirectiveIsMarked(line: string) returns (n: nat)
    requires !Classify(line).Text?
    ensures 2 < n <= |line| && line[..2] == "--" && Spaces(line[2..n]) && "TG-" <= line[n..]
    ensures DirectiveKeyword(line[n..][3..]) == Some(Classify(line))
  {
    var after := line[2..];
    var k := SkippedSpaces(after);
    n := k + 2;
    assert after[k..] == line[n..] && after[..k] == line[2..n];
  }

  lemma KeywordOf(s: string) returns (keyword: string)
    requires DirectiveKeyword(s).Some?
    ensures keyword in ["IF", "ELSE", "ENDIF"] && keyword <= s && DirectiveTail(s[|keyword|..]).Some?
    ensures DirectiveKeyword(s) == Some(Directive(keyword, DirectiveTail(s[|keyword|..]).value))
  {
    keyword := if "IF" <= s then "IF" else if "ELSE" <= s then "ELSE" else "ENDIF";
  }

  lemma DirectiveIsMatched(line: string) returns (keyword: string, variable: Option<string>)
    requires !Classify(line).Text?
    ensures keyword in ["IF", "ELSE", "ENDIF"] && Matches(line, keyword, variable)
    ensures Classify(line) == Directive(keyword, variable)
  {
    var n := DirectiveIsMarked(line);
    var body := line[n..];
    keyword := KeywordOf(body[3..]);
    variable := DirectiveTail(body[3..][|keyword|..]).value;
    TailIff(body[3..][|keyword|..], variable);
    MarkedPrefix(body, keyword);
    assert body[3..][|keyword|..] == line[n + |"TG-" + keyword|..];
  }

  lemma MarkedPrefix(body: string, keyword: string)
    requires "TG-" <= body && keyword <= body[3..]
    ensures "TG-" + keyword <= body
  {
    assert body == "TG-" + body[3..];
  }

  /** A line is a directive if and only if it matches the pattern, and it is the one that the pattern names. */
  lemma DirectiveIffMatches(line: string, keyword: string, variable: Option<string>)
    requires keyword in ["IF", "ELSE", "ENDIF"]
    ensures Matches(line, keyword, variable) ==> Classify(line) == Directive(keyword, variable)
    ensures Classify(line).Text? <==> forall k, v :: k in ["IF", "ELSE", "ENDIF"] ==> !Matches(line, k, v)
    ensures Classify(line).Text? ==> Classify(line).text == line
  {
    forall k, v | k in ["IF", "ELSE", "ENDIF"] && Matches(line, k, v) ensures !Classify(line).Text? {
      MatchedIsDirective(line, k, v);
    }
    if Matches(line, keyword, variable) {
      MatchedIsDirective(line, keyword, variable);
    }
    if !Classify(line).Text? {
      var k, v := DirectiveIsMatched(line);
    }
    ClassifyKeepsText(line);
  }
}
