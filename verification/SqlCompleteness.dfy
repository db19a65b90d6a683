/**
 When no placeholder of a supplied key is left in the text that comes out. A placeholder can
 come in with a value, or be assembled around one; both are decided exactly.
 */
module SqlCompleteness {
  import opened SqlConditionals
  import opened SqlParams

  predicate OccursAt(s: string, part: string, a: nat) {
    a + |part| <= |s| && s[a..a + |part|] == part
  }

  predicate Occurs(s: string, part: string) {
    exists a: nat :: a <= |s| && OccursAt(s, part, a)
  }

  /** The placeholder of some supplied key is left in a text. */
  predicate LeavesPlaceholder(s: string, params: Params) {
    exists i :: 0 <= i < |params| && Occurs(s, Placeholder(params[i].0))
  }

  /** One pass over a text leaves the placeholder of no supplied key. */
  predicate Complete(s: string, params: Params) { !LeavesPlaceholder(ReplaceAll(s, params), params) }

  /** The keys are distinct, as in a dictionary, and hold no braces. Nothing is asked of the values. */
  predicate PlainKeys(params: Params) {
    && (forall i :: 0 <= i < |params| ==> NoBraces(params[i].0))
    && (forall i, j :: 0 <= i < j < |params| ==> params[i].0 != params[j].0)
  }

  /** The value, laid at offset d of the pattern, agrees with it wherever the two overlap. */
  predicate AgreesAt(value: string, pattern: string, d: int) {
    forall t :: 0 <= t < |pattern| && d <= t < d + |value| ==> pattern[t] == value[t - d]
  }

  /**
   The value can help to spell the pattern: somewhere it overlaps the pattern and agrees with
   it, or, being empty, falls strictly inside it.
   */
  predicate Touches(value: string, pattern: string) {
    exists d: int :: -|value| < d < |pattern| && AgreesAt(value, pattern, d)
  }

  /** No value helps to spell the placeholder of its own or an earlier key. */
  predicate Clear(params: Params) {
    forall i, j :: 0 <= i <= j < |params| ==> !Touches(ValueText(params[j].1), Placeholder(params[i].0))
  }

  // ---------- A replacement spells nothing new unless its value touches ----------

  lemma TouchesAt(value: string, pattern: string, d: int)
    requires -|value| < d < |pattern| && AgreesAt(value, pattern, d)
    ensures Touches(value, pattern)
  {
  }

  /** A text that starts with a value and spells part of the pattern there. */
  lemma ValueSpells(value: string, rest: string, pattern: string, d: int, a: nat)
    requires -|value| < d < |pattern| && (d > 0 ==> a == 0) && (d <= 0 ==> a == -d)
    requires var m := if d > 0 then d else 0; a <= |value + rest| && pattern[m..] <= (value + rest)[a..]
    ensures Touches(value, pattern)
  {
    var out, m := value + rest, if d > 0 then d else 0;
    forall t | 0 <= t < |pattern| && d <= t < d + |value| ensures pattern[t] == value[t - d] {
      assert pattern[m..][t - m] == out[a..][t - m] == out[t - d];
    }
    TouchesAt(value, pattern, d);
  }

  lemma {:induction false} SuffixWasThere(s: string, key: string, value: string, pattern: string, m: nat)
    requires 0 < m <= |pattern| && pattern[m..] <= Replace(s, Placeholder(key), value)
    ensures pattern[m..] <= s || Touches(value, pattern)
    decreases |s|
  {
    var hole := Placeholder(key);
    if m < |pattern| && |s| >= |hole| {
      var out := Replace(s, hole, value);
      if hole <= s {
        var rest := Replace(s[|hole|..], hole, value);
        assert out[0..] == out == value + rest;
        ValueSpells(value, rest, pattern, m, 0);
      } else {
        var rest := Replace(s[1..], hole, value);
        assert out == [s[0]] + rest && out[1..] == rest;
        assert pattern[m..] == [pattern[m]] + pattern[m + 1..];
        assert out[..|pattern| - m] == pattern[m..];
        assert rest[..|pattern| - m - 1] == pattern[m + 1..];
        SuffixWasThere(s[1..], key, value, pattern, m + 1);
        assert s == [s[0]] + s[1..];
      }
    }
  }

  lemma OccursLater(s: string, part: string, n: nat)
    requires n <= |s| && Occurs(s[n..], part)
    ensures Occurs(s, part)
  {
    var a: nat :| a <= |s[n..]| && OccursAt(s[n..], part, a);
    assert s[n..][a..a + |part|] == s[n + a..n + a + |part|];
    assert OccursAt(s, part, n + a);
  }

  /** What occurs after a replacement occurred before, is not the replaced placeholder, or the value touches it. */
  lemma {:induction false} OccurrenceWasThere(s: string, key: string, value: string, pattern: string, a: nat)
    requires |pattern| > 0 && OccursAt(Replace(s, Placeholder(key), value), pattern, a)
    ensures (Occurs(s, pattern) && pattern != Placeholder(key)) || Touches(value, pattern)
    decreases |s|
  {
    var hole := Placeholder(key);
    var out := Replace(s, hole, value);
    if |s| < |hole| {
      assert OccursAt(s, pattern, a) && a <= |s|;
    } else if hole <= s {
      var rest := Replace(s[|hole|..], hole, value);
      assert out == value + rest;
      if a < |value| {
        assert out[a..][..|pattern|] == pattern && pattern[0..] == pattern;
        ValueSpells(value, rest, pattern, 0 - a, a);
      } else {
        assert out[a..a + |pattern|] == rest[a - |value|..a - |value| + |pattern|];
        OccurrenceWasThere(s[|hole|..], key, value, pattern, a - |value|);
        if Occurs(s[|hole|..], pattern) { OccursLater(s, pattern, |hole|); }
      }
    } else {
      var rest := Replace(s[1..], hole, value);
      assert out == [s[0]] + rest;
      if a > 0 {
        assert out[a..a + |pattern|] == rest[a - 1..a - 1 + |pattern|];
        OccurrenceWasThere(s[1..], key, value, pattern, a - 1);
        if Occurs(s[1..], pattern) { OccursLater(s, pattern, 1); }
      } else {
        assert pattern == [out[0]] + out[1..|pattern|] && out[1..|pattern|] == rest[..|pattern| - 1];
        assert pattern[1..] <= rest;
        SuffixWasThere(s[1..], key, value, pattern, 1);
        if pattern[1..] <= s[1..] {
          assert s == [s[0]] + s[1..] && pattern == [s[0]] + pattern[1..];
          assert OccursAt(s, pattern, 0);
        }
      }
    }
  }

  lemma NothingNew(s: string, key: string, value: string, pattern: string)
    requires |pattern| > 0 && Occurs(Replace(s, Placeholder(key), value), pattern)
    ensures (Occurs(s, pattern) && pattern != Placeholder(key)) || Touches(value, pattern)
  {
    var out := Replace(s, Placeholder(key), value);
    var a: nat :| a <= |out| && OccursAt(out, pattern, a);
    OccurrenceWasThere(s, key, value, pattern, a);
  }

  /** A pattern that is absent and that no value touches stays absent. */
  lemma {:induction false} StaysAway(s: string, params: Params, pattern: string)
    requires |pattern| > 0 && Occurs(ReplaceAll(s, params), pattern)
    ensures Occurs(s, pattern) || exists j :: 0 <= j < |params| && Touches(ValueText(params[j].1), pattern)
    decreases |params|
  {
    if params != [] {
      var value := ValueText(params[0].1);
      StaysAway(Replace(s, Placeholder(params[0].0), value), params[1..], pattern);
      if j :| 0 <= j < |params| - 1 && Touches(ValueText(params[1..][j].1), pattern) {
        assert params[1..][j] == params[j + 1];
      } else {
        NothingNew(s, params[0].0, value, pattern);
      }
    }
  }

  /** A placeholder left over was touched by the value of its own or a later key. */
  lemma {:induction false} LeftOverWasTouched(s: string, params: Params, i: nat)
    requires i < |params| && Occurs(ReplaceAll(s, params), Placeholder(params[i].0))
    ensures exists j :: i <= j < |params| && Touches(ValueText(params[j].1), Placeholder(params[i].0))
    decreases |params|
  {
    var hole, value := Placeholder(params[i].0), ValueText(params[0].1);
    var next := Replace(s, Placeholder(params[0].0), value);
    if i > 0 {
      assert params[1..][i - 1] == params[i];
      LeftOverWasTouched(next, params[1..], i - 1);
      var j :| i - 1 <= j < |params| - 1 && Touches(ValueText(params[1..][j].1), hole);
      assert params[1..][j] == params[j + 1];
    } else {
      StaysAway(next, params[1..], hole);
      if j :| 0 <= j < |params| - 1 && Touches(ValueText(params[1..][j].1), hole) {
        assert params[1..][j] == params[j + 1];
      } else {
        NothingNew(s, params[0].0, value, hole);
        assert Touches(ValueText(params[0].1), hole);
      }
    }
  }

  // ---------- A value that touches leaves a placeholder in some text ----------

  /** A text without the pattern is left alone. */
  lemma {:induction false} AbsentIsUntouched(s: string, key: string, value: string)
    requires !Occurs(s, Placeholder(key))
    ensures Replace(s, Placeholder(key), value) == s
    decreases |s|
  {
    var hole := Placeholder(key);
    if |s| >= |hole| {
      assert hole <= s ==> OccursAt(s, hole, 0);
      assert Occurs(s[1..], hole) ==> Occurs(s, hole) by {
        if Occurs(s[1..], hole) { OccursLater(s, hole, 1); }
      }
      AbsentIsUntouched(s[1..], key, value);
    }
  }

  lemma OccursSplit(s: string, part: string, a: nat)
    requires OccursAt(s, part, a)
    ensures s == s[..a] + (part + s[a + |part|..])
  {
  }

  lemma OccursIn(before: string, part: string, after: string)
    ensures Occurs(before + (part + after), part)
  {
    var s := before + (part + after);
    assert s[|before|..|before| + |part|] == part;
    assert OccursAt(s, part, |before|);
  }

  /** The braces of a placeholder are its first and its last character. */
  lemma PlaceholderBraces(key: string)
    requires NoBraces(key)
    ensures forall t :: 0 <= t < |Placeholder(key)| ==> (Placeholder(key)[t] == '{' <==> t == 0)
    ensures forall t :: 0 <= t < |Placeholder(key)| ==> (Placeholder(key)[t] == '}' <==> t == |Placeholder(key)| - 1)
  {
    forall t | 0 < t < |Placeholder(key)| - 1 ensures Placeholder(key)[t] != '{' && Placeholder(key)[t] != '}' {
      assert Placeholder(key)[t] == key[t - 1] && key[t - 1] in key;
    }
  }

  lemma OccursChars(s: string, part: string, a: nat)
    requires OccursAt(s, part, a)
    ensures forall u :: a <= u < a + |part| ==> s[u] == part[u - a]
  {
    assert forall u :: a <= u < a + |part| ==> s[u] == s[a..a + |part|][u - a];
  }

  lemma StartsWithBrace(s: string, key: string, a: nat)
    requires OccursAt(s, Placeholder(key), a)
    ensures a < |s| && s[a] == '{'
  {
    OccursChars(s, Placeholder(key), a);
    assert Placeholder(key)[0] == '{';
  }

  /** Another placeholder survives a replacement. */
  lemma {:induction false} OthersSurvive(s: string, key: string, value: string, other: string, a: nat)
    requires NoBraces(key) && NoBraces(other) && key != other && OccursAt(s, Placeholder(other), a)
    ensures Occurs(Replace(s, Placeholder(key), value), Placeholder(other))
    decreases |s|
  {
    var hole, left := Placeholder(key), Placeholder(other);
    OccursSplit(s, left, a);
    if a == 0 {
      var rest := s[|left|..];
      ReplaceAtHole(other, rest, key, value);
      OccursIn("", left, Replace(rest, hole, value));
      assert "" + (left + Replace(rest, hole, value)) == left + Replace(rest, hole, value);
      assert s == left + rest;
    } else if |s| < |hole| {
      assert OccursAt(s, left, a);
    } else if hole <= s {
      PlaceholderBraces(key);
      StartsWithBrace(s, other, a);
      assert forall u :: 0 <= u < |hole| ==> s[u] == hole[u];
      assert s[a..a + |left|] == s[|hole|..][a - |hole|..a - |hole| + |left|];
      OthersSurvive(s[|hole|..], key, value, other, a - |hole|);
      var rest := Replace(s[|hole|..], hole, value);
      assert (value + rest)[|value|..] == rest;
      OccursLater(value + rest, left, |value|);
    } else {
      assert s[a..a + |left|] == s[1..][a - 1..a - 1 + |left|];
      OthersSurvive(s[1..], key, value, other, a - 1);
      var rest := Replace(s[1..], hole, value);
      assert ([s[0]] + rest)[1..] == rest;
      OccursLater([s[0]] + rest, left, 1);
    }
  }

  lemma {:induction false} SurvivesAll(s: string, params: Params, other: string)
    requires NoBraces(other) && Occurs(s, Placeholder(other))
    requires forall j :: 0 <= j < |params| ==> NoBraces(params[j].0) && params[j].0 != other
    ensures Occurs(ReplaceAll(s, params), Placeholder(other))
    decreases |params|
  {
    if params != [] {
      var a: nat :| a <= |s| && OccursAt(s, Placeholder(other), a);
      OthersSurvive(s, params[0].0, ValueText(params[0].1), other, a);
      SurvivesAll(Replace(s, Placeholder(params[0].0), ValueText(params[0].1)), params[1..], other);
    }
  }

  /** Surroundings of a placeholder: before it no closing and only a first opening brace, after it no opening brace. */
  predicate Framed(x: string, y: string) {
    && (forall t :: 0 <= t < |x| ==> x[t] != '}' && (t > 0 ==> x[t] != '{'))
    && (forall t :: 0 <= t < |y| ==> y[t] != '{')
  }

  /** Any placeholder in a framed text is where the framed one is. */
  lemma FramedPosition(x: string, key: string, y: string, other: string, a: nat)
    requires NoBraces(key) && NoBraces(other) && Framed(x, y)
    requires OccursAt(x + (Placeholder(key) + y), Placeholder(other), a)
    ensures a == |x| && key == other
  {
    var hole, left := Placeholder(key), Placeholder(other);
    var s := x + (hole + y);
    OccursChars(s, left, a);
    PlaceholderBraces(key);
    PlaceholderBraces(other);
    assert forall u :: 0 <= u < |x| ==> s[u] == x[u];
    assert forall u :: |x| <= u < |x| + |hole| ==> s[u] == hole[u - |x|];
    assert forall u :: |x| + |hole| <= u < |s| ==> s[u] == y[u - |x| - |hole|];
    assert s[a] == '{' && s[a + |left| - 1] == '}' && s[|x|] == '{';
    assert a == |x|;
    assert s[|x|..] == hole + y && left <= s[|x|..];
    PlaceholderPrefix(key, other, y);
  }

  lemma NothingOpens(y: string, key: string)
    requires forall t :: 0 <= t < |y| ==> y[t] != '{'
    ensures !Occurs(y, Placeholder(key))
  {
    if a: nat :| a <= |y| && OccursAt(y, Placeholder(key), a) {
      StartsWithBrace(y, key, a);
    }
  }

  lemma PrefixOccurs(s: string, part: string)
    requires part <= s
    ensures OccursAt(s, part, 0)
  {
  }

  /** In a framed text the placeholder is replaced and nothing else. */
  lemma {:induction false} FramedIsReplaced(x: string, key: string, y: string, value: string)
    requires NoBraces(key) && Framed(x, y)
    ensures Replace(x + (Placeholder(key) + y), Placeholder(key), value) == x + (value + y)
    decreases |x|
  {
    var hole := Placeholder(key);
    var s := x + (hole + y);
    if x == "" {
      assert s == hole + y;
      ReplaceAtHole(key, y, key, value);
      NothingOpens(y, key);
      AbsentIsUntouched(y, key, value);
    } else {
      if hole <= s {
        PrefixOccurs(s, hole);
        FramedPosition(x, key, y, key, 0);
      }
      assert s[1..] == x[1..] + (hole + y) && s[0] == x[0];
      FramedIsReplaced(x[1..], key, y, value);
      assert [x[0]] + (x[1..] + (value + y)) == x + (value + y);
    }
  }

  /** The text whose placeholder the touching value turns into another. */
  lemma TouchingText(key: string, value: string, other: string) returns (x: string, y: string)
    requires NoBraces(other) && Touches(value, Placeholder(other))
    ensures Framed(x, y) && Occurs(x + (value + y), Placeholder(other))
  {
    var left := Placeholder(other);
    var d: int :| -|value| < d < |left| && AgreesAt(value, left, d);
    x := if d > 0 then left[..d] else "";
    y := if d + |value| < |left| then left[d + |value|..] else "";
    PlaceholderBraces(other);
    assert Framed(x, y);
    var s, a := x + (value + y), if d > 0 then 0 else -d;
    assert a + |left| <= |s|;
    forall t | 0 <= t < |left| ensures s[a + t] == left[t] {
      if d <= t < d + |value| { assert s[a + t] == value[t - d]; }
    }
    assert s[a..a + |left|] == left;
    assert OccursAt(s, left, a);
  }

  lemma {:induction false} ReachedAt(x: string, y: string, params: Params, j: nat)
    requires PlainKeys(params) && j < |params| && Framed(x, y)
    ensures ReplaceAll(x + (Placeholder(params[j].0) + y), params)
         == ReplaceAll(x + (ValueText(params[j].1) + y), params[j + 1..])
    decreases |params|
  {
    var s := x + (Placeholder(params[j].0) + y);
    if j == 0 {
      FramedIsReplaced(x, params[0].0, y, ValueText(params[0].1));
    } else {
      if a: nat :| a <= |s| && OccursAt(s, Placeholder(params[0].0), a) {
        FramedPosition(x, params[j].0, y, params[0].0, a);
      }
      AbsentIsUntouched(s, params[0].0, ValueText(params[0].1));
      assert params[1..][j - 1] == params[j] && params[1..][j..] == params[j + 1..];
      ReachedAt(x, y, params[1..], j - 1);
    }
  }

  /** A text that is left with a placeholder when a value touches that of its own or an earlier key. */
  lemma TouchingValueLeaves(params: Params, i: nat, j: nat) returns (s: string)
    requires PlainKeys(params) && i <= j < |params|
    requires Touches(ValueText(params[j].1), Placeholder(params[i].0))
    ensures Occurs(ReplaceAll(s, params), Placeholder(params[i].0))
  {
    var x, y := TouchingText(params[j].0, ValueText(params[j].1), params[i].0);
    s := x + (Placeholder(params[j].0) + y);
    ReachedAt(x, y, params, j);
    SurvivesAll(x + (ValueText(params[j].1) + y), params[j + 1..], params[i].0);
  }

  /**
   Main result on arbitrary texts and values: one pass leaves no supplied placeholder in any
   text if and only if no value touches the placeholder of its own or an earlier key.
   */
  lemma EveryTextCompleteIffClear(params: Params)
    requires PlainKeys(params)
    ensures Clear(params) <==> forall s: string :: Complete(s, params)
  {
    if Clear(params) {
      forall s: string ensures Complete(s, params) {
        if i :| 0 <= i < |params| && Occurs(ReplaceAll(s, params), Placeholder(params[i].0)) {
          LeftOverWasTouched(s, params, i);
          assert false;
        }
      }
    } else {
      var i, j :| 0 <= i <= j < |params| && Touches(ValueText(params[j].1), Placeholder(params[i].0));
      var s := TouchingValueLeaves(params, i, j);
      assert !Complete(s, params);
    }
  }

  /** Text without braces that agrees with a placeholder lies strictly inside it. */
  lemma BraceFreeLiesInside(value: string, key: string, d: int)
    requires NoBraces(value) && NoBraces(key)
    requires -|value| < d < |Placeholder(key)| && AgreesAt(value, Placeholder(key), d)
    ensures 0 < d && d + |value| < |Placeholder(key)|
  {
    var hole := Placeholder(key);
    assert forall u :: 0 <= u < |value| ==> value[u] in value;
    assert hole[0] == '{' && hole[|hole| - 1] == '}';
  }

  /** A value without braces touches a placeholder exactly when it is a part of the key; an empty value always does. */
  lemma BraceFreeTouches(value: string, key: string)
    requires NoBraces(value) && NoBraces(key)
    ensures Touches(value, Placeholder(key)) <==> Occurs(key, value)
  {
    var hole := Placeholder(key);
    if d: int :| -|value| < d < |hole| && AgreesAt(value, hole, d) {
      BraceFreeLiesInside(value, key, d);
      forall t | 0 <= t < |value| ensures key[d - 1 + t] == value[t] {
        assert hole[d + t] == value[d + t - d];
      }
      assert key[d - 1..d - 1 + |value|] == value;
      assert OccursAt(key, value, d - 1);
    }
    if a: nat :| a <= |key| && OccursAt(key, value, a) {
      forall t | 0 <= t < |hole| && a + 1 <= t < a + 1 + |value| ensures hole[t] == value[t - (a + 1)] {
        assert key[a..a + |value|][t - (a + 1)] == key[t - 1];
      }
      TouchesAt(value, hole, a + 1);
    }
  }

  /**
   With values that hold no braces: every text comes out without a supplied placeholder if
   and only if no value is a part of its own or an earlier key. An empty value is a part of
   every key, so a parameter set with one always fails on some text.
   */
  lemma BraceFreeCompleteIffNoPart(params: Params)
    requires PlainKeys(params) && forall j :: 0 <= j < |params| ==> NoBraces(ValueText(params[j].1))
    ensures (forall s: string :: Complete(s, params)) <==>
            forall i, j :: 0 <= i <= j < |params| ==> !Occurs(params[i].0, ValueText(params[j].1))
  {
    EveryTextCompleteIffClear(params);
    forall i, j | 0 <= i <= j < |params|
      ensures Touches(ValueText(params[j].1), Placeholder(params[i].0)) <==> Occurs(params[i].0, ValueText(params[j].1))
    {
      BraceFreeTouches(ValueText(params[j].1), params[i].0);
    }
  }

  lemma EmptyValueFailsSomewhere(params: Params, j: nat) returns (s: string)
    requires PlainKeys(params) && j < |params| && ValueText(params[j].1) == ""
    ensures !Complete(s, params)
  {
    assert params[j].0[0..0] == "" && OccursAt(params[j].0, "", 0);
    BraceFreeTouches("", params[j].0);
    s := TouchingValueLeaves(params, j, j);
  }

  /** The smallest case: a placeholder inside its own name, and an empty value. */
  lemma NestedPlaceholderIsLeft()
    ensures ReplaceAll("{A{A}}", [("A", Value("", false))]) == "{A}"
  {
    assert Placeholder("A") == "{A}" && "{A" + ("{A}" + "}") == "{A{A}}" && "{A" + ("" + "}") == "{A}";
    FramedIsReplaced("{A", "A", "}", "");
    assert [("A", Value("", false))][1..] == [];
  }

  // ---------- Texts whose braces all belong to placeholders ----------

  /** In such a text a placeholder occurs exactly where it was meant. */
  lemma {:induction false} OccursIffHole(pieces: seq<Piece>, key: string)
    requires WellFormed(pieces) && NoBraces(key)
    ensures Occurs(Spelled(pieces), Placeholder(key)) <==> Hole(key) in pieces
  {
    var hole := Placeholder(key);
    if pieces == [] {
      assert forall a: nat :: !OccursAt("", hole, a);
    } else {
      var rest := Spelled(pieces[1..]);
      assert forall p :: p in pieces[1..] ==> p in pieces;
      OccursIffHole(pieces[1..], key);
      assert pieces[0] in pieces;
      assert Hole(key) in pieces <==> pieces[0] == Hole(key) || Hole(key) in pieces[1..];
      OccursAfterPiece(pieces[0], rest, key);
    }
  }

  lemma OccursAfterPiece(piece: Piece, rest: string, key: string)
    requires WellFormed([piece]) && NoBraces(key)
    ensures Occurs(PieceText(piece) + rest, Placeholder(key)) <==> piece == Hole(key) || Occurs(rest, Placeholder(key))
  {
    var here, hole := PieceText(piece), Placeholder(key);
    var s := here + rest;
    assert s[|here|..] == rest;
    if piece == Hole(key) {
      PrefixOccurs(s, hole);
    }
    if Occurs(rest, hole) {
      OccursLater(s, hole, |here|);
    }
    if a: nat :| a <= |s| && OccursAt(s, hole, a) {
      if a < |here| {
        MeetsPiece(piece, rest, key, a);
      } else {
        OccursBehind(here, rest, hole, a);
      }
    }
  }

  lemma OccursBehind(before: string, rest: string, part: string, a: nat)
    requires |before| <= a && OccursAt(before + rest, part, a)
    ensures Occurs(rest, part)
  {
    assert (before + rest)[a..a + |part|] == rest[a - |before|..a - |before| + |part|];
    assert OccursAt(rest, part, a - |before|);
  }

  lemma MeetsPiece(piece: Piece, rest: string, key: string, a: nat)
    requires WellFormed([piece]) && NoBraces(key)
    requires a < |PieceText(piece)| && OccursAt(PieceText(piece) + rest, Placeholder(key), a)
    ensures piece == Hole(key)
  {
    assert piece in [piece];
    var s := PieceText(piece) + rest;
    StartsWithBrace(s, key, a);
    assert s[a] == PieceText(piece)[a];
    if piece.Hole? {
      PlaceholderBraces(piece.key);
      assert Placeholder(key) <= s;
      PlaceholderPrefix(piece.key, key, rest);
    }
  }

  /** On texts of pieces, completeness of the character replacement is completeness of the substitution. */
  lemma CompleteIffNoneSupplied(pieces: seq<Piece>, params: PieceParams)
    requires WellFormed(pieces) && Keyed(params)
    ensures Complete(Spelled(pieces), TextParams(params)) <==> NoSupplied(SubstAll(pieces, params), params)
  {
    var after, texts := SubstAll(pieces, params), TextParams(params);
    ReplaceAllIsSubstAll(pieces, params);
    SubstAllWellFormed(pieces, params);
    forall i | 0 <= i < |params|
      ensures Occurs(Spelled(after), Placeholder(texts[i].0)) <==> Hole(params[i].0) in after
    {
      OccursIffHole(after, params[i].0);
    }
    assert forall p :: p in after && p.Hole? ==> (IndexOf(params, p.key) < |params| <==> exists i :: 0 <= i < |params| && params[i].0 == p.key);
    if !NoSupplied(after, params) {
      var p :| p in after && p.Hole? && IndexOf(params, p.key) < |params|;
      assert Occurs(Spelled(after), Placeholder(texts[IndexOf(params, p.key)].0));
    }
  }

  lemma {:induction false} SubstAllWellFormed(pieces: seq<Piece>, params: PieceParams)
    requires WellFormed(pieces) && Keyed(params)
    ensures WellFormed(SubstAll(pieces, params))
    decreases |params|
  {
    if params != [] {
      SubstWellFormed(pieces, params[0].0, params[0].1);
      SubstAllWellFormed(Subst(pieces, params[0].0, params[0].1), params[1..]);
    }
  }

  /**
   Main result on such texts: when each value mentions only later keys, one pass over the
   keys is the full recursive expansion, character by character, and the text that comes out
   holds the placeholder of no supplied key.
   */
  lemma OnePassIsFullExpansion(pieces: seq<Piece>, params: PieceParams)
    requires WellFormed(pieces) && Keyed(params) && Ordered(params)
    ensures ReplaceAll(Spelled(pieces), TextParams(params)) == Spelled(Expand(pieces, params, 0))
    ensures WellFormed(Expand(pieces, params, 0))
    ensures Complete(Spelled(pieces), TextParams(params))
  {
    ReplaceAllIsSubstAll(pieces, params);
    assert params[0..] == params;
    SubstAllExpands(pieces, params, 0);
    SubstAllWellFormed(pieces, params);
    ExpandComplete(pieces, params, 0);
    CompleteIffNoneSupplied(pieces, params);
  }

  // ---------- The order of the keys is exactly what matters ----------

  lemma {:induction false} SubstKeepsOthers(pieces: seq<Piece>, key: string, value: seq<Piece>, hole: Piece)
    requires hole in pieces && hole != Hole(key)
    ensures hole in Subst(pieces, key, value)
  {
    if pieces[0] != hole {
      SubstKeepsOthers(pieces[1..], key, value, hole);
    }
  }

  lemma {:induction false} SubstAllKeepsOthers(pieces: seq<Piece>, params: PieceParams, hole: Piece)
    requires hole in pieces && forall i :: 0 <= i < |params| ==> hole != Hole(params[i].0)
    ensures hole in SubstAll(pieces, params)
    decreases |params|
  {
    if params != [] {
      SubstKeepsOthers(pieces, params[0].0, params[0].1, hole);
      SubstAllKeepsOthers(Subst(pieces, params[0].0, params[0].1), params[1..], hole);
    }
  }

  /** Before its own turn comes, the placeholder of a key is left alone. */
  lemma {:induction false} LoneHole(params: PieceParams, from: nat, j: nat)
    requires Keyed(params) && from <= j < |params|
    ensures SubstAll([Hole(params[j].0)], params[from..]) == SubstAll(params[j].1, params[j + 1..])
    decreases j - from
  {
    var lone := [Hole(params[j].0)];
    assert params[from..][1..] == params[from + 1..];
    assert lone[1..] == [];
    if from < j {
      assert Subst(lone, params[from].0, params[from].1) == lone;
      LoneHole(params, from + 1, j);
    } else {
      assert Subst(lone, params[j].0, params[j].1) == params[j].1;
    }
  }

  /**
   One pass leaves no supplied placeholder in any text whose braces belong to placeholders if
   and only if no value mentions its own or an earlier key.
   */
  lemma CompleteIffOrdered(params: PieceParams)
    requires Keyed(params)
    ensures Ordered(params) <==> forall pieces :: WellFormed(pieces) ==> Complete(Spelled(pieces), TextParams(params))
  {
    if Ordered(params) {
      forall pieces | WellFormed(pieces) ensures Complete(Spelled(pieces), TextParams(params)) {
        OnePassIsFullExpansion(pieces, params);
      }
    } else {
      var text := UnorderedLeaves(params);
      CompleteIffNoneSupplied(text, params);
    }
  }

  lemma UnorderedLeaves(params: PieceParams) returns (text: seq<Piece>)
    requires Keyed(params) && !Ordered(params)
    ensures WellFormed(text) && !NoSupplied(SubstAll(text, params), params)
  {
    var j :| 0 <= j < |params| && !MentionsFrom(params[j].1, params, j + 1);
    var hole :| hole in params[j].1 && hole.Hole? && IndexOf(params, hole.key) <= j;
    text := [Hole(params[j].0)];
    assert params[0..] == params;
    LoneHole(params, 0, j);
    var later := params[j + 1..];
    forall i | 0 <= i < |later| ensures hole != Hole(later[i].0) {
      assert later[i] == params[j + 1 + i];
      IndexOfKey(params, j + 1 + i);
    }
    SubstAllKeepsOthers(params[j].1, later, hole);
  }
}
