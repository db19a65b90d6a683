/**
 Ordered substitution of {KEY} placeholders. The code replaces the keys one after another
 over the whole text, so the order of the keys decides what happens to placeholders that
 a value brings in.
 */
module SqlParams {
  import opened FlatMaps
  import opened SqlConditionals

  function Placeholder(key: string): string { "{" + key + "}" }

  /** Replacement of every occurrence of a non-empty pattern, left to right, without overlaps. */
  function Replace(s: string, pattern: string, value: string): string
    requires pattern != ""
    decreases |s|
  {
    if |s| < |pattern| then s
    else if pattern <= s then value + Replace(s[|pattern|..], pattern, value)
    else [s[0]] + Replace(s[1..], pattern, value)
  }

  function ValueText(v: Value): string {
    match v case Null => "" case Value(text, _) => text
  }

  function ReplaceAll(query: string, params: Params): string
    decreases |params|
  {
    if params == [] then query
    else ReplaceAll(Replace(query, Placeholder(params[0].0), ValueText(params[0].1)), params[1..])
  }

  method ReplaceParams(query: string, params: Params) returns (r: string)
    ensures r == ReplaceAll(query, params)
  {
    r := query;
    for i := 0 to |params|
      invariant ReplaceAll(query, params) == ReplaceAll(r, params[i..])
    {
      assert params[i..][1..] == params[i + 1..];
      r := Replace(r, Placeholder(params[i].0), ValueText(params[i].1));
    }
    assert params[|params|..] == [];
  }

  // ---------- Texts as sequences of plain characters and placeholders ----------

  datatype Piece = Lit(c: char) | Hole(key: string)

  predicate NoBraces(s: string) { '{' !in s && '}' !in s }

  predicate WellFormed(pieces: seq<Piece>) {
    forall p :: p in pieces ==> match p case Lit(c) => c != '{' && c != '}' case Hole(k) => NoBraces(k)
  }

  function PieceText(p: Piece): string {
    match p case Lit(c) => [c] case Hole(k) => Placeholder(k)
  }

  function Spelled(pieces: seq<Piece>): string {
    if pieces == [] then "" else PieceText(pieces[0]) + Spelled(pieces[1..])
  }

  function Subst(pieces: seq<Piece>, key: string, value: seq<Piece>): seq<Piece> {
    if pieces == [] then []
    else (if pieces[0] == Hole(key) then value else [pieces[0]]) + Subst(pieces[1..], key, value)
  }

  /** Parameters whose values are themselves texts with placeholders. */
  type PieceParams = seq<(string, seq<Piece>)>

  function SubstAll(pieces: seq<Piece>, params: PieceParams): seq<Piece>
    decreases |params|
  {
    if params == [] then pieces
    else SubstAll(Subst(pieces, params[0].0, params[0].1), params[1..])
  }

  predicate Keyed(params: PieceParams) {
    && (forall i :: 0 <= i < |params| ==> NoBraces(params[i].0) && WellFormed(params[i].1))
    && (forall i, j :: 0 <= i < j < |params| ==> params[i].0 != params[j].0)
  }

  function TextParams(params: PieceParams): (r: Params)
    ensures |r| == |params|
  {
    seq(|params|, i requires 0 <= i < |params| => (params[i].0, Value(Spelled(params[i].1), Spelled(params[i].1) != "")))
  }

  lemma {:induction false} TextAppend(a: seq<Piece>, b: seq<Piece>)
    ensures Spelled(a + b) == Spelled(a) + Spelled(b)
  {
    if a == [] {
      assert a + b == b;
    } else {
      var ab, here := a + b, PieceText(a[0]);
      assert ab[0] == a[0] && ab[1..] == a[1..] + b;
      TextAppend(a[1..], b);
      assert Spelled(ab) == here + Spelled(ab[1..]) && Spelled(a) == here + Spelled(a[1..]);
      AppendAssoc(here, Spelled(a[1..]), Spelled(b));
    }
  }

  /** A pattern that starts with a brace passes over a character that is none. */
  lemma ReplaceSkipsOne(c: char, rest: string, key: string, value: string)
    requires c != '{'
    ensures Replace([c] + rest, Placeholder(key), value) == [c] + Replace(rest, Placeholder(key), value)
  {
    var s, pattern := [c] + rest, Placeholder(key);
    assert s[1..] == rest && s[0] == c && pattern[0] == '{';
  }

  lemma {:induction false} ReplaceSkips(plain: string, rest: string, key: string, value: string)
    requires '{' !in plain
    ensures Replace(plain + rest, Placeholder(key), value) == plain + Replace(rest, Placeholder(key), value)
  {
    if plain == "" {
      assert plain + rest == rest;
    } else {
      var c, more := plain[0], plain[1..];
      assert c in plain && plain == [c] + more;
      ReplaceSkips(more, rest, key, value);
      ReplaceSkipsOne(c, more + rest, key, value);
      AppendAssoc([c], more, rest);
      AppendAssoc([c], more, Replace(rest, Placeholder(key), value));
    }
  }

  /** Two placeholders that start at the same position are the same placeholder. */
  lemma PlaceholderPrefix(k: string, key: string, rest: string)
    requires NoBraces(k) && NoBraces(key) && Placeholder(key) <= Placeholder(k) + rest
    ensures k == key
  {
    var s, pattern := Placeholder(k) + rest, Placeholder(key);
    forall i | 1 <= i <= |k| ensures s[i] != '}' {
      assert s[i] == k[i - 1] && k[i - 1] in k;
    }
    forall i | 1 <= i <= |key| ensures s[i] != '}' {
      assert s[i] == pattern[i] == key[i - 1] && key[i - 1] in key;
    }
    assert s[|k| + 1] == '}' && s[|key| + 1] == pattern[|key| + 1] == '}';
    assert |k| == |key|;
    assert s[1..|key| + 1] == key && s[1..|k| + 1] == k;
  }

  /** Replacement reaching a placeholder: it matches as a whole or is passed over as a whole. */
  lemma ReplaceAtHole(k: string, rest: string, key: string, value: string)
    requires NoBraces(k) && NoBraces(key)
    ensures Replace(Placeholder(k) + rest, Placeholder(key), value) ==
            (if k == key then value else Placeholder(k)) + Replace(rest, Placeholder(key), value)
  {
    var s, pattern := Placeholder(k) + rest, Placeholder(key);
    if k == key {
      assert pattern <= s && s[|pattern|..] == rest;
    } else {
      if pattern <= s {
        PlaceholderPrefix(k, key, rest);
      }
      var inner := k + "}";
      assert s[0] == '{' && s[1..] == inner + rest;
      ReplaceSkips(inner, rest, key, value);
      var r := Replace(rest, pattern, value);
      assert ['{'] + inner == Placeholder(k);
      AppendAssoc(['{'], inner, r);
    }
  }

  /** Replacement reaching one piece of a text. */
  lemma ReplaceAtPiece(piece: Piece, rest: string, key: string, value: seq<Piece>)
    requires WellFormed([piece]) && NoBraces(key)
    ensures Replace(PieceText(piece) + rest, Placeholder(key), Spelled(value)) ==
            Spelled(if piece == Hole(key) then value else [piece]) + Replace(rest, Placeholder(key), Spelled(value))
  {
    assert piece in [piece];
    match piece {
      case Lit(c) => ReplaceSkips([c], rest, key, Spelled(value));
      case Hole(k) => ReplaceAtHole(k, rest, key, Spelled(value));
    }
    assert [piece][1..] == [] && Spelled([piece]) == PieceText(piece) + Spelled([]) == PieceText(piece);
  }

  /** On a well-formed text, replacing characters is the same as substituting placeholders. */
  lemma {:induction false} ReplaceIsSubst(pieces: seq<Piece>, key: string, value: seq<Piece>)
    requires WellFormed(pieces) && NoBraces(key)
    ensures Replace(Spelled(pieces), Placeholder(key), Spelled(value)) == Spelled(Subst(pieces, key, value))
  {
    if pieces != [] {
      var rest := Spelled(pieces[1..]);
      assert forall p :: p in pieces[1..] ==> p in pieces;
      ReplaceIsSubst(pieces[1..], key, value);
      assert pieces[0] in pieces;
      ReplaceAtPiece(pieces[0], rest, key, value);
      TextAppend(if pieces[0] == Hole(key) then value else [pieces[0]], Subst(pieces[1..], key, value));
    }
  }

  lemma {:induction false} SubstWellFormed(pieces: seq<Piece>, key: string, value: seq<Piece>)
    requires WellFormed(pieces) && WellFormed(value)
    ensures WellFormed(Subst(pieces, key, value))
  {
    if pieces != [] {
      assert forall p :: p in pieces[1..] ==> p in pieces;
      SubstWellFormed(pieces[1..], key, value);
      assert pieces[0] in pieces;
    }
  }

  /** On well-formed texts the code's string replacement is exactly placeholder substitution. */
  lemma {:induction false} ReplaceAllIsSubstAll(pieces: seq<Piece>, params: PieceParams)
    requires WellFormed(pieces) && Keyed(params)
    ensures ReplaceAll(Spelled(pieces), TextParams(params)) == Spelled(SubstAll(pieces, params))
    decreases |params|
  {
    if params != [] {
      ReplaceIsSubst(pieces, params[0].0, params[0].1);
      SubstWellFormed(pieces, params[0].0, params[0].1);
      assert TextParams(params)[1..] == TextParams(params[1..]);
      ReplaceAllIsSubstAll(Subst(pieces, params[0].0, params[0].1), params[1..]);
    }
  }

  // ---------- Full recursive expansion ----------

  function IndexOf(params: PieceParams, key: string): (i: nat)
    ensures i <= |params|
    ensures i < |params| ==> params[i].0 == key
    ensures forall j :: 0 <= j < i ==> params[j].0 != key
  {
    if params == [] || params[0].0 == key then 0 else 1 + IndexOf(params[1..], key)
  }

  /** Every supplied placeholder of the text belongs to a key at or after position from. */
  predicate MentionsFrom(pieces: seq<Piece>, params: PieceParams, from: nat) {
    forall p :: p in pieces ==> p.Hole? ==> IndexOf(params, p.key) >= from
  }

  /** Each value mentions placeholders of later keys only. */
  predicate Ordered(params: PieceParams) {
    forall i :: 0 <= i < |params| ==> MentionsFrom(params[i].1, params, i + 1)
  }

  /** Expanding every supplied placeholder, and those of its value, until none is left. */
  ghost function Expand(pieces: seq<Piece>, params: PieceParams, from: nat): seq<Piece>
    requires Ordered(params) && MentionsFrom(pieces, params, from) && from <= |params|
    decreases |params| - from, |pieces|
  {
    if pieces == [] then [] else
    assert pieces[0] in pieces;
    assert MentionsFrom(pieces[1..], params, from);
    ExpandPiece(pieces[0], params, from) + Expand(pieces[1..], params, from)
  }

  ghost function ExpandPiece(piece: Piece, params: PieceParams, from: nat): seq<Piece>
    requires Ordered(params) && MentionsFrom([piece], params, from) && from <= |params|
    decreases |params| - from, 0
  {
    assert piece in [piece];
    match piece
    case Lit(_) => [piece]
    case Hole(k) =>
      var i := IndexOf(params, k);
      if i < |params| then Expand(params[i].1, params, i + 1) else [piece]
  }

  lemma MentionsAppend(a: seq<Piece>, b: seq<Piece>, params: PieceParams, from: nat)
    requires MentionsFrom(a, params, from) && MentionsFrom(b, params, from)
    ensures MentionsFrom(a + b, params, from)
  {
  }

  predicate NoSupplied(pieces: seq<Piece>, params: PieceParams) {
    MentionsFrom(pieces, params, |params|)
  }

  lemma {:induction false} ExpandAppend(a: seq<Piece>, b: seq<Piece>, params: PieceParams, from: nat)
    requires Ordered(params) && from <= |params|
    requires MentionsFrom(a, params, from) && MentionsFrom(b, params, from)
    ensures MentionsFrom(a + b, params, from)
    ensures Expand(a + b, params, from) == Expand(a, params, from) + Expand(b, params, from)
  {
    if a == [] {
      assert a + b == b;
    } else {
      var ab := a + b;
      assert ab[0] == a[0] && ab[1..] == a[1..] + b;
      ExpandAppend(a[1..], b, params, from);
      MentionsAppend(a, b, params, from);
      var here := ExpandPiece(a[0], params, from);
      assert Expand(ab, params, from) == here + Expand(ab[1..], params, from);
      assert Expand(a, params, from) == here + Expand(a[1..], params, from);
      AppendAssoc(here, Expand(a[1..], params, from), Expand(b, params, from));
    }
  }

  /** The position from only bounds the recursion; it does not change the expansion. */
  lemma {:induction false} ExpandFromLater(pieces: seq<Piece>, params: PieceParams, from: nat, later: nat)
    requires Ordered(params) && from <= later <= |params| && MentionsFrom(pieces, params, later)
    ensures MentionsFrom(pieces, params, from)
    ensures Expand(pieces, params, from) == Expand(pieces, params, later)
  {
    if pieces != [] {
      ExpandFromLater(pieces[1..], params, from, later);
    }
  }

  /** Nothing supplied is left after the full expansion. */
  lemma {:induction false} ExpandComplete(pieces: seq<Piece>, params: PieceParams, from: nat)
    requires Ordered(params) && from <= |params| && MentionsFrom(pieces, params, from)
    ensures NoSupplied(Expand(pieces, params, from), params)
    decreases |params| - from, |pieces|
  {
    if pieces != [] {
      assert pieces[0] in pieces;
      ExpandComplete(pieces[1..], params, from);
      if pieces[0].Hole? {
        var i := IndexOf(params, pieces[0].key);
        if i < |params| {
          ExpandComplete(params[i].1, params, i + 1);
        }
      }
    }
  }

  lemma IndexOfKey(params: PieceParams, i: nat)
    requires Keyed(params) && i < |params|
    ensures IndexOf(params, params[i].0) == i
  {
  }

  /** One substitution step inside the expansion. */
  lemma {:induction false} ExpandSubst(pieces: seq<Piece>, params: PieceParams, i: nat)
    requires Keyed(params) && Ordered(params) && i < |params| && MentionsFrom(pieces, params, i)
    ensures MentionsFrom(Subst(pieces, params[i].0, params[i].1), params, i + 1)
    ensures Expand(Subst(pieces, params[i].0, params[i].1), params, i + 1) == Expand(pieces, params, i)
  {
    if pieces != [] {
      var key, value := params[i].0, params[i].1;
      var p, rest := pieces[0], Subst(pieces[1..], key, value);
      assert p in pieces;
      ExpandSubst(pieces[1..], params, i);
      IndexOfKey(params, i);
      if p == Hole(key) {
        ExpandAppend(value, rest, params, i + 1);
      } else {
        assert MentionsFrom([p], params, i + 1);
        ExpandAppend([p], rest, params, i + 1);
      }
    }
  }

  lemma {:induction false} SubstAllExpands(pieces: seq<Piece>, params: PieceParams, i: nat)
    requires Keyed(params) && Ordered(params) && i <= |params| && MentionsFrom(pieces, params, i)
    ensures SubstAll(pieces, params[i..]) == Expand(pieces, params, i)
    decreases |params| - i
  {
    if i == |params| {
      ExpandNothing(pieces, params);
    } else {
      ExpandSubst(pieces, params, i);
      SubstAllExpands(Subst(pieces, params[i].0, params[i].1), params, i + 1);
      assert params[i..][1..] == params[i + 1..];
    }
  }

  lemma {:induction false} ExpandNothing(pieces: seq<Piece>, params: PieceParams)
    requires Ordered(params) && NoSupplied(pieces, params)
    ensures Expand(pieces, params, |params|) == pieces
  {
    if pieces != [] {
      ExpandNothing(pieces[1..], params);
      assert pieces[0] in pieces;
      assert [pieces[0]] + pieces[1..] == pieces;
    }
  }
}
