/**
 Encoding and decoding of aggregate query results: every test contributes one '|'-terminated
 measure and one ','-terminated code to the single row of its query.
 */
module CatResults {
  import opened Wrappers
  import opened FlatMaps
  import opened TestDefs
  import opened CatGrouping
  import ChunkQueries
  import X = SqlExpressions

  /** What the target database makes of measures (None for NULL) and conditions in a query on a table. */
  datatype Target = Target(measureOf: (Table, string) -> Option<string>, holds: (Table, string) -> Option<bool>)

  function MeasureOf(td: TestDef, db: Target): Option<string> { db.measureOf(td.table(), td.measure) }

  function Meaning(table: Table, db: Target): X.Meaning {
    X.Meaning((value: string) => db.measureOf(table, value), (condition: string) => db.holds(table, condition))
  }

  /** The text of the measure or the NULL marker, then the separator. */
  function MeasureText(td: TestDef, db: Target): string {
    (match MeasureOf(td, db) case Some(v) => v case None => NULL_VALUE) + ['|']
  }

  function CodeOf(td: TestDef, db: Target): string {
    if Training(td) then "-1" else if db.holds(td.table(), Condition(td)) == Some(true) then "0" else "1"
  }

  function CodeText(td: TestDef, db: Target): string { CodeOf(td, db) + [','] }

  function MeasuresText(group: seq<TestDef>, db: Target): string {
    FlatMap(group, (td: TestDef) => MeasureText(td, db))
  }

  function CodesText(group: seq<TestDef>, db: Target): string {
    FlatMap(group, (td: TestDef) => CodeText(td, db))
  }

  /** The measure expression as text, and that it comes out as the measure or the marker. */
  lemma MeasureMeans(td: TestDef, d: Dialect, db: Target)
    ensures var cast := "CAST(" + td.measure + " AS " + d.varcharType + ")";
            MeasureExpression(td, d) == "COALESCE(" + (cast + (" " + d.concatOperator + " ") + "'|'") + ", " + "'<NULL>|'" + ")"
    ensures X.Eval(MeasureSql(td, d), Meaning(td.table(), db)) ==
            Some((if db.measureOf(td.table(), td.measure).Some? then db.measureOf(td.table(), td.measure).value else "<NULL>") + ['|'])
  {
    var cast, marker, bar := X.Cast(td.measure, d.varcharType), X.Literal(NULL_VALUE + "|"), X.Literal("|");
    var marked := X.Concat(cast, " " + d.concatOperator + " ", bar);
    LiteralPrints("|", "'|'");
    LiteralPrints(NULL_VALUE + "|", "'<NULL>|'");
    assert X.Print(marked) == X.Print(cast) + (" " + d.concatOperator + " ") + "'|'";
    assert X.Print(MeasureSql(td, d)) == "COALESCE(" + X.Print(marked) + ", " + X.Print(marker) + ")";
    var m := Meaning(td.table(), db);
    assert X.Eval(cast, m) == db.measureOf(td.table(), td.measure) && X.Eval(bar, m) == Some("|");
  }

  lemma LiteralPrints(text: string, printed: string)
    requires printed == "'" + text + "'"
    ensures X.Print(X.Literal(text)) == printed
  {
  }

  /**
   The condition expression as text, and what it comes out as: for a test in training -1, for
   any other 0 exactly when its condition is true, and 1 when it is false or unknown.
   */
  lemma ConditionMeans(td: TestDef, db: Target)
    ensures var between := td.measure + " " + td.testOperator + " " + td.testCondition;
            var plain := td.measure + td.testOperator + td.testCondition;
            var condition := if Contains(td.testOperator, "BETWEEN") then between else plain;
            var value := X.Eval(ConditionSql(td), Meaning(td.table(), db));
            if td.predict && (td.lowerTolerance in {None, Some("")} || td.upperTolerance in {None, Some("")})
            then ConditionExpression(td) == "'-1,'" && value == Some("-1,")
            else
              && ConditionExpression(td) == "CASE WHEN " + condition + " THEN " + "'0,'" + " ELSE " + "'1,'" + " END"
              && value == Some(if db.holds(td.table(), condition) == Some(true) then "0," else "1,")
  {
    LiteralPrints("-1,", "'-1,'");
    LiteralPrints("0,", "'0,'");
    LiteralPrints("1,", "'1,'");
    var m := Meaning(td.table(), db);
    assert X.Eval(X.Literal("0,"), m) == Some("0,") && X.Eval(X.Literal("1,"), m) == Some("1,");
    assert m.truth(Condition(td)) == db.holds(td.table(), Condition(td));
  }

  /** The texts a test contributes to the answer are the values of its expressions. */
  lemma ExpressionsMean(td: TestDef, d: Dialect, db: Target)
    ensures X.Eval(MeasureSql(td, d), Meaning(td.table(), db)) == Some(MeasureText(td, db))
    ensures X.Eval(ConditionSql(td), Meaning(td.table(), db)) == Some(CodeText(td, db))
  {
    MeasureMeans(td, d, db);
    ConditionMeans(td, db);
    assert "-1" + [','] == "-1," && "0" + [','] == "0," && "1" + [','] == "1,";
  }

  /** The two columns of an aggregate query. */
  function MeasureSqls(group: seq<TestDef>, d: Dialect): (es: seq<X.Expression>)
    ensures |es| == |group|
  {
    seq(|group|, i requires 0 <= i < |group| => MeasureSql(group[i], d))
  }

  function ConditionSqls(group: seq<TestDef>): (es: seq<X.Expression>)
    ensures |es| == |group|
  {
    seq(|group|, i requires 0 <= i < |group| => ConditionSql(group[i]))
  }

  lemma {:induction false} ColumnValues(group: seq<TestDef>, table: Table, d: Dialect, db: Target)
    requires forall td :: td in group ==> td.table() == table
    ensures X.Values(MeasureSqls(group, d), Meaning(table, db)) == Some(MeasuresText(group, db))
    ensures X.Values(ConditionSqls(group), Meaning(table, db)) == Some(CodesText(group, db))
  {
    if group != [] {
      assert group[0] in group && forall td :: td in group[1..] ==> td in group;
      ColumnValues(group[1..], table, d, db);
      ExpressionsMean(group[0], d, db);
      assert MeasureSqls(group, d)[1..] == MeasureSqls(group[1..], d);
      assert ConditionSqls(group)[1..] == ConditionSqls(group[1..]);
    }
  }

  /** The texts joined in the query of a group on one table come out as all measures and all codes, test by test. */
  lemma QueryMeans(group: seq<TestDef>, table: Table, d: Dialect, db: Target)
    requires group != [] && OneTable(group, table)
    ensures var measures, codes := X.Joined(d.concatOperator, MeasureSqls(group, d)), X.Joined(d.concatOperator, ConditionSqls(group));
            && X.Print(measures) == ChunkQueries.Join(d.concatOperator, Measures(group, d))
            && X.Print(codes) == ChunkQueries.Join(d.concatOperator, Conditions(group))
            && X.Eval(measures, Meaning(table, db)) == Some(MeasuresText(group, db))
            && X.Eval(codes, Meaning(table, db)) == Some(CodesText(group, db))
  {
    ColumnValues(group, table, d, db);
    X.JoinedMeans(d.concatOperator, MeasureSqls(group, d), Meaning(table, db));
    X.JoinedMeans(d.concatOperator, ConditionSqls(group), Meaning(table, db));
    assert X.Printed(MeasureSqls(group, d)) == Measures(group, d) && X.Printed(ConditionSqls(group)) == Conditions(group);
  }

  /** Splitting at every occurrence of a separator character. */
  function Split(s: string, sep: char): (parts: seq<string>)
    ensures |parts| >= 1
    ensures forall i :: 0 <= i < |parts| ==> sep !in parts[i]
  {
    if s == "" then [""]
    else
      var parts := Split(s[1..], sep);
      if s[0] == sep then [""] + parts else [[s[0]] + parts[0]] + parts[1..]
  }

  /** One aggregate query returns one row: its index, all measures and all codes. */
  datatype AggregateRow = AggregateRow(queryIndex: nat, measures: string, codes: string)

  datatype Row = Row(
    def: TestDef, code: Option<string>, status: Option<string>, message: Option<string>, measure: Option<string>)

  function Part(parts: seq<string>, i: nat): string { if i < |parts| then parts[i] else "" }

  function DecodedRow(td: TestDef, measure: string, code: string): Row {
    Row(td, Some(code), None, None, if measure == NULL_VALUE then None else Some(measure))
  }

  function DecodeGroup(group: seq<TestDef>, measures: string, codes: string): (rows: seq<Row>)
    ensures |rows| == |group| && forall i :: 0 <= i < |rows| ==> rows[i].def == group[i]
  {
    var ms, cs := Split(measures, '|'), Split(codes, ',');
    seq(|group|, i requires 0 <= i < |group| => DecodedRow(group[i], Part(ms, i), Part(cs, i)))
  }

  /** The row a test deserves: its own code and its own measure. */
  function ValueRow(td: TestDef, db: Target): Row {
    Row(td, Some(CodeOf(td, db)), None, None, MeasureOf(td, db))
  }

  function ValueRows(group: seq<TestDef>, db: Target): (rows: seq<Row>)
    ensures |rows| == |group|
  {
    seq(|group|, i requires 0 <= i < |group| => ValueRow(group[i], db))
  }

  function Decoded(group: seq<TestDef>, db: Target): seq<Row> {
    DecodeGroup(group, MeasuresText(group, db), CodesText(group, db))
  }

  /** A measure that survives the encoding. */
  predicate Clean(td: TestDef, db: Target) {
    match MeasureOf(td, db) case None => true case Some(v) => '|' !in v && v != NULL_VALUE
  }

  lemma {:induction false} SplitFirst(part: string, rest: string, sep: char)
    requires sep !in part
    ensures Split(part + [sep] + rest, sep) == [part] + Split(rest, sep)
  {
    var s := part + [sep] + rest;
    if part == "" {
      assert s[1..] == rest;
    } else {
      SplitFirst(part[1..], rest, sep);
      assert s[1..] == part[1..] + [sep] + rest;
      assert part[0] in part;
      assert [part[0]] + part[1..] == part;
    }
  }

  /** Texts built from separator-free parts split back into exactly those parts. */
  lemma {:induction false} SplitJoined(group: seq<TestDef>, text: TestDef -> string, body: TestDef -> string, sep: char, i: nat)
    requires forall td :: td in group ==> text(td) == body(td) + [sep] && sep !in body(td)
    requires i < |group|
    ensures i < |Split(FlatMap(group, text), sep)| && Split(FlatMap(group, text), sep)[i] == body(group[i])
  {
    assert group[0] in group;
    SplitFirst(body(group[0]), FlatMap(group[1..], text), sep);
    if i > 0 {
      SplitJoined(group[1..], text, body, sep, i - 1);
    }
  }

  lemma {:induction false} SplitLength(group: seq<TestDef>, text: TestDef -> string, sep: char)
    requires forall td :: td in group ==> sep in text(td)
    ensures |Split(FlatMap(group, text), sep)| > |group|
  {
    if group != [] {
      assert group[0] in group;
      SplitLength(group[1..], text, sep);
      SplitOfConcat(text(group[0]), FlatMap(group[1..], text), sep);
    }
  }

  lemma {:induction false} SplitOfConcat(a: string, b: string, sep: char)
    ensures |Split(a + b, sep)| == |Split(a, sep)| + |Split(b, sep)| - 1
    ensures sep in a ==> |Split(a, sep)| > 1
  {
    if a == "" {
      assert a + b == b;
    } else {
      SplitOfConcat(a[1..], b, sep);
      assert (a + b)[1..] == a[1..] + b;
    }
  }

  lemma CodesDecode(group: seq<TestDef>, db: Target, i: nat)
    requires i < |group|
    ensures Part(Split(CodesText(group, db), ','), i) == CodeOf(group[i], db)
  {
    SplitJoined(group, (td: TestDef) => CodeText(td, db), (td: TestDef) => CodeOf(td, db), ',', i);
  }

  lemma MeasuresDecode(group: seq<TestDef>, db: Target, i: nat)
    requires i < |group| && forall td :: td in group ==> Clean(td, db)
    ensures DecodedRow(group[i], Part(Split(MeasuresText(group, db), '|'), i), CodeOf(group[i], db)) == ValueRow(group[i], db)
  {
    var body := (td: TestDef) => match MeasureOf(td, db) case Some(v) => v case None => NULL_VALUE;
    assert forall td :: td in group ==> Clean(td, db) && '|' !in body(td);
    SplitJoined(group, (td: TestDef) => MeasureText(td, db), body, '|', i);
    assert group[i] in group;
  }

  /**
   Decoding an aggregate row gives every test of the group its own value if and only if no
   measure of the group contains the separator or spells the NULL marker.
   */
  lemma DecodeExactIffClean(group: seq<TestDef>, db: Target)
    ensures Decoded(group, db) == ValueRows(group, db) <==> forall td :: td in group ==> Clean(td, db)
  {
    forall i | 0 <= i < |group| ensures Part(Split(CodesText(group, db), ','), i) == CodeOf(group[i], db) {
      CodesDecode(group, db, i);
    }
    if forall td :: td in group ==> Clean(td, db) {
      forall i | 0 <= i < |group| ensures Decoded(group, db)[i] == ValueRows(group, db)[i] {
        MeasuresDecode(group, db, i);
      }
    }
    if Decoded(group, db) == ValueRows(group, db) {
      forall td | td in group ensures Clean(td, db) {
        var i :| 0 <= i < |group| && group[i] == td;
        assert Decoded(group, db)[i] == ValueRow(td, db);
      }
    }
  }

  /** A group of one test, decoded alone, is right under the same condition on that test only. */
  lemma SingleDecodes(td: TestDef, db: Target)
    requires Clean(td, db)
    ensures Decoded([td], db) == [ValueRow(td, db)]
  {
    DecodeExactIffClean([td], db);
    assert ValueRows([td], db) == [ValueRow(td, db)];
  }

  function DecodeResult(groups: seq<seq<TestDef>>): AggregateRow -> seq<Row> {
    (r: AggregateRow) => if r.queryIndex < |groups| then DecodeGroup(groups[r.queryIndex], r.measures, r.codes) else []
  }

  /** The parser indexes groups, measures and codes, so a result must be long enough for its group. */
  predicate Parseable(r: AggregateRow, groups: seq<seq<TestDef>>) {
    && r.queryIndex < |groups|
    && |Split(r.measures, '|')| >= |groups[r.queryIndex]|
    && |Split(r.codes, ',')| >= |groups[r.queryIndex]|
  }

  method ParseResult(result: AggregateRow, testDefs: seq<TestDef>) returns (rows: seq<Row>)
    requires |Split(result.measures, '|')| >= |testDefs| && |Split(result.codes, ',')| >= |testDefs|
    ensures rows == DecodeGroup(testDefs, result.measures, result.codes)
  {
    var measures, codes := Split(result.measures, '|'), Split(result.codes, ',');
    rows := [];
    for index := 0 to |testDefs|
      invariant rows == DecodeGroup(testDefs, result.measures, result.codes)[..index]
    {
      rows := rows + [Row(testDefs[index], Some(codes[index]), None, None,
                          if measures[index] != NULL_VALUE then Some(measures[index]) else None)];
    }
  }

  method ParseCatResults(results: seq<AggregateRow>, groups: seq<seq<TestDef>>) returns (rows: seq<Row>)
    requires forall i :: 0 <= i < |results| ==> Parseable(results[i], groups)
    ensures rows == FlatMap(results, DecodeResult(groups))
  {
    rows := [];
    for k := 0 to |results|
      invariant rows == FlatMap(results[..k], DecodeResult(groups))
    {
      var decoded := ParseResult(results[k], groups[results[k].queryIndex]);
      FlatMapPrefix(results, k, DecodeResult(groups));
      rows := rows + decoded;
    }
    assert results[..|results|] == results;
  }

  /** What the database returns for a group can always be parsed. */
  lemma ResultsParse(groups: seq<seq<TestDef>>, i: nat, db: Target)
    requires i < |groups|
    ensures Parseable(AggregateRow(i, MeasuresText(groups[i], db), CodesText(groups[i], db)), groups)
  {
    SplitLength(groups[i], (td: TestDef) => MeasureText(td, db), '|');
    SplitLength(groups[i], (td: TestDef) => CodeText(td, db), ',');
  }
}
