/**
 What a test must find in the target schema to be accepted, by its own fields and the rows
 fetched from the target, without the index and the mentions it is built from.
 */
module TestReferences {
  import opened Wrappers
  import opened FlatMaps
  import opened TestDefs
  import opened ColumnLists
  import opened TestValidation
  import ChunkQueries

  // ---------- Names ----------

  predicate SameLetter(a: char, b: char) {
    a == b || ('A' <= a <= 'Z' && b as int == a as int + 32) || ('A' <= b <= 'Z' && a as int == b as int + 32)
  }

  /** The same name but for the case of its letters. */
  predicate Alike(a: string, b: string) {
    |a| == |b| && forall i :: 0 <= i < |a| ==> SameLetter(a[i], b[i])
  }

  lemma LowerAlike(a: string, b: string)
    ensures Lower(a) == Lower(b) <==> Alike(a, b)
  {
    if Lower(a) == Lower(b) {
      forall i | 0 <= i < |a| ensures SameLetter(a[i], b[i]) {
        assert Lower(a)[i] == Lower(b)[i];
      }
    }
  }

  predicate Padding(s: string, quote: char) { forall c :: c in s ==> c == ' ' || c == quote }

  /** Stripping takes away blanks and quotes at both ends, as many as there are, and nothing else. */
  lemma {:induction false} StripTrims(s: string, quote: char) returns (before: string, after: string)
    ensures var r := Strip(s, quote);
            && s == before + r + after && Padding(before, quote) && Padding(after, quote)
            && (r != "" ==> r[0] !in {' ', quote} && r[|r| - 1] !in {' ', quote})
    decreases |s|
  {
    before, after := "", "";
    if s != "" && (s[0] == ' ' || s[0] == quote) {
      before, after := StripTrims(s[1..], quote);
      PaddingCons(s[0], before, quote);
      before := [s[0]] + before;
      assert s == [s[0]] + s[1..];
    } else if s != "" && (s[|s| - 1] == ' ' || s[|s| - 1] == quote) {
      var n := |s| - 1;
      before, after := StripTrims(s[..n], quote);
      after := after + [s[n]];
      assert s == s[..n] + [s[n]];
    }
  }

  lemma PaddingCons(c: char, s: string, quote: char)
    requires (c == ' ' || c == quote) && Padding(s, quote)
    ensures Padding([c] + s, quote)
  {
  }

  // ---------- What the target holds ----------

  /** A row of the target's catalog: schema, table and column. */
  type Found = (string, string, string)

  predicate HasTable(found: seq<Found>, schema: string, table: string) {
    exists i :: 0 <= i < |found| && Alike(found[i].0, schema) && Alike(found[i].1, table)
  }

  predicate HasColumn(found: seq<Found>, schema: string, table: string, column: string) {
    exists i :: 0 <= i < |found| && Alike(found[i].0, schema) && Alike(found[i].1, table) && Alike(found[i].2, column)
  }

  /** Every name of a column list that is not blank is a column of the table. */
  predicate HasColumns(found: seq<Found>, schema: string, table: string, list: string, quote: char) {
    forall name :: name in LookaheadSplit(list, quote) && Strip(name, quote) != "" ==>
      HasColumn(found, schema, table, Strip(name, quote))
  }

  /**
   What a test that is looked up needs: its own table or column, or every column of its list;
   its grouping columns; and for a comparison of two tables its window column and, in the other
   table, the columns it matches and groups by.
   */
  predicate FindsAll(td: TestDef, quote: char, found: seq<Found>) {
    var wholeTable := td.scope in {TableScope, CustomScope} || "Aggregate_" <= td.testType;
    && (wholeTable ==> HasTable(found, td.schemaName, td.tableName))
    && (!wholeTable && td.scope == ColumnScope ==>
          && HasTable(found, td.schemaName, td.tableName)
          && (Strip(td.columnName, quote) != "" ==> HasColumn(found, td.schemaName, td.tableName, Strip(td.columnName, quote))))
    && (!wholeTable && td.scope != ColumnScope ==> HasColumns(found, td.schemaName, td.tableName, td.columnName, quote))
    && HasColumns(found, td.schemaName, td.tableName, td.groupbyNames, quote)
    && (td.scope == ReferentialScope ==>
          && HasColumns(found, td.schemaName, td.tableName, td.windowDateColumn, quote)
          && (!("Aggregate_" <= td.testType) ==>
                HasColumns(found, td.matchSchemaName, td.matchTableName, td.matchColumnNames, quote))
          && HasColumns(found, td.matchSchemaName, td.matchTableName, td.matchGroupbyNames, quote))
  }

  /** The fields a test must have: its table, a column unless it is about the whole table, and a table to match against if it matches. */
  predicate NamesAll(td: TestDef) {
    && td.schemaName != "" && td.tableName != "" && (td.columnName != "" || td.scope in {TableScope, CustomScope})
    && (td.scope == ReferentialScope && (td.matchColumnNames != "" || td.matchGroupbyNames != "") ==>
          td.matchSchemaName != "" && td.matchTableName != "")
  }

  // ---------- One identifier ----------

  lemma TargetHas(found: seq<Found>, schema: string, table: string, column: string)
    ensures (Lower(schema), Lower(table)) in TargetSchema(found).tables <==> HasTable(found, schema, table)
    ensures (Lower(schema), Lower(table), Lower(column)) in TargetSchema(found).columns <==> HasColumn(found, schema, table, column)
    ensures HasColumn(found, schema, table, column) ==> HasTable(found, schema, table)
  {
    forall i | 0 <= i < |found|
      ensures Lower(found[i].0) == Lower(schema) <==> Alike(found[i].0, schema)
      ensures Lower(found[i].1) == Lower(table) <==> Alike(found[i].1, table)
      ensures Lower(found[i].2) == Lower(column) <==> Alike(found[i].2, column)
    {
      LowerAlike(found[i].0, schema);
      LowerAlike(found[i].1, table);
      LowerAlike(found[i].2, column);
    }
    if HasTable(found, schema, table) {
      var i :| 0 <= i < |found| && Alike(found[i].0, schema) && Alike(found[i].1, table);
      assert found[i] in found;
    }
    if HasColumn(found, schema, table, column) {
      var i :| 0 <= i < |found| && Alike(found[i].0, schema) && Alike(found[i].1, table) && Alike(found[i].2, column);
      assert found[i] in found;
    }
  }

  /** What is reported of a table, and of a column in it: the table if it is missing, otherwise the column. */
  lemma MissingIsNamed(found: seq<Found>, schema: string, table: string, column: string)
    ensures var name := Lower(schema) + "." + Lower(table);
            Missing(Identifier(Lower(schema), Lower(table), None), TargetSchema(found)) ==
            if HasTable(found, schema, table) then None else Some("Missing table: " + name)
    ensures var name := Lower(schema) + "." + Lower(table);
            Missing(Identifier(Lower(schema), Lower(table), Some(Lower(column))), TargetSchema(found)) ==
            if !HasTable(found, schema, table) then Some("Missing table: " + name)
            else if column != "" && !HasColumn(found, schema, table, column) then
              Some("Missing column: " + (Lower(schema) + "." + (Lower(table) + "." + Lower(column))))
            else None
  {
    TargetHas(found, schema, table, column);
    Dotted(Lower(schema), Lower(table), Lower(column));
    assert Lower(column) == "" <==> column == "";
  }

  lemma Dotted(a: string, b: string, c: string)
    ensures ChunkQueries.Join(".", [a, b]) == a + "." + b
    ensures ChunkQueries.Join(".", [a, b, c]) == a + "." + (b + "." + c)
  {
    assert [a, b][1..] == [b] && [b, c][1..] == [c] && [a, b, c][1..] == [b, c];
    assert ChunkQueries.Join(".", [b, c]) == b + "." + ChunkQueries.Join(".", [c]);
    assert ChunkQueries.Join(".", [a, b, c]) == a + "." + ChunkQueries.Join(".", [b, c]);
  }

  predicate AllFound(ids: seq<Identifier>, found: seq<Found>) {
    forall id :: id in ids ==> Missing(id, TargetSchema(found)) == None
  }

  lemma TableFound(found: seq<Found>, schema: string, table: string)
    ensures AllFound([Identifier(Lower(schema), Lower(table), None)], found) <==> HasTable(found, schema, table)
  {
    TargetHas(found, schema, table, "");
    var id := Identifier(Lower(schema), Lower(table), None);
    assert AllFound([id], found) <==> Missing(id, TargetSchema(found)) == None by {
      assert id in [id];
    }
  }

  lemma ColumnFound(found: seq<Found>, schema: string, table: string, column: string)
    ensures var id := Identifier(Lower(schema), Lower(table), Some(Lower(column)));
            Missing(id, TargetSchema(found)) == None <==>
              HasTable(found, schema, table) && (column != "" ==> HasColumn(found, schema, table, column))
  {
    TargetHas(found, schema, table, column);
    assert Lower(column) == "" <==> column == "";
  }

  lemma {:induction false} NamesFound(found: seq<Found>, schema: string, table: string, names: seq<string>, quote: char)
    ensures AllFound(ColumnIdentifiers(schema, table, names, quote), found) <==>
            forall name :: name in names && Strip(name, quote) != "" ==> HasColumn(found, schema, table, Strip(name, quote))
  {
    if names != [] {
      NamesFound(found, schema, table, names[1..], quote);
      var name := Strip(names[0], quote);
      var head := if name == "" then [] else [Identifier(Lower(schema), Lower(table), Some(Lower(name)))];
      ColumnFound(found, schema, table, name);
      TargetHas(found, schema, table, name);
      assert ColumnIdentifiers(schema, table, names, quote) == head + ColumnIdentifiers(schema, table, names[1..], quote);
      AllFoundAppend(head, ColumnIdentifiers(schema, table, names[1..], quote), found);
      assert names[0] in names && forall n :: n in names <==> n == names[0] || n in names[1..];
    }
  }

  lemma AllFoundAppend(a: seq<Identifier>, b: seq<Identifier>, found: seq<Found>)
    ensures AllFound(a + b, found) <==> AllFound(a, found) && AllFound(b, found)
  {
    assert forall id :: id in a + b <==> id in a || id in b;
  }

  // ---------- One test ----------

  predicate MentionFound(m: Mention, quote: char, found: seq<Found>) {
    AllFound(MentionIdentifiers(quote)(m), found)
  }

  lemma MentionMeans(m: Mention, quote: char, found: seq<Found>)
    ensures MentionFound(m, quote, found) <==>
            if m.columns == "" then HasTable(found, m.schema, m.table)
            else if m.single then
              && HasTable(found, m.schema, m.table)
              && (Strip(m.columns, quote) != "" ==> HasColumn(found, m.schema, m.table, Strip(m.columns, quote)))
            else HasColumns(found, m.schema, m.table, m.columns, quote)
  {
    if m.columns == "" {
      TableFound(found, m.schema, m.table);
    } else if m.single {
      var id := Identifier(Lower(m.schema), Lower(m.table), Some(Lower(Strip(m.columns, quote))));
      ColumnFound(found, m.schema, m.table, Strip(m.columns, quote));
      assert MentionIdentifiers(quote)(m) == [id] && id in [id];
    } else {
      NamesFound(found, m.schema, m.table, LookaheadSplit(m.columns, quote), quote);
    }
  }

  /** An empty list asks for nothing. */
  lemma EmptyListFound(schema: string, table: string, quote: char, found: seq<Found>)
    ensures HasColumns(found, schema, table, "", quote)
  {
    assert LookaheadSplit("", quote) == [""];
  }

  predicate MentionsFound(ms: seq<Mention>, quote: char, found: seq<Found>) {
    forall m :: m in ms ==> MentionFound(m, quote, found)
  }

  lemma ReferencesFound(ms: seq<Mention>, quote: char, found: seq<Found>)
    ensures AllFound(FlatMap(ms, MentionIdentifiers(quote)), found) <==> MentionsFound(ms, quote, found)
  {
    if AllFound(FlatMap(ms, MentionIdentifiers(quote)), found) {
      forall m, id | m in ms && id in MentionIdentifiers(quote)(m) ensures Missing(id, TargetSchema(found)) == None {
        FlatMapMembers(ms, MentionIdentifiers(quote), id);
      }
    }
    if MentionsFound(ms, quote, found) {
      forall id | id in FlatMap(ms, MentionIdentifiers(quote)) ensures Missing(id, TargetSchema(found)) == None {
        FlatMapMembers(ms, MentionIdentifiers(quote), id);
        var m :| m in ms && id in MentionIdentifiers(quote)(m);
        assert MentionFound(m, quote, found);
      }
    }
  }

  /** A list of columns, mentioned unless it is empty. */
  lemma OptionalList(schema: string, table: string, list: string, quote: char, found: seq<Found>)
    ensures MentionsFound(if list != "" then [Mention(schema, table, list, false)] else [], quote, found) <==>
            HasColumns(found, schema, table, list, quote)
  {
    EmptyListFound(schema, table, quote, found);
    if list != "" {
      var m := Mention(schema, table, list, false);
      MentionMeans(m, quote, found);
      assert m in [m];
    }
  }

  lemma MentionsFoundAppend(a: seq<Mention>, b: seq<Mention>, quote: char, found: seq<Found>)
    ensures MentionsFound(a + b, quote, found) <==> MentionsFound(a, quote, found) && MentionsFound(b, quote, found)
  {
    assert forall m :: m in a + b <==> m in a || m in b;
  }

  function OptionalMention(schema: string, table: string, list: string): seq<Mention> {
    if list != "" then [Mention(schema, table, list, false)] else []
  }

  lemma BaseFound(td: TestDef, quote: char, found: seq<Found>)
    requires BaseDefined(td)
    ensures MentionsFound(BaseMentions(td), quote, found) <==>
              && (TableOnly(td) || Aggregate(td) ==> HasTable(found, td.schemaName, td.tableName))
              && (!TableOnly(td) && !Aggregate(td) && td.scope == ColumnScope ==>
                    && HasTable(found, td.schemaName, td.tableName)
                    && (Strip(td.columnName, quote) != "" ==>
                          HasColumn(found, td.schemaName, td.tableName, Strip(td.columnName, quote))))
              && (!TableOnly(td) && !Aggregate(td) && td.scope != ColumnScope ==>
                    HasColumns(found, td.schemaName, td.tableName, td.columnName, quote))
              && HasColumns(found, td.schemaName, td.tableName, td.groupbyNames, quote)
              && (td.scope == ReferentialScope ==> HasColumns(found, td.schemaName, td.tableName, td.windowDateColumn, quote))
  {
    var own := if TableOnly(td) || Aggregate(td) then Mention(td.schemaName, td.tableName, "", false)
               else Mention(td.schemaName, td.tableName, td.columnName, td.scope == ColumnScope);
    var grouping := OptionalMention(td.schemaName, td.tableName, td.groupbyNames);
    var window := OptionalMention(td.schemaName, td.tableName, if td.scope == ReferentialScope then td.windowDateColumn else "");
    assert BaseMentions(td) == [own] + grouping + window;
    MentionsFoundAppend([own] + grouping, window, quote, found);
    MentionsFoundAppend([own], grouping, quote, found);
    MentionMeans(own, quote, found);
    assert MentionsFound([own], quote, found) <==> MentionFound(own, quote, found) by {
      assert own in [own];
    }
    OptionalList(td.schemaName, td.tableName, td.groupbyNames, quote, found);
    OptionalList(td.schemaName, td.tableName, if td.scope == ReferentialScope then td.windowDateColumn else "", quote, found);
    EmptyListFound(td.schemaName, td.tableName, quote, found);
  }

  lemma MatchFound(td: TestDef, quote: char, found: seq<Found>)
    ensures MentionsFound(MatchMentions(td), quote, found) <==>
              && (!Aggregate(td) ==> HasColumns(found, td.matchSchemaName, td.matchTableName, td.matchColumnNames, quote))
              && HasColumns(found, td.matchSchemaName, td.matchTableName, td.matchGroupbyNames, quote)
  {
    var matched := OptionalMention(td.matchSchemaName, td.matchTableName, if Aggregate(td) then "" else td.matchColumnNames);
    var grouping := OptionalMention(td.matchSchemaName, td.matchTableName, td.matchGroupbyNames);
    assert MatchMentions(td) == matched + grouping;
    MentionsFoundAppend(matched, grouping, quote, found);
    OptionalList(td.matchSchemaName, td.matchTableName, if Aggregate(td) then "" else td.matchColumnNames, quote, found);
    OptionalList(td.matchSchemaName, td.matchTableName, td.matchGroupbyNames, quote, found);
  }

  lemma MentionsMean(td: TestDef, quote: char, found: seq<Found>)
    requires !Skipped(td) && NamesAll(td)
    ensures MentionsFound(Mentions(td), quote, found) <==> FindsAll(td, quote, found)
  {
    BaseFound(td, quote, found);
    MatchFound(td, quote, found);
    EmptyListFound(td.matchSchemaName, td.matchTableName, quote, found);
    if NeedsMatch(td) {
      MentionsFoundAppend(BaseMentions(td), MatchMentions(td), quote, found);
    } else {
      assert Mentions(td) == BaseMentions(td);
    }
  }

  /**
   Main result: a test is accepted if and only if it is one that is never looked up, or names
   all it must name and finds in the target everything it names.
   */
  lemma AcceptedIffAllIsFound(td: TestDef, quote: char, found: seq<Found>)
    ensures DirectlyValid(td, quote, TargetSchema(found)) <==>
              || td.testType == "CUSTOM" || td.scope == TableGroupScope
              || (NamesAll(td) && FindsAll(td, quote, found))
  {
    if !Skipped(td) && NamesAll(td) {
      ReferencesFound(Mentions(td), quote, found);
      MentionsMean(td, quote, found);
    }
  }

  lemma {:induction false} FilterMembers(tests: seq<TestDef>, keep: TestDef -> bool, td: TestDef)
    ensures td in Filter(tests, keep) <==> td in tests && keep(td)
  {
    if tests != [] {
      FilterMembers(tests[1..], keep, td);
      assert td in tests <==> td == tests[0] || td in tests[1..];
    }
  }

  /** The tests that a validation returns, by the rows fetched from the target. */
  lemma ValidIffAllIsFound(tests: seq<TestDef>, quote: char, found: seq<Found>, td: TestDef)
    ensures td in Filter(tests, (t: TestDef) => t.errors == [] && DirectlyValid(t, quote, TargetSchema(found))) <==>
              && td in tests && td.errors == []
              && (td.testType == "CUSTOM" || td.scope == TableGroupScope || (NamesAll(td) && FindsAll(td, quote, found)))
  {
    FilterMembers(tests, (t: TestDef) => t.errors == [] && DirectlyValid(t, quote, TargetSchema(found)), td);
    AcceptedIffAllIsFound(td, quote, found);
  }

  /** The schema of a test's own table, and of the table it matches against if it matches by any column that is looked up. */
  predicate AsksFor(td: TestDef, schema: string) {
    && td.testType != "CUSTOM" && td.scope != TableGroupScope
    && td.schemaName != "" && td.tableName != "" && (td.columnName != "" || td.scope in {TableScope, CustomScope})
    && (schema == td.schemaName
        || (schema == td.matchSchemaName && schema != "" && td.scope == ReferentialScope && td.matchTableName != ""
            && (td.matchGroupbyNames != "" || (td.matchColumnNames != "" && !("Aggregate_" <= td.testType)))))
  }

  lemma MentionsAsk(td: TestDef, schema: string)
    ensures schema in SchemasOf(Mentions(td)) <==> AsksFor(td, schema)
  {
    if !Skipped(td) && BaseDefined(td) {
      assert BaseMentions(td)[0].schema == td.schemaName;
      assert BaseMentions(td)[0] in Mentions(td);
      if NeedsMatch(td) && MatchDefined(td) {
        assert forall m :: m in Mentions(td) <==> m in BaseMentions(td) || m in MatchMentions(td);
        assert MatchMentions(td) != [] ==> MatchMentions(td)[0] in MatchMentions(td);
      }
    }
  }

  lemma SchemaIsAskedFor(tests: seq<TestDef>, schema: string)
    ensures schema in SchemasOf(FlatMap(tests, AllMentions())) <==> exists td :: td in tests && AsksFor(td, schema)
  {
    if schema in SchemasOf(FlatMap(tests, AllMentions())) {
      var m :| m in FlatMap(tests, AllMentions()) && m.schema == schema;
      FlatMapMembers(tests, AllMentions(), m);
      var td :| td in tests && m in AllMentions()(td);
      MentionsAsk(td, schema);
    }
    if td :| td in tests && AsksFor(td, schema) {
      MentionsAsk(td, schema);
      var m :| m in Mentions(td) && m.schema == schema;
      FlatMapMembers(tests, AllMentions(), m);
      assert m in AllMentions()(td);
    }
  }
}
