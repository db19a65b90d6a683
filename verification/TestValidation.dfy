/**
 Validation of test definitions through an inverted index: the identifiers that tests refer
 to are collected in one index from identifier to tests, each identifier is looked up once
 in the target schema, and the misses are handed back to the tests.
 */
module TestValidation {
  import opened Wrappers
  import opened FlatMaps
  import opened TestDefs
  import opened ColumnLists
  import ChunkQueries

  datatype Identifier = Identifier(schema: string, table: string, column: Option<string>)

  const DEACTIVATED := "Deactivated"
  const INVALID := "Invalid test: "
  const NO_MATCH := INVALID + "match schema, table, or column not defined"
  const NO_BASE := INVALID + "schema, table, or column not defined"

  function Lower(s: string): string {
    seq(|s|, i requires 0 <= i < |s| => if 'A' <= s[i] <= 'Z' then (s[i] as int + 32) as char else s[i])
  }

  function Strip(s: string, quote: char): string
    decreases |s|
  {
    if s == "" then ""
    else if s[0] == ' ' || s[0] == quote then Strip(s[1..], quote)
    else if s[|s| - 1] == ' ' || s[|s| - 1] == quote then Strip(s[..|s| - 1], quote)
    else s
  }

  function ColumnIdentifiers(schema: string, table: string, names: seq<string>, quote: char): seq<Identifier> {
    if names == [] then []
    else
      var name := Strip(names[0], quote);
      (if name == "" then [] else [Identifier(Lower(schema), Lower(table), Some(Lower(name)))])
      + ColumnIdentifiers(schema, table, names[1..], quote)
  }

  /** The identifiers one column list stands for; an empty list stands for the table. */
  function Identifiers(schema: string, table: string, columns: string, single: bool, quote: char): seq<Identifier> {
    if columns == "" then [Identifier(Lower(schema), Lower(table), None)]
    else if single then [Identifier(Lower(schema), Lower(table), Some(Lower(Strip(columns, quote))))]
    else ColumnIdentifiers(schema, table, LookaheadSplit(columns, quote), quote)
  }

  // ---------- Checking one test directly ----------

  predicate Skipped(td: TestDef) { td.testType == "CUSTOM" || td.scope == TableGroupScope }

  predicate TableOnly(td: TestDef) { td.scope == TableScope || td.scope == CustomScope }

  predicate Aggregate(td: TestDef) { "Aggregate_" <= td.testType }

  predicate BaseDefined(td: TestDef) {
    td.schemaName != "" && td.tableName != "" && (td.columnName != "" || TableOnly(td))
  }

  predicate NeedsMatch(td: TestDef) {
    td.scope == ReferentialScope && (td.matchColumnNames != "" || td.matchGroupbyNames != "")
  }

  predicate MatchDefined(td: TestDef) { td.matchSchemaName != "" && td.matchTableName != "" }

  predicate WellFormed(td: TestDef) { BaseDefined(td) && (NeedsMatch(td) ==> MatchDefined(td)) }

  /** One call of the collector: the schema, the table and the column list it is given. */
  datatype Mention = Mention(schema: string, table: string, columns: string, single: bool)

  function BaseMentions(td: TestDef): seq<Mention> {
    [if TableOnly(td) || Aggregate(td) then Mention(td.schemaName, td.tableName, "", false)
     else Mention(td.schemaName, td.tableName, td.columnName, td.scope == ColumnScope)]
    + (if td.groupbyNames != "" then [Mention(td.schemaName, td.tableName, td.groupbyNames, false)] else [])
    + (if td.scope == ReferentialScope && td.windowDateColumn != ""
       then [Mention(td.schemaName, td.tableName, td.windowDateColumn, false)] else [])
  }

  function MatchMentions(td: TestDef): seq<Mention> {
    (if td.matchColumnNames != "" && !Aggregate(td)
     then [Mention(td.matchSchemaName, td.matchTableName, td.matchColumnNames, false)] else [])
    + (if td.matchGroupbyNames != ""
       then [Mention(td.matchSchemaName, td.matchTableName, td.matchGroupbyNames, false)] else [])
  }

  function Mentions(td: TestDef): seq<Mention> {
    if Skipped(td) || !BaseDefined(td) then []
    else BaseMentions(td) + (if NeedsMatch(td) && MatchDefined(td) then MatchMentions(td) else [])
  }

  function AllMentions(): TestDef -> seq<Mention> {
    (td: TestDef) => Mentions(td)
  }

  function SchemasOf(mentions: seq<Mention>): set<string> {
    set m | m in mentions :: m.schema
  }

  function MentionIdentifiers(quote: char): Mention -> seq<Identifier> {
    (m: Mention) => Identifiers(m.schema, m.table, m.columns, m.single, quote)
  }

  /** Every identifier a test refers to. */
  function References(td: TestDef, quote: char): seq<Identifier> {
    FlatMap(Mentions(td), MentionIdentifiers(quote))
  }

  datatype Schema = Schema(tables: set<(string, string)>, columns: set<(string, string, string)>)

  function Missing(id: Identifier, target: Schema): Option<string> {
    if (id.schema, id.table) !in target.tables then
      Some("Missing table: " + ChunkQueries.Join(".", [id.schema, id.table]))
    else if id.column.Some? && id.column.value != "" && (id.schema, id.table, id.column.value) !in target.columns then
      Some("Missing column: " + ChunkQueries.Join(".", [id.schema, id.table, id.column.value]))
    else None
  }

  /** The verdict a reader would give looking at one test and the target schema only. */
  predicate DirectlyValid(td: TestDef, quote: char, target: Schema) {
    Skipped(td) || (WellFormed(td) && forall id :: id in References(td, quote) ==> Missing(id, target) == None)
  }

  function CollectionError(td: TestDef): Option<string> {
    if Skipped(td) then None
    else if !BaseDefined(td) then Some(NO_BASE)
    else if NeedsMatch(td) && !MatchDefined(td) then Some(NO_MATCH)
    else None
  }

  /** Test ids are primary keys. */
  ghost predicate UniqueIds(tests: seq<TestDef>) {
    forall i, j :: 0 <= i < j < |tests| ==> tests[i].id != tests[j].id
  }

  // ---------- The inverted index ----------

  type Entry = (Identifier, nat)

  function Entries(ids: seq<Identifier>, testId: nat): (r: seq<Entry>)
    ensures |r| == |ids|
  {
    seq(|ids|, i requires 0 <= i < |ids| => (ids[i], testId))
  }

  /** Identifiers of a log of entries in the order of their first occurrence. */
  function Keys(entries: seq<Entry>): seq<Identifier>
    decreases |entries|
  {
    if entries == [] then [] else
    var n := |entries| - 1;
    var before := Keys(entries[..n]);
    if entries[n].0 in before then before else before + [entries[n].0]
  }

  lemma EntriesAppend(before: seq<Entry>, a: seq<Identifier>, b: seq<Identifier>, testId: nat)
    ensures before + Entries(a, testId) + Entries(b, testId) == before + Entries(a + b, testId)
  {
  }

  lemma SchemasPrefix(mentions: seq<Mention>, i: nat)
    requires i < |mentions|
    ensures SchemasOf(mentions[..i + 1]) == SchemasOf(mentions[..i]) + {mentions[i].schema}
  {
    assert mentions[..i + 1] == mentions[..i] + [mentions[i]];
  }

  function TestEntries(quote: char): TestDef -> seq<Entry> {
    (td: TestDef) => Entries(References(td, quote), td.id)
  }

  lemma {:induction false} KeysAreIdentifiers(entries: seq<Entry>, key: Identifier)
    ensures key in Keys(entries) <==> exists testId :: (key, testId) in entries
    decreases |entries|
  {
    if entries != [] {
      var n := |entries| - 1;
      KeysAreIdentifiers(entries[..n], key);
      assert entries == entries[..n] + [entries[n]];
      if entries[n].0 == key {
        assert (key, entries[n].1) in entries;
      }
    }
  }

  lemma {:induction false} KeysDistinct(entries: seq<Entry>)
    ensures forall i, j :: 0 <= i < j < |Keys(entries)| ==> Keys(entries)[i] != Keys(entries)[j]
    decreases |entries|
  {
    if entries != [] {
      KeysDistinct(entries[..|entries| - 1]);
    }
  }

  /** The errors found while collecting, by test id. */
  function CollectionErrors(tests: seq<TestDef>): map<nat, seq<string>>
    decreases |tests|
  {
    if tests == [] then map[] else
    var n := |tests| - 1;
    var before := CollectionErrors(tests[..n]);
    match CollectionError(tests[n])
    case None => before
    case Some(e) => before[tests[n].id := [DEACTIVATED, e]]
  }

  lemma {:induction false} CollectionErrorsByTest(tests: seq<TestDef>, i: nat)
    requires UniqueIds(tests) && i < |tests|
    ensures match CollectionError(tests[i])
            case None => tests[i].id !in CollectionErrors(tests)
            case Some(e) => tests[i].id in CollectionErrors(tests) && CollectionErrors(tests)[tests[i].id] == [DEACTIVATED, e]
    decreases |tests|
  {
    var n := |tests| - 1;
    if i < n {
      CollectionErrorsByTest(tests[..n], i);
    } else {
      CollectionErrorsOfOthers(tests[..n], tests[n].id);
    }
  }

  lemma {:induction false} CollectionErrorsOfOthers(tests: seq<TestDef>, id: nat)
    requires forall i :: 0 <= i < |tests| ==> tests[i].id != id
    ensures id !in CollectionErrors(tests)
    decreases |tests|
  {
    if tests != [] {
      CollectionErrorsOfOthers(tests[..|tests| - 1], id);
    }
  }

  lemma OneMoreEntry(entries: seq<Entry>, added: seq<Entry>, i: nat)
    requires i < |added|
    ensures (entries + added[..i]) + [added[i]] == entries + added[..i + 1]
  {
    assert added[..i + 1] == added[..i] + [added[i]];
    AppendAssoc(entries, added[..i], [added[i]]);
  }

  class Collector {
    const quote: char
    var keys: seq<Identifier>
    var identifiersToCheck: map<Identifier, set<nat>>
    var targetSchemas: set<string>
    var errors: map<nat, seq<string>>

    constructor (quote: char)
      ensures this.quote == quote && Holds([]) && errors == map[] && targetSchemas == {}
    {
      this.quote := quote;
      keys, identifiersToCheck, targetSchemas, errors := [], map[], {}, map[];
    }

    /** The index is exactly the given log of (identifier, test) entries, inverted. */
    ghost predicate Holds(entries: seq<Entry>)
      reads this
    {
      && keys == Keys(entries)
      && (forall k :: k in identifiersToCheck <==> k in keys)
      && (forall k, t :: k in identifiersToCheck ==> (t in identifiersToCheck[k] <==> (k, t) in entries))
    }

    method Add(key: Identifier, testId: nat, ghost entries: seq<Entry>)
      requires Holds(entries)
      modifies `keys, `identifiersToCheck
      ensures Holds(entries + [(key, testId)])
    {
      KeysAreIdentifiers(entries, key);
      if key !in identifiersToCheck {
        keys := keys + [key];
        identifiersToCheck := identifiersToCheck[key := {}];
      }
      identifiersToCheck := identifiersToCheck[key := identifiersToCheck[key] + {testId}];
      assert (entries + [(key, testId)])[..|entries|] == entries;
    }

    method AddIdentifiers(testId: nat, m: Mention, ghost entries: seq<Entry>)
      requires Holds(entries)
      modifies `keys, `identifiersToCheck, `targetSchemas
      ensures Holds(entries + Entries(MentionIdentifiers(quote)(m), testId))
      ensures targetSchemas == old(targetSchemas) + {m.schema}
    {
      targetSchemas := targetSchemas + {m.schema};
      var identifiers := Identifiers(m.schema, m.table, m.columns, m.single, quote);
      ghost var added := Entries(identifiers, testId);
      assert entries + added[..0] == entries;
      for i := 0 to |identifiers|
        invariant Holds(entries + added[..i])
        invariant targetSchemas == old(targetSchemas) + {m.schema}
      {
        Add(identifiers[i], testId, entries + added[..i]);
        OneMoreEntry(entries, added, i);
      }
      assert added[..|identifiers|] == added;
    }

    method AddError(testId: nat, error: string)
      modifies `errors
      ensures errors == old(errors)[testId := (if testId in old(errors) then old(errors)[testId] else [DEACTIVATED]) + [error]]
    {
      if testId !in errors {
        errors := errors[testId := [DEACTIVATED]];
      }
      errors := errors[testId := errors[testId] + [error]];
    }

    method CollectMentions(testId: nat, mentions: seq<Mention>, ghost entries: seq<Entry>)
      requires Holds(entries)
      modifies `keys, `identifiersToCheck, `targetSchemas
      ensures Holds(entries + Entries(FlatMap(mentions, MentionIdentifiers(quote)), testId))
      ensures targetSchemas == old(targetSchemas) + SchemasOf(mentions)
    {
      ghost var f := MentionIdentifiers(quote);
      ghost var log := entries;
      assert entries + [] == entries;
      for i := 0 to |mentions|
        invariant Holds(log) && log == entries + Entries(FlatMap(mentions[..i], f), testId)
        invariant targetSchemas == old(targetSchemas) + SchemasOf(mentions[..i])
      {
        FlatMapPrefix(mentions, i, f);
        SchemasPrefix(mentions, i);
        EntriesAppend(entries, FlatMap(mentions[..i], f), f(mentions[i]), testId);
        AddIdentifiers(testId, mentions[i], log);
        log := log + Entries(f(mentions[i]), testId);
      }
      assert mentions[..|mentions|] == mentions;
    }

    /** Collecting from one test. */
    method CollectTest(td: TestDef, ghost entries: seq<Entry>)
      requires Holds(entries) && td.id !in errors
      modifies this
      ensures Holds(entries + TestEntries(quote)(td))
      ensures targetSchemas == old(targetSchemas) + SchemasOf(Mentions(td))
      ensures errors == match CollectionError(td)
                        case None => old(errors)
                        case Some(e) => old(errors)[td.id := [DEACTIVATED, e]]
    {
      CollectMentions(td.id, Mentions(td), entries);
      if CollectionError(td).Some? {
        AddError(td.id, CollectionError(td).value);
        assert [DEACTIVATED] + [CollectionError(td).value] == [DEACTIVATED, CollectionError(td).value];
      }
    }

    method Collect(tests: seq<TestDef>)
      requires Holds([]) && errors == map[] && targetSchemas == {} && UniqueIds(tests)
      modifies this
      ensures Holds(FlatMap(tests, TestEntries(quote))) && errors == CollectionErrors(tests)
      ensures targetSchemas == SchemasOf(FlatMap(tests, AllMentions()))
    {
      for i := 0 to |tests|
        invariant Holds(FlatMap(tests[..i], TestEntries(quote)))
        invariant errors == CollectionErrors(tests[..i])
        invariant targetSchemas == SchemasOf(FlatMap(tests[..i], AllMentions()))
      {
        FlatMapPrefix(tests, i, AllMentions());
        FlatMapPrefix(tests, i, TestEntries(quote));
        CollectionErrorsOfOthers(tests[..i], tests[i].id);
        CollectTest(tests[i], FlatMap(tests[..i], TestEntries(quote)));
        assert tests[..i + 1][..i] == tests[..i];
      }
      assert tests[..|tests|] == tests;
    }
  }

  // ---------- Looking the identifiers up ----------

  /** The messages of one test: its missing identifiers in index order. */
  function MessageAt(key: Identifier, entries: seq<Entry>, testId: nat, target: Schema): seq<string> {
    if (key, testId) in entries && Missing(key, target).Some? then [Missing(key, target).value] else []
  }

  function Messages(keys: seq<Identifier>, entries: seq<Entry>, testId: nat, target: Schema): seq<string> {
    if keys == [] then [] else MessageAt(keys[0], entries, testId, target) + Messages(keys[1..], entries, testId, target)
  }

  lemma {:induction false} MessagesSnoc(keys: seq<Identifier>, key: Identifier, entries: seq<Entry>, testId: nat, target: Schema)
    ensures Messages(keys + [key], entries, testId, target) ==
            Messages(keys, entries, testId, target) + MessageAt(key, entries, testId, target)
  {
    if keys == [] {
      assert [key][1..] == [] && [] + [key] == [key];
    } else {
      var kk := keys + [key];
      assert kk[0] == keys[0] && kk[1..] == keys[1..] + [key];
      MessagesSnoc(keys[1..], key, entries, testId, target);
      var here := MessageAt(keys[0], entries, testId, target);
      assert Messages(kk, entries, testId, target) == here + Messages(kk[1..], entries, testId, target);
      AppendAssoc(here, Messages(keys[1..], entries, testId, target), MessageAt(key, entries, testId, target));
    }
  }

  ghost predicate ErrorsFor(errors: map<nat, seq<string>>, keys: seq<Identifier>, entries: seq<Entry>, target: Schema) {
    forall t: nat :: var messages := Messages(keys, entries, t, target);
      (t in errors <==> messages != []) && (t in errors ==> errors[t] == [DEACTIVATED] + messages)
  }

  /** Handing one message to each test of a set. */
  method Report(errors: map<nat, seq<string>>, tests: set<nat>, message: string) returns (r: map<nat, seq<string>>)
    ensures r.Keys == errors.Keys + tests
    ensures forall t :: t in errors && t !in tests ==> r[t] == errors[t]
    ensures forall t :: t in tests ==> r[t] == (if t in errors then errors[t] else [DEACTIVATED]) + [message]
  {
    r := errors;
    var rest := tests;
    while rest != {}
      invariant rest <= tests && r.Keys == errors.Keys + (tests - rest)
      invariant forall t :: t in errors && t !in tests - rest ==> r[t] == errors[t]
      invariant forall t :: t in tests - rest ==> r[t] == (if t in errors then errors[t] else [DEACTIVATED]) + [message]
      decreases rest
    {
      var t :| t in rest;
      if t !in r {
        r := r[t := [DEACTIVATED]];
      }
      r := r[t := r[t] + [message]];
      rest := rest - {t};
    }
  }

  /** Reporting one more identifier extends the messages of exactly the tests that mention it. */
  lemma ErrorsForSnoc(before: map<nat, seq<string>>, after: map<nat, seq<string>>, keys: seq<Identifier>, key: Identifier,
                      tests: set<nat>, entries: seq<Entry>, target: Schema)
    requires ErrorsFor(before, keys, entries, target) && forall t :: t in tests <==> (key, t) in entries
    requires Missing(key, target).None? ==> after == before
    requires Missing(key, target).Some? ==>
               && after.Keys == before.Keys + tests
               && (forall t :: t in before && t !in tests ==> after[t] == before[t])
               && (forall t :: t in tests ==>
                     after[t] == (if t in before then before[t] else [DEACTIVATED]) + [Missing(key, target).value])
    ensures ErrorsFor(after, keys + [key], entries, target)
  {
    forall t: nat
      ensures var messages := Messages(keys + [key], entries, t, target);
              (t in after <==> messages != []) && (t in after ==> after[t] == [DEACTIVATED] + messages)
    {
      MessagesSnoc(keys, key, entries, t, target);
      assert t in before <==> Messages(keys, entries, t, target) != [];
      OneTestReported(before, after, t, Messages(keys, entries, t, target), MessageAt(key, entries, t, target));
    }
  }

  lemma OneTestReported(before: map<nat, seq<string>>, after: map<nat, seq<string>>, t: nat, messages: seq<string>, more: seq<string>)
    requires (t in before <==> messages != []) && (t in before ==> before[t] == [DEACTIVATED] + messages) && |more| <= 1
    requires t in after <==> t in before || more != []
    requires t in after ==> after[t] == (if t in before then before[t] else [DEACTIVATED]) + more
    ensures (t in after <==> messages + more != []) && (t in after ==> after[t] == [DEACTIVATED] + (messages + more))
  {
    AppendAssoc([DEACTIVATED], messages, more);
    assert [] + more == more;
  }

  method CheckIdentifiers(keys: seq<Identifier>, index: map<Identifier, set<nat>>, target: Schema, ghost entries: seq<Entry>)
    returns (errors: map<nat, seq<string>>)
    requires forall k :: k in keys ==> k in index
    requires forall k, t :: k in index ==> (t in index[k] <==> (k, t) in entries)
    ensures ErrorsFor(errors, keys, entries, target)
  {
    errors := map[];
    for i := 0 to |keys|
      invariant ErrorsFor(errors, keys[..i], entries, target)
    {
      var key := keys[i];
      assert keys[..i + 1] == keys[..i] + [key];
      ghost var before := errors;
      if Missing(key, target).Some? {
        errors := Report(errors, index[key], Missing(key, target).value);
      }
      ErrorsForSnoc(before, errors, keys[..i], key, index[key], entries, target);
    }
    assert keys[..|keys|] == keys;
  }

  // ---------- The whole validation ----------

  function TargetSchema(found: seq<(string, string, string)>): Schema {
    Schema(set x | x in found :: (Lower(x.0), Lower(x.1)), set x | x in found :: (Lower(x.0), Lower(x.1), Lower(x.2)))
  }

  /** The errors of a test after collection: its own collection error replaces what was noted before. */
  function Collected(td: TestDef): seq<string> {
    if CollectionError(td).Some? then [DEACTIVATED, CollectionError(td).value] else td.errors
  }

  /** The error list a test ends with. */
  function FinalErrors(td: TestDef, keys: seq<Identifier>, entries: seq<Entry>, target: Schema): seq<string> {
    Combined(Collected(td), Messages(keys, entries, td.id, target))
  }

  /** Messages are added to a list of errors; a list that starts with them starts with the marker. */
  function Combined(collected: seq<string>, messages: seq<string>): seq<string> {
    if messages == [] then collected
    else (if collected == [] then [DEACTIVATED] else collected) + messages
  }

  lemma {:induction false} MessagesEmptyIff(keys: seq<Identifier>, entries: seq<Entry>, testId: nat, target: Schema)
    ensures Messages(keys, entries, testId, target) == [] <==>
            forall k :: k in keys && (k, testId) in entries ==> Missing(k, target) == None
  {
    if keys != [] {
      MessagesEmptyIff(keys[1..], entries, testId, target);
      assert forall k :: k in keys <==> k == keys[0] || k in keys[1..];
    }
  }

  lemma {:induction false} EntriesOfTest(tests: seq<TestDef>, quote: char, td: TestDef, id: Identifier)
    requires td in tests && UniqueIds(tests)
    ensures (id, td.id) in FlatMap(tests, TestEntries(quote)) <==> id in References(td, quote)
  {
    var head, tail := TestEntries(quote)(tests[0]), FlatMap(tests[1..], TestEntries(quote));
    if tests[0] == td {
      OtherTestsEntries(tests[1..], quote, td, id);
      if id in References(td, quote) {
        var i :| 0 <= i < |References(td, quote)| && References(td, quote)[i] == id;
        assert head[i] == (id, td.id);
      }
    } else {
      var j :| 0 < j < |tests| && tests[j] == td;
      assert tests[1..][j - 1] == td;
      EntriesOfTest(tests[1..], quote, td, id);
      OtherTestsEntries([tests[0]], quote, td, id);
      FlatMapOne(tests[0], TestEntries(quote));
    }
  }

  lemma {:induction false} OtherTestsEntries(tests: seq<TestDef>, quote: char, td: TestDef, id: Identifier)
    requires forall i :: 0 <= i < |tests| ==> tests[i].id != td.id
    ensures (id, td.id) !in FlatMap(tests, TestEntries(quote))
  {
    if tests != [] {
      OtherTestsEntries(tests[1..], quote, td, id);
    }
  }

  function Filter(tests: seq<TestDef>, keep: TestDef -> bool): seq<TestDef> {
    if tests == [] then [] else (if keep(tests[0]) then [tests[0]] else []) + Filter(tests[1..], keep)
  }

  /** Keys and entries, read at one test, are the references of that test. */
  ghost predicate Inverts(keys: seq<Identifier>, entries: seq<Entry>, td: TestDef, quote: char) {
    forall id :: (id in keys && (id, td.id) in entries) <==> id in References(td, quote)
  }

  lemma IndexInverts(tests: seq<TestDef>, quote: char, td: TestDef)
    requires td in tests && UniqueIds(tests)
    ensures var entries := FlatMap(tests, TestEntries(quote));
            Inverts(Keys(entries), entries, td, quote)
  {
    var entries := FlatMap(tests, TestEntries(quote));
    forall id
      ensures (id in Keys(entries) && (id, td.id) in entries) <==> id in References(td, quote)
    {
      KeysAreIdentifiers(entries, id);
      EntriesOfTest(tests, quote, td, id);
    }
  }

  /** The index verdict on a test is the direct verdict. */
  lemma IndexAgreesWithDirectCheck(td: TestDef, quote: char, target: Schema, keys: seq<Identifier>, entries: seq<Entry>)
    requires Inverts(keys, entries, td, quote)
    ensures FinalErrors(td, keys, entries, target) == [] <==> td.errors == [] && DirectlyValid(td, quote, target)
  {
    MessagesEmptyIff(keys, entries, td.id, target);
    if Skipped(td) {
      assert References(td, quote) == [];
    }
  }

  lemma {:induction false} MessagesAreReasons(keys: seq<Identifier>, entries: seq<Entry>, testId: nat, target: Schema)
    ensures DEACTIVATED !in Messages(keys, entries, testId, target)
    ensures forall k :: k in keys && (k, testId) in entries && Missing(k, target).Some? ==>
              Missing(k, target).value in Messages(keys, entries, testId, target)
    ensures forall m :: m in Messages(keys, entries, testId, target) ==>
              exists k :: k in keys && (k, testId) in entries && Missing(k, target) == Some(m)
  {
    if keys != [] {
      MessagesAreReasons(keys[1..], entries, testId, target);
      if Missing(keys[0], target).Some? {
        assert Missing(keys[0], target).value[0] == 'M';
      }
    }
  }

  /**
   The error list of a failing test starts with the one "Deactivated", and the rest are its
   own reasons: the collection error if there is one, and a message for each missing reference.
   Errors noted earlier give way to a collection error and otherwise come before the messages.
   */
  lemma ErrorsStartWithOneDeactivated(td: TestDef, quote: char, target: Schema, keys: seq<Identifier>, entries: seq<Entry>)
    requires Inverts(keys, entries, td, quote)
    ensures var errors := FinalErrors(td, keys, entries, target);
            errors != [] && (td.errors == [] || CollectionError(td).Some?) ==>
              && errors[0] == DEACTIVATED && DEACTIVATED !in errors[1..]
              && forall m :: m in errors[1..] <==>
                   CollectionError(td) == Some(m) || exists id :: id in References(td, quote) && Missing(id, target) == Some(m)
    ensures td.errors != [] && CollectionError(td).None? ==>
              FinalErrors(td, keys, entries, target) == td.errors + Messages(keys, entries, td.id, target)
  {
    MessagesAreReasons(keys, entries, td.id, target);
    CollectionErrorIsNoMarker(td);
    var messages := Messages(keys, entries, td.id, target);
    var own := if CollectionError(td).Some? then [CollectionError(td).value] else [];
    if td.errors == [] || CollectionError(td).Some? {
      assert FinalErrors(td, keys, entries, target) == if own + messages == [] then [] else [DEACTIVATED] + (own + messages);
      assert ([DEACTIVATED] + (own + messages))[1..] == own + messages;
    }
  }

  lemma CollectionErrorIsNoMarker(td: TestDef)
    ensures CollectionError(td) != Some(DEACTIVATED)
  {
    assert INVALID[0] == 'I' && DEACTIVATED[0] == 'D';
    assert NO_BASE[0] == 'I' && NO_MATCH[0] == 'I';
  }

  lemma FilterPrefix(tests: seq<TestDef>, i: nat, keep: TestDef -> bool)
    requires i < |tests|
    ensures Filter(tests[..i + 1], keep) == Filter(tests[..i], keep) + (if keep(tests[i]) then [tests[i]] else [])
  {
    FilterSnoc(tests[..i], tests[i], keep);
    assert tests[..i + 1] == tests[..i] + [tests[i]];
  }

  lemma {:induction false} FilterSnoc(tests: seq<TestDef>, td: TestDef, keep: TestDef -> bool)
    ensures Filter(tests + [td], keep) == Filter(tests, keep) + (if keep(td) then [td] else [])
  {
    if tests == [] {
      assert [td][1..] == [] && [] + [td] == [td];
    } else {
      FilterSnoc(tests[1..], td, keep);
      assert (tests + [td])[1..] == tests[1..] + [td];
    }
  }

  /** Merging the lookup errors of one test into its collection errors or those noted before. */
  function Merge(td: TestDef, collected: map<nat, seq<string>>, checked: map<nat, seq<string>>): seq<string> {
    var t := td.id;
    var mine := if t in collected then collected[t] else td.errors;
    if t !in checked then mine
    else if mine == [] then checked[t]
    else mine + (if |checked[t]| > 0 then checked[t][1..] else [])
  }

  lemma MergeCombines(td: TestDef, collected: map<nat, seq<string>>, checked: map<nat, seq<string>>, messages: seq<string>)
    requires td.id in checked <==> messages != []
    requires td.id in checked ==> checked[td.id] == [DEACTIVATED] + messages
    ensures Merge(td, collected, checked) ==
            Combined(if td.id in collected then collected[td.id] else td.errors, messages)
  {
    assert ([DEACTIVATED] + messages)[1..] == messages;
  }

  lemma CollectedByTest(tests: seq<TestDef>, i: nat)
    requires UniqueIds(tests) && i < |tests|
    ensures var collected, t := CollectionErrors(tests), tests[i].id;
            (if t in collected then collected[t] else tests[i].errors) == Collected(tests[i])
  {
    CollectionErrorsByTest(tests, i);
    match CollectionError(tests[i])
    case None =>
    case Some(e) =>
  }

  lemma CheckedByTest(checked: map<nat, seq<string>>, keys: seq<Identifier>, entries: seq<Entry>, t: nat, target: Schema)
    requires ErrorsFor(checked, keys, entries, target)
    ensures var messages := Messages(keys, entries, t, target);
            (t in checked <==> messages != []) && (t in checked ==> checked[t] == [DEACTIVATED] + messages)
  {
  }

  lemma MergedIsFinal(tests: seq<TestDef>, i: nat, checked: map<nat, seq<string>>, keys: seq<Identifier>, entries: seq<Entry>, target: Schema)
    requires UniqueIds(tests) && i < |tests| && ErrorsFor(checked, keys, entries, target)
    ensures Merge(tests[i], CollectionErrors(tests), checked) == FinalErrors(tests[i], keys, entries, target)
  {
    CollectedByTest(tests, i);
    CheckedByTest(checked, keys, entries, tests[i].id, target);
    MergeCombines(tests[i], CollectionErrors(tests), checked, Messages(keys, entries, tests[i].id, target));
  }

  /** Settling the error list of every test and keeping the tests without errors. */
  method Settle(tests: seq<TestDef>, collected: map<nat, seq<string>>, checked: map<nat, seq<string>>,
                ghost keys: seq<Identifier>, ghost entries: seq<Entry>, ghost quote: char, ghost target: Schema)
    returns (valid: seq<TestDef>, errors: map<nat, seq<string>>)
    requires UniqueIds(tests) && collected == CollectionErrors(tests) && ErrorsFor(checked, keys, entries, target)
    requires forall td :: td in tests ==> Inverts(keys, entries, td, quote)
    ensures valid == Filter(tests, (td: TestDef) => td.errors == [] && DirectlyValid(td, quote, target))
    ensures forall i :: 0 <= i < |tests| ==>
              tests[i].id in errors && errors[tests[i].id] == FinalErrors(tests[i], keys, entries, target)
  {
    ghost var direct := (td: TestDef) => td.errors == [] && DirectlyValid(td, quote, target);
    valid, errors := [], map[];
    for i := 0 to |tests|
      invariant valid == Filter(tests[..i], direct)
      invariant forall j :: 0 <= j < i ==>
                  tests[j].id in errors && errors[tests[j].id] == FinalErrors(tests[j], keys, entries, target)
    {
      var merged := Merge(tests[i], collected, checked);
      MergedIsFinal(tests, i, checked, keys, entries, target);
      IndexAgreesWithDirectCheck(tests[i], quote, target, keys, entries);
      FilterPrefix(tests, i, direct);
      errors := errors[tests[i].id := merged];
      if merged == [] {
        valid := valid + [tests[i]];
      }
    }
    assert tests[..|tests|] == tests;
  }

  /**
   Main result: the tests that pass are exactly those without earlier errors that a direct
   check against the target schema accepts, in their original order; the reported errors are the
   final error lists.
   */
  method RunTestValidation(tests: seq<TestDef>, quote: char, fetch: set<string> -> seq<(string, string, string)>)
    returns (valid: seq<TestDef>, errors: map<nat, seq<string>>, target: Schema)
    requires UniqueIds(tests)
    ensures var schemas := SchemasOf(FlatMap(tests, AllMentions()));
            target == TargetSchema(if schemas == {} then [] else fetch(schemas))
    ensures valid == Filter(tests, (td: TestDef) => td.errors == [] && DirectlyValid(td, quote, target))
    ensures var entries := FlatMap(tests, TestEntries(quote));
            forall i :: 0 <= i < |tests| ==>
              tests[i].id in errors && errors[tests[i].id] == FinalErrors(tests[i], Keys(entries), entries, target)
  {
    var collector := new Collector(quote);
    collector.Collect(tests);
    ghost var entries := FlatMap(tests, TestEntries(quote));
    target := TargetSchema(if collector.targetSchemas == {} then [] else fetch(collector.targetSchemas));
    var checked := CheckIdentifiers(collector.keys, collector.identifiersToCheck, target, entries);
    forall td | td in tests ensures Inverts(Keys(entries), entries, td, quote) {
      IndexInverts(tests, quote, td);
    }
    valid, errors := Settle(tests, collector.errors, checked, Keys(entries), entries, quote, target);
  }
}
