/**
 Compiling column-aggregate tests: the expressions of one test and the grouping of tests
 into aggregate queries under a query length limit.
 */
module CatGrouping {
  import opened Wrappers
  import opened TestDefs
  import opened GreedyBatching
  import opened ChunkQueries
  import FlatMaps
  import X = SqlExpressions

  datatype Dialect = Dialect(varcharType: string, concatOperator: string)

  const NULL_VALUE := "<NULL>"

  predicate Contains(s: string, part: string) {
    part <= s || (s != "" && Contains(s[1..], part))
  }

  predicate Blank(tolerance: Option<string>) {
    tolerance == None || tolerance == Some("")
  }

  /** A prediction test without both tolerances is still being trained. */
  predicate Training(td: TestDef) {
    td.predict && (Blank(td.lowerTolerance) || Blank(td.upperTolerance))
  }

  /** The condition of a test as SQL text. */
  function Condition(td: TestDef): string {
    if Contains(td.testOperator, "BETWEEN") then td.measure + " " + td.testOperator + " " + td.testCondition
    else td.measure + td.testOperator + td.testCondition
  }

  /** The measure and its separator, or the NULL marker. */
  function MeasureSql(td: TestDef, d: Dialect): X.Expression {
    X.Coalesce(X.Concat(X.Cast(td.measure, d.varcharType), " " + d.concatOperator + " ", X.Literal("|")), X.Literal(NULL_VALUE + "|"))
  }

  /** The code of a test and its separator: a test holds a condition whose being true is a failure. */
  function ConditionSql(td: TestDef): X.Expression {
    if Training(td) then X.Literal("-1,") else X.Case(Condition(td), X.Literal("0,"), X.Literal("1,"))
  }

  function MeasureExpression(td: TestDef, d: Dialect): string { X.Print(MeasureSql(td, d)) }

  function ConditionExpression(td: TestDef): string { X.Print(ConditionSql(td)) }

  /** Characters one test adds to a query: both expressions and a concat operator for each. */
  function TestChars(d: Dialect): TestDef -> nat {
    (td: TestDef) => |MeasureExpression(td, d)| + |ConditionExpression(td)| + 2 * |d.concatOperator|
  }

  function OfTable(tests: seq<TestDef>, table: Table): seq<TestDef> {
    if tests == [] then []
    else (if tests[0].table() == table then [tests[0]] else []) + OfTable(tests[1..], table)
  }

  /** Tables in the order of their first test. */
  function Tables(tests: seq<TestDef>): seq<Table>
    decreases |tests|
  {
    if tests == [] then [] else
    var n := |tests| - 1;
    var before := Tables(tests[..n]);
    if tests[n].table() in before then before else before + [tests[n].table()]
  }

  function TableGroups(tests: seq<TestDef>, table: Table, d: Dialect, limit: int): seq<seq<TestDef>> {
    Greedy(OfTable(tests, table), TestChars(d), 0, limit)
  }

  function GroupsOf(tests: seq<TestDef>, tables: seq<Table>, d: Dialect, limit: int): seq<seq<TestDef>> {
    if tables == [] then [] else TableGroups(tests, tables[0], d, limit) + GroupsOf(tests, tables[1..], d, limit)
  }

  function Singles(tests: seq<TestDef>): (groups: seq<seq<TestDef>>)
    ensures |groups| == |tests|
  {
    seq(|tests|, i requires 0 <= i < |tests| => [tests[i]])
  }

  function Groups(tests: seq<TestDef>, d: Dialect, limit: int): seq<seq<TestDef>> {
    GroupsOf(tests, Tables(tests), d, limit)
  }

  // ---------- The code's two loops ----------

  lemma {:induction false} OfTableAppend(a: seq<TestDef>, b: seq<TestDef>, table: Table)
    ensures OfTable(a + b, table) == OfTable(a, table) + OfTable(b, table)
  {
    if a == [] {
      assert a + b == b;
    } else {
      var ab, here := a + b, if a[0].table() == table then [a[0]] else [];
      assert ab[0] == a[0] && ab[1..] == a[1..] + b;
      OfTableAppend(a[1..], b, table);
      assert OfTable(ab, table) == here + OfTable(ab[1..], table) && OfTable(a, table) == here + OfTable(a[1..], table);
      FlatMaps.AppendAssoc(here, OfTable(a[1..], table), OfTable(b, table));
    }
  }

  lemma {:induction false} GroupsOfSnoc(tests: seq<TestDef>, tables: seq<Table>, table: Table, d: Dialect, limit: int)
    ensures GroupsOf(tests, tables + [table], d, limit) == GroupsOf(tests, tables, d, limit) + TableGroups(tests, table, d, limit)
  {
    if tables == [] {
      assert [] + [table] == [table] && [table][1..] == [];
      assert GroupsOf(tests, [table], d, limit) == TableGroups(tests, table, d, limit) + [];
    } else {
      GroupsOfSnoc(tests, tables[1..], table, d, limit);
      assert (tables + [table])[1..] == tables[1..] + [table];
    }
  }

  lemma {:induction false} TablesContain(tests: seq<TestDef>, table: Table)
    ensures table in Tables(tests) <==> OfTable(tests, table) != []
    decreases |tests|
  {
    if tests != [] {
      var n := |tests| - 1;
      TablesContain(tests[..n], table);
      assert tests == tests[..n] + [tests[n]];
      assert [tests[n]][1..] == [];
      OfTableAppend(tests[..n], [tests[n]], table);
    }
  }

  method GroupByTable(tests: seq<TestDef>) returns (keys: seq<Table>, byTable: map<Table, seq<TestDef>>)
    ensures keys == Tables(tests)
    ensures forall t :: t in byTable <==> t in keys
    ensures forall t :: t in byTable ==> byTable[t] == OfTable(tests, t)
  {
    keys, byTable := [], map[];
    for i := 0 to |tests|
      invariant keys == Tables(tests[..i])
      invariant forall t :: t in byTable <==> t in keys
      invariant forall t :: t in byTable ==> byTable[t] == OfTable(tests[..i], t)
    {
      var td := tests[i];
      var before := tests[..i];
      assert tests[..i + 1] == before + [td] && tests[..i + 1][..i] == before;
      forall t ensures OfTable(tests[..i + 1], t) == OfTable(before, t) + (if td.table() == t then [td] else []) {
        OfTableAppend(before, [td], t);
        assert [td][1..] == [];
      }
      TablesContain(before, td.table());
      if td.table() !in byTable {
        keys := keys + [td.table()];
        byTable := byTable[td.table() := []];
      }
      byTable := byTable[td.table() := byTable[td.table()] + [td]];
    }
    assert tests[..|tests|] == tests;
  }

  method GroupTable(tests: seq<TestDef>, d: Dialect, limit: int) returns (groups: seq<seq<TestDef>>)
    ensures groups == Greedy(tests, TestChars(d), 0, limit)
  {
    groups := [];
    var currentChars := 0;
    var currentGroup: seq<TestDef> := [];
    ghost var size := TestChars(d);
    for i := 0 to |tests|
      invariant currentChars == Cost(currentGroup, size, 0)
      invariant Greedy(tests, size, 0, limit) == groups + GreedyFrom(currentGroup, tests[i..], size, 0, limit)
    {
      var td := tests[i];
      var tdChars := |MeasureExpression(td, d)| + |ConditionExpression(td)| + 2 * |d.concatOperator|;
      assert tests[i..][0] == td && tests[i..][1..] == tests[i + 1..];
      assert size(td) == tdChars;
      if currentGroup != [] {
        CostAppend(currentGroup, td, size, 0);
      }
      assert [] + [td] == [td];
      if currentChars + tdChars > limit {
        if currentGroup != [] {
          groups := groups + [currentGroup];
        }
        currentChars, currentGroup := 0, [];
      }
      currentChars := currentChars + tdChars;
      currentGroup := currentGroup + [td];
    }
    if currentGroup != [] {
      groups := groups + [currentGroup];
    }
  }

  lemma GroupsOfPrefix(tests: seq<TestDef>, keys: seq<Table>, i: nat, d: Dialect, limit: int)
    requires i < |keys|
    ensures GroupsOf(tests, keys[..i + 1], d, limit) ==
            GroupsOf(tests, keys[..i], d, limit) + TableGroups(tests, keys[i], d, limit)
  {
    GroupsOfSnoc(tests, keys[..i], keys[i], d, limit);
    assert keys[..i + 1] == keys[..i] + [keys[i]];
  }

  method GroupCatTests(tests: seq<TestDef>, d: Dialect, limit: int, single: bool) returns (groups: seq<seq<TestDef>>)
    ensures groups == if single then Singles(tests) else Groups(tests, d, limit)
  {
    if single {
      return Singles(tests);
    }
    var keys, byTable := GroupByTable(tests);
    groups := [];
    for i := 0 to |keys|
      invariant groups == GroupsOf(tests, keys[..i], d, limit)
    {
      assert keys[i] in keys;
      var tableGroups := GroupTable(byTable[keys[i]], d, limit);
      GroupsOfPrefix(tests, keys, i, d, limit);
      groups := groups + tableGroups;
    }
    assert keys[..|keys|] == keys;
  }

  // ---------- What the grouping guarantees ----------

  /** The groups that query a given table. */
  function GroupsOn(groups: seq<seq<TestDef>>, table: Table): seq<seq<TestDef>> {
    if groups == [] then []
    else (if groups[0] != [] && groups[0][0].table() == table then [groups[0]] else []) + GroupsOn(groups[1..], table)
  }

  ghost predicate OneTable(group: seq<TestDef>, table: Table) {
    group != [] && forall td :: td in group ==> td.table() == table
  }

  lemma {:induction false} OfTableOnly(tests: seq<TestDef>, table: Table)
    ensures forall td :: td in OfTable(tests, table) ==> td.table() == table
  {
    if tests != [] {
      OfTableOnly(tests[1..], table);
    }
  }

  lemma {:induction false} InFlatten<T>(groups: seq<seq<T>>, i: nat, x: T)
    requires i < |groups| && x in groups[i]
    ensures x in Flatten(groups)
  {
    if i > 0 {
      InFlatten(groups[1..], i - 1, x);
    }
  }

  lemma TableGroupsOnTable(tests: seq<TestDef>, table: Table, d: Dialect, limit: int)
    ensures forall i :: 0 <= i < |TableGroups(tests, table, d, limit)| ==> OneTable(TableGroups(tests, table, d, limit)[i], table)
  {
    var mine := OfTable(tests, table);
    var groups := TableGroups(tests, table, d, limit);
    GreedyOptimal(mine, TestChars(d), 0, limit);
    OfTableOnly(tests, table);
    forall i | 0 <= i < |groups| ensures OneTable(groups[i], table) {
      assert groups[i] in groups;
      forall td: TestDef | td in groups[i] ensures td.table() == table {
        InFlatten(groups, i, td);
      }
    }
  }

  lemma {:induction false} GroupsOnAppend(a: seq<seq<TestDef>>, b: seq<seq<TestDef>>, table: Table)
    ensures GroupsOn(a + b, table) == GroupsOn(a, table) + GroupsOn(b, table)
  {
    if a == [] {
      assert a + b == b;
    } else {
      var ab, here := a + b, if a[0] != [] && a[0][0].table() == table then [a[0]] else [];
      assert ab[0] == a[0] && ab[1..] == a[1..] + b;
      GroupsOnAppend(a[1..], b, table);
      assert GroupsOn(ab, table) == here + GroupsOn(ab[1..], table) && GroupsOn(a, table) == here + GroupsOn(a[1..], table);
      FlatMaps.AppendAssoc(here, GroupsOn(a[1..], table), GroupsOn(b, table));
    }
  }

  lemma {:induction false} GroupsOnUniform(groups: seq<seq<TestDef>>, table: Table, other: Table)
    requires forall i :: 0 <= i < |groups| ==> OneTable(groups[i], other)
    ensures GroupsOn(groups, table) == if table == other then groups else []
  {
    if groups != [] {
      GroupsOnUniform(groups[1..], table, other);
      assert groups[0][0] in groups[0];
      assert [groups[0]] + groups[1..] == groups;
    }
  }

  ghost predicate Distinct<T>(xs: seq<T>) {
    forall i, j :: 0 <= i < j < |xs| ==> xs[i] != xs[j]
  }

  lemma {:induction false} TablesDistinct(tests: seq<TestDef>)
    ensures Distinct(Tables(tests))
    decreases |tests|
  {
    if tests != [] {
      TablesDistinct(tests[..|tests| - 1]);
    }
  }

  lemma {:induction false} GroupsOnOf(tests: seq<TestDef>, tables: seq<Table>, table: Table, d: Dialect, limit: int)
    requires Distinct(tables)
    ensures GroupsOn(GroupsOf(tests, tables, d, limit), table) == if table in tables then TableGroups(tests, table, d, limit) else []
  {
    if tables != [] {
      var head := TableGroups(tests, tables[0], d, limit);
      GroupsOnOf(tests, tables[1..], table, d, limit);
      TableGroupsOnTable(tests, tables[0], d, limit);
      GroupsOnUniform(head, table, tables[0]);
      GroupsOnAppend(head, GroupsOf(tests, tables[1..], d, limit), table);
      assert tables[0] !in tables[1..];
    }
  }

  /** A division of the tests of one table into consecutive groups that fit a query or hold one test. */
  ghost predicate ValidGrouping(groups: seq<seq<TestDef>>, tests: seq<TestDef>, table: Table, d: Dialect, limit: int) {
    ValidBatching(groups, OfTable(tests, table), TestChars(d), 0, limit)
  }

  /**
   Main result, table by table: the groups on a table hold exactly its tests, in order and
   each once, they are admissible, and no admissible grouping of that table uses fewer queries.
   */
  lemma GroupingIsOptimal(tests: seq<TestDef>, table: Table, d: Dialect, limit: int)
    ensures var mine := GroupsOn(Groups(tests, d, limit), table);
            && ValidGrouping(mine, tests, table, d, limit)
            && (forall i :: 0 <= i < |mine| ==> OneTable(mine[i], table))
            && forall other :: ValidGrouping(other, tests, table, d, limit) ==> |mine| <= |other|
  {
    TablesDistinct(tests);
    TablesContain(tests, table);
    GroupsOnOf(tests, Tables(tests), table, d, limit);
    TableGroupsOnTable(tests, table, d, limit);
    GreedyOptimal(OfTable(tests, table), TestChars(d), 0, limit);
  }

  lemma {:induction false} EveryGroupIsValid(tests: seq<TestDef>, tables: seq<Table>, d: Dialect, limit: int)
    ensures forall g: seq<TestDef> :: g in GroupsOf(tests, tables, d, limit) ==>
              Fits(g, TestChars(d), 0, limit) && g != [] && OneTable(g, g[0].table())
  {
    if tables != [] {
      var head := TableGroups(tests, tables[0], d, limit);
      EveryGroupIsValid(tests, tables[1..], d, limit);
      GreedyOptimal(OfTable(tests, tables[0]), TestChars(d), 0, limit);
      TableGroupsOnTable(tests, tables[0], d, limit);
      forall g: seq<TestDef> | g in head ensures g != [] && OneTable(g, g[0].table()) {
        assert g[0] in g;
      }
    }
  }

  function Measures(group: seq<TestDef>, d: Dialect): (r: seq<string>)
    ensures |r| == |group|
  {
    seq(|group|, i requires 0 <= i < |group| => MeasureExpression(group[i], d))
  }

  function Conditions(group: seq<TestDef>): (r: seq<string>)
    ensures |r| == |group|
  {
    seq(|group|, i requires 0 <= i < |group| => ConditionExpression(group[i]))
  }

  lemma {:induction false} JoinedWithinCost(group: seq<TestDef>, d: Dialect)
    requires group != []
    ensures |Join(d.concatOperator, Measures(group, d))| + |Join(d.concatOperator, Conditions(group))| + 2 * |d.concatOperator|
            == Cost(group, TestChars(d), 0)
  {
    if |group| > 1 {
      JoinedWithinCost(group[1..], d);
      assert Measures(group, d)[1..] == Measures(group[1..], d);
      assert Conditions(group)[1..] == Conditions(group[1..]);
    }
  }

  /** The joined expressions of a query with more than one test stay within the limit. */
  lemma JoinedExpressionsFit(tests: seq<TestDef>, group: seq<TestDef>, d: Dialect, limit: int)
    requires group in Groups(tests, d, limit) && |group| > 1
    ensures |Join(d.concatOperator, Measures(group, d))| + |Join(d.concatOperator, Conditions(group))| <= limit
  {
    EveryGroupIsValid(tests, Tables(tests), d, limit);
    JoinedWithinCost(group, d);
  }

  // ---------- Grouping only reorders the tests ----------

  lemma {:induction false} OfTablesCover(tests: seq<TestDef>, tables: seq<Table>, d: Dialect, limit: int, td: TestDef)
    requires Distinct(tables)
    ensures multiset(Flatten(GroupsOf(tests, tables, d, limit)))[td] == if td.table() in tables then multiset(tests)[td] else 0
  {
    if tables != [] {
      var t := tables[0];
      var head, rest := TableGroups(tests, t, d, limit), GroupsOf(tests, tables[1..], d, limit);
      OfTablesCover(tests, tables[1..], d, limit, td);
      FlattenAppend(head, rest);
      GreedyOptimal(OfTable(tests, t), TestChars(d), 0, limit);
      CountOfTable(tests, t, td);
      assert t !in tables[1..];
      assert td.table() in tables <==> td.table() == t || td.table() in tables[1..];
    }
  }

  lemma {:induction false} CountOfTable(tests: seq<TestDef>, table: Table, td: TestDef)
    ensures multiset(OfTable(tests, table))[td] == if td.table() == table then multiset(tests)[td] else 0
  {
    if tests != [] {
      CountOfTable(tests[1..], table, td);
      assert tests == [tests[0]] + tests[1..];
    }
  }

  lemma GroupingPermutes(tests: seq<TestDef>, d: Dialect, limit: int)
    ensures multiset(Flatten(Groups(tests, d, limit))) == multiset(tests)
  {
    TablesDistinct(tests);
    forall td: TestDef
      ensures multiset(Flatten(Groups(tests, d, limit)))[td] == multiset(tests)[td]
    {
      OfTablesCover(tests, Tables(tests), d, limit, td);
      TablesContain(tests, td.table());
      CountOfTable(tests, td.table(), td);
      if OfTable(tests, td.table()) == [] {
        assert multiset(OfTable(tests, td.table()))[td] == 0;
      }
    }
  }
}
