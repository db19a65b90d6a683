/**
 Running column-aggregate tests: aggregate queries in any completion order, decoding of the
 answers, a single rerun for every test of a failed query, and error rows for tests whose
 own query fails.
 */
module CatExecution {
  import opened Wrappers
  import opened FlatMaps
  import opened GreedyBatching
  import ChunkQueries
  import opened TestDefs
  import opened CatGrouping
  import opened CatResults

  /** How one query execution ends. */
  datatype Outcome = Answers | Fails(message: string)

  /** Outcomes of the aggregate queries and of the single reruns, chosen by the environment. */
  datatype Runs = Runs(aggregate: seq<TestDef> -> Outcome, single: seq<TestDef> -> Outcome)

  /** What a query returns: the names of its columns and its rows. */
  datatype Answer<+R> = Answer(columns: seq<string>, rows: seq<R>)

  type Fetched<+R> = Result<Answer<R>, string>

  function RowsAt<R>(outcomes: seq<Fetched<R>>): nat -> seq<R> {
    (i: nat) => if i < |outcomes| && outcomes[i].Success? then outcomes[i].value.rows else []
  }

  function ErrorsAt<R>(outcomes: seq<Fetched<R>>): nat -> seq<(nat, string)> {
    (i: nat) => if i < |outcomes| && outcomes[i].Failure? && outcomes[i].error != "" then [(i, outcomes[i].error)] else []
  }

  predicate HasRows<R>(outcomes: seq<Fetched<R>>, i: nat) {
    i < |outcomes| && outcomes[i].Success? && |outcomes[i].value.rows| > 0
  }

  /** One list of columns for all rows: that of the last answer with rows to complete. */
  function LastColumns<R>(outcomes: seq<Fetched<R>>, order: seq<nat>): seq<string> {
    if order == [] then []
    else if HasRows(outcomes, order[|order| - 1]) then outcomes[order[|order| - 1]].value.columns
    else LastColumns(outcomes, order[..|order| - 1])
  }

  /** Collecting the answers of a thread pool in the order in which the queries complete. */
  method FetchThreaded<R>(outcomes: seq<Fetched<R>>, order: seq<nat>)
    returns (resultData: seq<R>, resultColumns: seq<string>, errorData: seq<(nat, string)>)
    requires IsCompletionOrder(order, |outcomes|)
    ensures resultData == FlatMap(order, RowsAt(outcomes))
    ensures resultColumns == LastColumns(outcomes, order)
    ensures errorData == FlatMap(order, ErrorsAt(outcomes))
  {
    resultData, resultColumns, errorData := [], [], [];
    for k := 0 to |order|
      invariant resultData == FlatMap(order[..k], RowsAt(outcomes))
      invariant resultColumns == LastColumns(outcomes, order[..k])
      invariant errorData == FlatMap(order[..k], ErrorsAt(outcomes))
    {
      var index := order[k];
      CompletionOrderInRange(order, |outcomes|, k);
      FlatMapPrefix(order, k, RowsAt(outcomes));
      FlatMapPrefix(order, k, ErrorsAt(outcomes));
      assert order[..k + 1][..k] == order[..k];
      if outcomes[index].Success? {
        if |outcomes[index].value.rows| > 0 {
          resultData := resultData + outcomes[index].value.rows;
          resultColumns := outcomes[index].value.columns;
        }
      } else if outcomes[index].error != "" {
        errorData := errorData + [(index, outcomes[index].error)];
      }
    }
    assert order[..|order|] == order;
  }

  const AGGREGATE_COLUMNS := ["query_index", "result_measures", "result_codes"]

  /** Answer of the database to the queries of a list of groups. */
  function Outcomes(groups: seq<seq<TestDef>>, db: Target, run: seq<TestDef> -> Outcome): (r: seq<Fetched<AggregateRow>>)
    ensures |r| == |groups|
  {
    seq(|groups|, i requires 0 <= i < |groups| =>
      match run(groups[i])
      case Answers =>
        Success(Answer(AGGREGATE_COLUMNS, [AggregateRow(i, MeasuresText(groups[i], db), CodesText(groups[i], db))]))
      case Fails(message) => Failure(message))
  }

  function ErrorRow(td: TestDef, message: string): Row {
    Row(td, None, Some("Error"), Some(ChunkQueries.Join(". ", td.errors + [message])), None)
  }

  // ---------- What one execution writes ----------

  function ResultRows(groups: seq<seq<TestDef>>, db: Target, run: seq<TestDef> -> Outcome, order: seq<nat>): seq<Row> {
    FlatMap(FlatMap(order, RowsAt(Outcomes(groups, db, run))), DecodeResult(groups))
  }

  function ErrorsOf(groups: seq<seq<TestDef>>, db: Target, run: seq<TestDef> -> Outcome, order: seq<nat>): seq<(nat, string)> {
    FlatMap(order, ErrorsAt(Outcomes(groups, db, run)))
  }

  function TestsAt(groups: seq<seq<TestDef>>): ((nat, string)) -> seq<TestDef> {
    (e: (nat, string)) => if e.0 < |groups| then groups[e.0] else []
  }

  function ErrorRowsAt(groups: seq<seq<TestDef>>): ((nat, string)) -> seq<Row> {
    (e: (nat, string)) => if e.0 < |groups| && |groups[e.0]| > 0 then [ErrorRow(groups[e.0][0], e.1)] else []
  }

  function ErrorTests(groups: seq<seq<TestDef>>, db: Target, run: seq<TestDef> -> Outcome, order: seq<nat>): seq<TestDef> {
    FlatMap(ErrorsOf(groups, db, run, order), TestsAt(groups))
  }

  /** What the rerun round writes: first its answers, then its errors. */
  function RerunWritten(singles: seq<seq<TestDef>>, db: Target, run: seq<TestDef> -> Outcome, order: seq<nat>): seq<Row> {
    ResultRows(singles, db, run, order) + FlatMap(ErrorsOf(singles, db, run, order), ErrorRowsAt(singles))
  }

  /** Everything one execution writes, in the order in which it is written. */
  function WrittenRows(groups: seq<seq<TestDef>>, db: Target, runs: Runs, schedule: nat -> seq<nat>, rerunSchedule: nat -> seq<nat>): seq<Row> {
    var order := schedule(|groups|);
    var singles := Singles(ErrorTests(groups, db, runs.aggregate, order));
    ResultRows(groups, db, runs.aggregate, order) + RerunWritten(singles, db, runs.single, rerunSchedule(|singles|))
  }

  /** Number of tests that failed even alone: it decides the final progress state. */
  function SingleErrorCount(groups: seq<seq<TestDef>>, db: Target, runs: Runs, schedule: nat -> seq<nat>, rerunSchedule: nat -> seq<nat>): nat {
    var singles := Singles(ErrorTests(groups, db, runs.aggregate, schedule(|groups|)));
    |ErrorsOf(singles, db, runs.single, rerunSchedule(|singles|))|
  }

  datatype Progress = Running | Completed | Warning

  lemma {:induction false} FetchedRowsParse(groups: seq<seq<TestDef>>, db: Target, run: seq<TestDef> -> Outcome, order: seq<nat>)
    ensures forall r :: r in FlatMap(order, RowsAt(Outcomes(groups, db, run))) ==> Parseable(r, groups)
  {
    if order != [] {
      FetchedRowsParse(groups, db, run, order[1..]);
      if order[0] < |groups| {
        ResultsParse(groups, order[0], db);
      }
    }
  }

  class CatTestRun {
    /** Rows of the test_results table written by this run. */
    var testResults: seq<Row>
    var progress: Progress

    constructor ()
      ensures testResults == [] && progress == Running
    {
      testResults, progress := [], Running;
    }

    /** One round of queries over a list of groups: its answers are decoded and written. */
    method RunQueries(groups: seq<seq<TestDef>>, db: Target, run: seq<TestDef> -> Outcome, order: seq<nat>)
      returns (errors: seq<(nat, string)>)
      requires IsCompletionOrder(order, |groups|)
      modifies this
      ensures testResults == old(testResults) + ResultRows(groups, db, run, order)
      ensures errors == ErrorsOf(groups, db, run, order) && progress == old(progress)
    {
      var results, _, errorData := FetchThreaded(Outcomes(groups, db, run), order);
      errors := errorData;
      FetchedRowsParse(groups, db, run, order);
      if results != [] {
        var rows := ParseCatResults(results, groups);
        testResults := testResults + rows;
      }
    }

    /** Rerunning the tests of the failed queries one by one. */
    method RerunSingly(groups: seq<seq<TestDef>>, aggregateErrors: seq<(nat, string)>, d: Dialect, maxQueryChars: int,
                       db: Target, run: seq<TestDef> -> Outcome, rerunSchedule: nat -> seq<nat>)
      returns (errorCount: nat)
      requires forall n: nat :: IsCompletionOrder(rerunSchedule(n), n)
      modifies this
      ensures var singles := Singles(FlatMap(aggregateErrors, TestsAt(groups)));
              && testResults == old(testResults) + RerunWritten(singles, db, run, rerunSchedule(|singles|))
              && errorCount == |ErrorsOf(singles, db, run, rerunSchedule(|singles|))|
    {
      var errorTests: seq<TestDef> := [];
      for k := 0 to |aggregateErrors|
        invariant errorTests == FlatMap(aggregateErrors[..k], TestsAt(groups))
        invariant testResults == old(testResults)
      {
        FlatMapPrefix(aggregateErrors, k, TestsAt(groups));
        errorTests := errorTests + TestsAt(groups)(aggregateErrors[k]);
      }
      assert aggregateErrors[..|aggregateErrors|] == aggregateErrors;
      var singles := GroupCatTests(errorTests, d, maxQueryChars - 400, true);
      var singleErrors := RunQueries(singles, db, run, rerunSchedule(|singles|));
      WriteErrors(singleErrors, singles);
      errorCount := |singleErrors|;
      AppendAssoc(old(testResults), ResultRows(singles, db, run, rerunSchedule(|singles|)), FlatMap(singleErrors, ErrorRowsAt(singles)));
    }

    method RunCatTests(tests: seq<TestDef>, d: Dialect, maxQueryChars: int, db: Target, runs: Runs,
                       schedule: nat -> seq<nat>, rerunSchedule: nat -> seq<nat>)
      requires forall n: nat :: IsCompletionOrder(schedule(n), n) && IsCompletionOrder(rerunSchedule(n), n)
      modifies this
      ensures var groups := Groups(tests, d, maxQueryChars - 400);
              && testResults == old(testResults) + WrittenRows(groups, db, runs, schedule, rerunSchedule)
              && progress == if SingleErrorCount(groups, db, runs, schedule, rerunSchedule) > 0 then Warning else Completed
    {
      progress := Running;
      var groups := GroupCatTests(tests, d, maxQueryChars - 400, false);
      var aggregateErrors := RunQueries(groups, db, runs.aggregate, schedule(|groups|));
      var errorCount := 0;
      if aggregateErrors != [] {
        ghost var singles := Singles(ErrorTests(groups, db, runs.aggregate, schedule(|groups|)));
        errorCount := RerunSingly(groups, aggregateErrors, d, maxQueryChars, db, runs.single, rerunSchedule);
        AppendAssoc(old(testResults), ResultRows(groups, db, runs.aggregate, schedule(|groups|)),
                    RerunWritten(singles, db, runs.single, rerunSchedule(|singles|)));
      } else {
        NoErrorsNoReruns(groups, db, runs, schedule, rerunSchedule);
      }
      progress := if errorCount > 0 then Warning else Completed;
    }

    method WriteErrors(errors: seq<(nat, string)>, singles: seq<seq<TestDef>>)
      modifies this
      ensures testResults == old(testResults) + FlatMap(errors, ErrorRowsAt(singles)) && progress == old(progress)
    {
      var rows: seq<Row> := [];
      for k := 0 to |errors|
        invariant rows == FlatMap(errors[..k], ErrorRowsAt(singles))
        invariant testResults == old(testResults) && progress == old(progress)
      {
        FlatMapPrefix(errors, k, ErrorRowsAt(singles));
        rows := rows + ErrorRowsAt(singles)(errors[k]);
      }
      assert errors[..|errors|] == errors;
      testResults := testResults + rows;
    }
  }

  lemma NoErrorsNoReruns(groups: seq<seq<TestDef>>, db: Target, runs: Runs, schedule: nat -> seq<nat>, rerunSchedule: nat -> seq<nat>)
    requires forall n: nat :: IsCompletionOrder(rerunSchedule(n), n)
    requires ErrorsOf(groups, db, runs.aggregate, schedule(|groups|)) == []
    ensures WrittenRows(groups, db, runs, schedule, rerunSchedule) == ResultRows(groups, db, runs.aggregate, schedule(|groups|))
    ensures SingleErrorCount(groups, db, runs, schedule, rerunSchedule) == 0
  {
    assert IsCompletionOrder(rerunSchedule(0), 0);
    assert |multiset(rerunSchedule(0))| == |multiset(Range(0))| == 0;
    assert rerunSchedule(0) == [];
  }

  // ---------- What each test gets, independently of order and batching ----------

  function AnsweredRows(db: Target, run: seq<TestDef> -> Outcome): seq<TestDef> -> seq<Row> {
    (g: seq<TestDef>) => if run(g) == Answers then Decoded(g, db) else []
  }

  function FailedTests(run: seq<TestDef> -> Outcome): seq<TestDef> -> seq<TestDef> {
    (g: seq<TestDef>) => if run(g).Fails? && run(g).message != "" then g else []
  }

  function FailureRows(run: seq<TestDef> -> Outcome): seq<TestDef> -> seq<Row> {
    (g: seq<TestDef>) => if run(g).Fails? && run(g).message != "" && g != [] then [ErrorRow(g[0], run(g).message)] else []
  }

  /** The outcome of rerunning one test alone. */
  function RerunRows(db: Target, run: seq<TestDef> -> Outcome): TestDef -> seq<Row> {
    (td: TestDef) =>
      match run([td])
      case Answers => Decoded([td], db)
      case Fails(m) => if m == "" then [] else [ErrorRow(td, m)]
  }

  /** The outcome for the tests of one aggregate query. */
  function GroupRows(db: Target, runs: Runs): seq<TestDef> -> seq<Row> {
    (g: seq<TestDef>) =>
      match runs.aggregate(g)
      case Answers => Decoded(g, db)
      case Fails(m) => if m == "" then [] else FlatMap(g, RerunRows(db, runs.single))
  }

  lemma AnswersAt(groups: seq<seq<TestDef>>, db: Target, run: seq<TestDef> -> Outcome, i: nat)
    requires i < |groups|
    ensures FlatMap(RowsAt(Outcomes(groups, db, run))(i), DecodeResult(groups)) == AnsweredRows(db, run)(groups[i])
  {
    if run(groups[i]) == Answers {
      FlatMapOne(AggregateRow(i, MeasuresText(groups[i], db), CodesText(groups[i], db)), DecodeResult(groups));
    }
  }

  lemma AnswersByIndex(groups: seq<seq<TestDef>>, db: Target, run: seq<TestDef> -> Outcome, order: seq<nat>)
    requires forall k :: 0 <= k < |order| ==> order[k] < |groups|
    ensures ResultRows(groups, db, run, order) == FlatMap(order, ByIndex(groups, AnsweredRows(db, run)))
  {
    forall k | 0 <= k < |order|
      ensures ByIndex(groups, AnsweredRows(db, run))(order[k]) ==
              FlatMap(RowsAt(Outcomes(groups, db, run))(order[k]), DecodeResult(groups))
    {
      AnswersAt(groups, db, run, order[k]);
    }
    FlatMapCompose(order, RowsAt(Outcomes(groups, db, run)), DecodeResult(groups), ByIndex(groups, AnsweredRows(db, run)));
  }

  /** The decoded answers are those of the answered groups, whatever the completion order. */
  lemma ResultRowsAnyOrder(groups: seq<seq<TestDef>>, db: Target, run: seq<TestDef> -> Outcome, order: seq<nat>)
    requires IsCompletionOrder(order, |groups|)
    ensures multiset(ResultRows(groups, db, run, order)) == multiset(FlatMap(groups, AnsweredRows(db, run)))
  {
    CompletionOrderBounds(order, |groups|);
    AnswersByIndex(groups, db, run, order);
    CompletionOrderIrrelevant(groups, order, AnsweredRows(db, run));
  }

  /** f gives for a failing query what at gives for its entry in the error list, and nothing otherwise. */
  ghost predicate OnFailures<B>(groups: seq<seq<TestDef>>, run: seq<TestDef> -> Outcome,
                                at: ((nat, string)) -> seq<B>, f: seq<TestDef> -> seq<B>) {
    forall i :: 0 <= i < |groups| ==>
      f(groups[i]) == if run(groups[i]).Fails? && run(groups[i]).message != "" then at((i, run(groups[i]).message)) else []
  }

  lemma ErrorAt<B>(groups: seq<seq<TestDef>>, db: Target, run: seq<TestDef> -> Outcome, i: nat,
                   at: ((nat, string)) -> seq<B>, f: seq<TestDef> -> seq<B>)
    requires i < |groups| && OnFailures(groups, run, at, f)
    ensures FlatMap(ErrorsAt(Outcomes(groups, db, run))(i), at) == f(groups[i])
  {
    if run(groups[i]).Fails? && run(groups[i]).message != "" {
      FlatMapOne((i, run(groups[i]).message), at);
    }
  }

  lemma ErrorsByIndex<B>(groups: seq<seq<TestDef>>, db: Target, run: seq<TestDef> -> Outcome, order: seq<nat>,
                         at: ((nat, string)) -> seq<B>, f: seq<TestDef> -> seq<B>)
    requires forall k :: 0 <= k < |order| ==> order[k] < |groups|
    requires OnFailures(groups, run, at, f)
    ensures FlatMap(ErrorsOf(groups, db, run, order), at) == FlatMap(order, ByIndex(groups, f))
  {
    forall k | 0 <= k < |order|
      ensures ByIndex(groups, f)(order[k]) == FlatMap(ErrorsAt(Outcomes(groups, db, run))(order[k]), at)
    {
      ErrorAt(groups, db, run, order[k], at, f);
    }
    FlatMapCompose(order, ErrorsAt(Outcomes(groups, db, run)), at, ByIndex(groups, f));
  }

  lemma ErrorsAnyOrder<B>(groups: seq<seq<TestDef>>, db: Target, run: seq<TestDef> -> Outcome, order: seq<nat>,
                          at: ((nat, string)) -> seq<B>, f: seq<TestDef> -> seq<B>)
    requires IsCompletionOrder(order, |groups|) && OnFailures(groups, run, at, f)
    ensures multiset(FlatMap(ErrorsOf(groups, db, run, order), at)) == multiset(FlatMap(groups, f))
  {
    CompletionOrderBounds(order, |groups|);
    ErrorsByIndex(groups, db, run, order, at, f);
    CompletionOrderIrrelevant(groups, order, f);
  }

  /** A group operation applied to one test alone. */
  function Alone<B>(f: seq<TestDef> -> seq<B>): TestDef -> seq<B> {
    (td: TestDef) => f([td])
  }

  lemma {:induction false} OverSingles<B>(tests: seq<TestDef>, f: seq<TestDef> -> seq<B>)
    ensures FlatMap(Singles(tests), f) == FlatMap(tests, Alone(f))
  {
    if tests != [] {
      OverSingles(tests[1..], f);
      assert Singles(tests)[1..] == Singles(tests[1..]);
    }
  }

  lemma RerunSplits(td: TestDef, db: Target, run: seq<TestDef> -> Outcome)
    ensures RerunRows(db, run)(td) == Alone(AnsweredRows(db, run))(td) + Alone(FailureRows(run))(td)
  {
    var rows := RerunRows(db, run)(td);
    assert rows + [] == rows && [] + rows == rows;
  }

  /** Answers and failures of single reruns are together one outcome per test. */
  lemma RerunOutcomes(tests: seq<TestDef>, db: Target, run: seq<TestDef> -> Outcome)
    ensures multiset(FlatMap(Singles(tests), AnsweredRows(db, run))) + multiset(FlatMap(Singles(tests), FailureRows(run)))
         == multiset(FlatMap(tests, RerunRows(db, run)))
  {
    OverSingles(tests, AnsweredRows(db, run));
    OverSingles(tests, FailureRows(run));
    forall i | 0 <= i < |tests|
      ensures RerunRows(db, run)(tests[i]) == Alone(AnsweredRows(db, run))(tests[i]) + Alone(FailureRows(run))(tests[i])
    {
      RerunSplits(tests[i], db, run);
    }
    FlatMapTwoPasses(tests, Alone(AnsweredRows(db, run)), Alone(FailureRows(run)), RerunRows(db, run));
  }

  lemma SinglesFail(tests: seq<TestDef>, run: seq<TestDef> -> Outcome)
    ensures OnFailures(Singles(tests), run, ErrorRowsAt(Singles(tests)), FailureRows(run))
  {
  }

  /** The rerun round writes exactly one rerun outcome per test of a failed query. */
  lemma RerunsAnyOrder(tests: seq<TestDef>, db: Target, run: seq<TestDef> -> Outcome, order: seq<nat>)
    requires IsCompletionOrder(order, |tests|)
    ensures multiset(ResultRows(Singles(tests), db, run, order)) +
            multiset(FlatMap(ErrorsOf(Singles(tests), db, run, order), ErrorRowsAt(Singles(tests))))
            == multiset(FlatMap(tests, RerunRows(db, run)))
  {
    SinglesFail(tests, run);
    ResultRowsAnyOrder(Singles(tests), db, run, order);
    ErrorsAnyOrder(Singles(tests), db, run, order, ErrorRowsAt(Singles(tests)), FailureRows(run));
    RerunOutcomes(tests, db, run);
  }

  /** Reruns of the tests of one group. */
  function GroupReruns(db: Target, runs: Runs): seq<TestDef> -> seq<Row> {
    (g: seq<TestDef>) => FlatMap(FailedTests(runs.aggregate)(g), RerunRows(db, runs.single))
  }

  lemma GroupSplits(g: seq<TestDef>, db: Target, runs: Runs)
    ensures GroupRows(db, runs)(g) == AnsweredRows(db, runs.aggregate)(g) + GroupReruns(db, runs)(g)
  {
    var rows := GroupRows(db, runs)(g);
    assert rows + [] == rows && [] + rows == rows;
    var failed := FailedTests(runs.aggregate)(g);
    assert failed == if runs.aggregate(g).Fails? && runs.aggregate(g).message != "" then g else [];
    assert GroupReruns(db, runs)(g) == FlatMap(failed, RerunRows(db, runs.single));
    assert AnsweredRows(db, runs.aggregate)(g) == if runs.aggregate(g) == Answers then Decoded(g, db) else [];
  }

  lemma GroupsFail(groups: seq<seq<TestDef>>, run: seq<TestDef> -> Outcome)
    ensures OnFailures(groups, run, TestsAt(groups), FailedTests(run))
  {
  }

  /** The tests to be rerun are those of the failed groups, in some order. */
  lemma ErrorTestsAnyOrder(groups: seq<seq<TestDef>>, db: Target, runs: Runs, order: seq<nat>)
    requires IsCompletionOrder(order, |groups|)
    ensures multiset(FlatMap(ErrorTests(groups, db, runs.aggregate, order), RerunRows(db, runs.single)))
         == multiset(FlatMap(groups, GroupReruns(db, runs)))
  {
    var errorTests := ErrorTests(groups, db, runs.aggregate, order);
    var failed := FailedTests(runs.aggregate);
    GroupsFail(groups, runs.aggregate);
    ErrorsAnyOrder(groups, db, runs.aggregate, order, TestsAt(groups), failed);
    FlatMapReordered(errorTests, FlatMap(groups, failed), RerunRows(db, runs.single));
    FlatMapCompose(groups, failed, RerunRows(db, runs.single), GroupReruns(db, runs));
  }

  lemma RerunRoundAnyOrder(groups: seq<seq<TestDef>>, db: Target, runs: Runs, order: seq<nat>, rerunOrder: seq<nat>)
    requires IsCompletionOrder(order, |groups|)
    requires IsCompletionOrder(rerunOrder, |ErrorTests(groups, db, runs.aggregate, order)|)
    ensures var singles := Singles(ErrorTests(groups, db, runs.aggregate, order));
            multiset(ResultRows(singles, db, runs.single, rerunOrder)) +
            multiset(FlatMap(ErrorsOf(singles, db, runs.single, rerunOrder), ErrorRowsAt(singles)))
            == multiset(FlatMap(groups, GroupReruns(db, runs)))
  {
    RerunsAnyOrder(ErrorTests(groups, db, runs.aggregate, order), db, runs.single, rerunOrder);
    ErrorTestsAnyOrder(groups, db, runs, order);
  }

  /** Main step: the written rows are, up to order, the per-query outcomes of the groups. */
  lemma WrittenRowsAnyOrder(groups: seq<seq<TestDef>>, db: Target, runs: Runs, schedule: nat -> seq<nat>, rerunSchedule: nat -> seq<nat>)
    requires forall n: nat :: IsCompletionOrder(schedule(n), n) && IsCompletionOrder(rerunSchedule(n), n)
    ensures multiset(WrittenRows(groups, db, runs, schedule, rerunSchedule)) == multiset(FlatMap(groups, GroupRows(db, runs)))
  {
    var order := schedule(|groups|);
    var n := |ErrorTests(groups, db, runs.aggregate, order)|;
    ResultRowsAnyOrder(groups, db, runs.aggregate, order);
    RerunRoundAnyOrder(groups, db, runs, order, rerunSchedule(n));
    forall i | 0 <= i < |groups|
      ensures GroupRows(db, runs)(groups[i]) == AnsweredRows(db, runs.aggregate)(groups[i]) + GroupReruns(db, runs)(groups[i])
    {
      GroupSplits(groups[i], db, runs);
    }
    FlatMapTwoPasses(groups, AnsweredRows(db, runs.aggregate), GroupReruns(db, runs), GroupRows(db, runs));
  }

  // ---------- Meaning preservation ----------

  /** What a test of a given group is owed: its own value, or an error row when it also fails alone. */
  function OwedRow(td: TestDef, g: seq<TestDef>, db: Target, runs: Runs): Row {
    if runs.aggregate(g).Fails? && runs.single([td]).Fails? then ErrorRow(td, runs.single([td]).message)
    else ValueRow(td, db)
  }

  /**
   What a row must say of its test. A value row carries its measure and its verdict: -1 for a
   prediction that lacks a tolerance, otherwise 0 if and only if its condition is true, and 1
   if it is false or unknown. An error row carries the text of its own failure and no verdict.
   */
  predicate Deserved(r: Row, g: seq<TestDef>, db: Target, runs: Runs) {
    var td := r.def;
    var training := td.predict && (td.lowerTolerance in {None, Some("")} || td.upperTolerance in {None, Some("")});
    if runs.aggregate(g).Fails? && runs.single([td]).Fails? then
      && r.status == Some("Error") && r.code == None && r.measure == None
      && r.message == Some(ChunkQueries.Join(". ", td.errors + [runs.single([td]).message]))
    else
      && r.status == None && r.message == None && r.measure == db.measureOf((td.schemaName, td.tableName), td.measure)
      && (r.code == Some("-1") <==> training)
      && (!training ==>
            && (r.code == Some("0") <==> db.holds((td.schemaName, td.tableName), Condition(td)) == Some(true))
            && (r.code == Some("1") <==> db.holds((td.schemaName, td.tableName), Condition(td)) != Some(true)))
  }

  lemma OwedIsDeserved(td: TestDef, g: seq<TestDef>, db: Target, runs: Runs)
    ensures Deserved(OwedRow(td, g, db, runs), g, db, runs) && OwedRow(td, g, db, runs).def == td
  {
    assert "-1"[0] == '-' && "0"[0] == '0' && "1"[0] == '1';
  }

  /** A failing query whose error text is empty leaves no trace. */
  predicate Silent(g: seq<TestDef>, runs: Runs) {
    && runs.aggregate(g).Fails?
    && ((runs.aggregate(g).message == "" && g != []) || exists td :: td in g && runs.single([td]) == Fails(""))
  }

  function OwedRows(g: seq<TestDef>, db: Target, runs: Runs): (rows: seq<Row>)
    ensures |rows| == |g|
  {
    seq(|g|, i requires 0 <= i < |g| => OwedRow(g[i], g, db, runs))
  }

  lemma RerunRowsOwed(td: TestDef, db: Target, runs: Runs)
    requires Clean(td, db) && runs.single([td]) != Fails("")
    ensures RerunRows(db, runs.single)(td) ==
            [if runs.single([td]).Fails? then ErrorRow(td, runs.single([td]).message) else ValueRow(td, db)]
  {
    SingleDecodes(td, db);
  }

  lemma {:induction false} ReRunsOwed(rest: seq<TestDef>, g: seq<TestDef>, db: Target, runs: Runs, k: nat)
    requires k <= |g| && rest == g[k..] && runs.aggregate(g).Fails?
    requires forall td :: td in g ==> Clean(td, db) && runs.single([td]) != Fails("")
    ensures FlatMap(rest, RerunRows(db, runs.single)) == OwedRows(g, db, runs)[k..]
    decreases |rest|
  {
    if rest != [] {
      assert g[k] in g;
      RerunRowsOwed(g[k], db, runs);
      ReRunsOwed(rest[1..], g, db, runs, k + 1);
      assert OwedRows(g, db, runs)[k..] == [OwedRow(g[k], g, db, runs)] + OwedRows(g, db, runs)[k + 1..];
    }
  }

  /** Without silent failures and with clean measures, each test of a group gets exactly the row it is owed. */
  lemma GroupRowsOwed(g: seq<TestDef>, db: Target, runs: Runs)
    requires !Silent(g, runs) && forall td :: td in g ==> Clean(td, db)
    ensures GroupRows(db, runs)(g) == OwedRows(g, db, runs)
  {
    match runs.aggregate(g) {
      case Answers =>
        DecodeExactIffClean(g, db);
        assert OwedRows(g, db, runs) == ValueRows(g, db);
      case Fails(m) =>
        if g == [] {
          assert OwedRows(g, db, runs) == [];
        } else {
          ReRunsOwed(g, g, db, runs, 0);
          assert OwedRows(g, db, runs)[0..] == OwedRows(g, db, runs);
        }
    }
  }

  /** Tests a list of rows reports on, one entry per row. */
  function Reported(rows: seq<Row>): (tests: seq<TestDef>)
    ensures |tests| == |rows|
  {
    seq(|rows|, i requires 0 <= i < |rows| => rows[i].def)
  }

  lemma {:induction false} RerunCount(tests: seq<TestDef>, db: Target, run: seq<TestDef> -> Outcome)
    ensures |FlatMap(tests, RerunRows(db, run))| <= |tests|
    ensures (exists td :: td in tests && run([td]) == Fails("")) ==> |FlatMap(tests, RerunRows(db, run))| < |tests|
  {
    if tests != [] {
      RerunCount(tests[1..], db, run);
      assert |Decoded([tests[0]], db)| == 1;
      if td :| td in tests && run([td]) == Fails("") {
        assert td == tests[0] || td in tests[1..];
      }
    }
  }

  lemma SilentGroupLosesRows(g: seq<TestDef>, db: Target, runs: Runs)
    ensures |GroupRows(db, runs)(g)| <= |g|
    ensures Silent(g, runs) ==> |GroupRows(db, runs)(g)| < |g|
  {
    RerunCount(g, db, runs.single);
    match runs.aggregate(g) {
      case Answers => assert |Decoded(g, db)| == |g|;
      case Fails(m) =>
    }
  }

  lemma {:induction false} GroupCounts(groups: seq<seq<TestDef>>, db: Target, runs: Runs)
    ensures |FlatMap(groups, GroupRows(db, runs))| <= |Flatten(groups)|
    ensures (exists g :: g in groups && Silent(g, runs)) ==> |FlatMap(groups, GroupRows(db, runs))| < |Flatten(groups)|
  {
    if groups != [] {
      GroupCounts(groups[1..], db, runs);
      SilentGroupLosesRows(groups[0], db, runs);
      if g :| g in groups && Silent(g, runs) {
        assert g == groups[0] || g in groups[1..];
      }
    }
  }

  lemma {:induction false} RowComesFromGroup(groups: seq<seq<TestDef>>, db: Target, runs: Runs, r: Row) returns (g: seq<TestDef>)
    requires r in FlatMap(groups, GroupRows(db, runs))
    ensures g in groups && r in GroupRows(db, runs)(g)
  {
    g := groups[0];
    if r !in GroupRows(db, runs)(g) {
      g := RowComesFromGroup(groups[1..], db, runs, r);
    }
  }

  /** Without silent failures and with clean measures, every row is one that a test of some group is owed. */
  lemma RowIsOwed(groups: seq<seq<TestDef>>, db: Target, runs: Runs, r: Row) returns (g: seq<TestDef>)
    requires forall g :: g in groups ==> !Silent(g, runs) && forall td :: td in g ==> Clean(td, db)
    requires r in FlatMap(groups, GroupRows(db, runs))
    ensures g in groups && r.def in g && r == OwedRow(r.def, g, db, runs)
  {
    g := RowComesFromGroup(groups, db, runs, r);
    GroupRowsOwed(g, db, runs);
    var i :| 0 <= i < |g| && OwedRows(g, db, runs)[i] == r;
    assert r.def == g[i];
  }

  lemma ReportedReordered(a: seq<Row>, b: seq<Row>)
    requires multiset(a) == multiset(b)
    ensures multiset(Reported(a)) == multiset(Reported(b))
  {
    var def: Row -> seq<TestDef> := (r: Row) => [r.def];
    FlatMapReordered(a, b, def);
    ReportedIsFlatMap(a, def);
    ReportedIsFlatMap(b, def);
  }

  lemma {:induction false} ReportedIsFlatMap(rows: seq<Row>, def: Row -> seq<TestDef>)
    requires forall r :: def(r) == [r.def]
    ensures FlatMap(rows, def) == Reported(rows)
  {
    if rows != [] {
      ReportedIsFlatMap(rows[1..], def);
      assert Reported(rows) == [rows[0].def] + Reported(rows[1..]);
    }
  }

  lemma FlattenOfMember(groups: seq<seq<TestDef>>, g: seq<TestDef>, td: TestDef)
    requires g in groups && td in g
    ensures td in Flatten(groups)
  {
    var i :| 0 <= i < |groups| && groups[i] == g;
    InFlatten(groups, i, td);
  }

  /**
   Main result: for every completion order of both rounds and every set of failing queries,
   each test gets exactly one row, and that row is its own value or, when both its aggregate
   query and its own query fail, its error row. This needs measures that survive the encoding
   and failures that carry a message.
   */
  lemma BatchingPreservesMeaning(tests: seq<TestDef>, d: Dialect, limit: int, db: Target, runs: Runs,
                                 schedule: nat -> seq<nat>, rerunSchedule: nat -> seq<nat>)
    requires forall n: nat :: IsCompletionOrder(schedule(n), n) && IsCompletionOrder(rerunSchedule(n), n)
    requires forall td :: td in tests ==> Clean(td, db)
    requires forall g :: g in Groups(tests, d, limit) ==> !Silent(g, runs)
    ensures var rows := WrittenRows(Groups(tests, d, limit), db, runs, schedule, rerunSchedule);
            && multiset(Reported(rows)) == multiset(tests)
            && forall r :: r in rows ==>
                 exists g :: g in Groups(tests, d, limit) && r.def in g && r == OwedRow(r.def, g, db, runs) && Deserved(r, g, db, runs)
  {
    var groups := Groups(tests, d, limit);
    var rows := WrittenRows(groups, db, runs, schedule, rerunSchedule);
    var perGroup := FlatMap(groups, GroupRows(db, runs));
    GroupingPermutes(tests, d, limit);
    forall g, td | g in groups && td in g ensures Clean(td, db) {
      FlattenOfMember(groups, g, td);
      assert td in multiset(Flatten(groups));
    }
    WrittenRowsAnyOrder(groups, db, runs, schedule, rerunSchedule);
    GroupsReported(groups, db, runs);
    ReportedReordered(rows, perGroup);
    forall r | r in rows
      ensures exists g :: g in groups && r.def in g && r == OwedRow(r.def, g, db, runs) && Deserved(r, g, db, runs)
    {
      assert r in multiset(rows);
      var g := RowIsOwed(groups, db, runs, r);
      OwedIsDeserved(r.def, g, db, runs);
    }
  }

  lemma ReportedAppend(a: seq<Row>, b: seq<Row>)
    ensures Reported(a + b) == Reported(a) + Reported(b)
  {
  }

  lemma {:induction false} RerunsReported(rest: seq<TestDef>, db: Target, run: seq<TestDef> -> Outcome)
    requires forall td :: td in rest ==> run([td]) != Fails("")
    ensures Reported(FlatMap(rest, RerunRows(db, run))) == rest
  {
    if rest != [] {
      assert rest[0] in rest && forall td :: td in rest[1..] ==> td in rest;
      RerunsReported(rest[1..], db, run);
      var head := RerunRows(db, run)(rest[0]);
      assert |head| == 1 && head[0].def == rest[0];
      ReportedAppend(head, FlatMap(rest[1..], RerunRows(db, run)));
      assert Reported(head) == [rest[0]];
    }
  }

  /** Without silent failures every test of a group is reported once, whatever its row says. */
  lemma GroupReported(g: seq<TestDef>, db: Target, runs: Runs)
    requires !Silent(g, runs)
    ensures Reported(GroupRows(db, runs)(g)) == g
  {
    match runs.aggregate(g) {
      case Answers =>
      case Fails(m) => RerunsReported(g, db, runs.single);
    }
  }

  lemma {:induction false} GroupsReported(groups: seq<seq<TestDef>>, db: Target, runs: Runs)
    requires forall g :: g in groups ==> !Silent(g, runs)
    ensures Reported(FlatMap(groups, GroupRows(db, runs))) == Flatten(groups)
  {
    if groups != [] {
      assert groups[0] in groups && forall g :: g in groups[1..] ==> g in groups;
      GroupsReported(groups[1..], db, runs);
      GroupReported(groups[0], db, runs);
      ReportedAppend(GroupRows(db, runs)(groups[0]), FlatMap(groups[1..], GroupRows(db, runs)));
    }
  }

  /**
   Every test gets exactly one row if and only if no failing query has an empty error text,
   whatever the measures are.
   */
  lemma OneRowPerTestIffNoSilentFailure(tests: seq<TestDef>, d: Dialect, limit: int, db: Target, runs: Runs,
                                        schedule: nat -> seq<nat>, rerunSchedule: nat -> seq<nat>)
    requires forall n: nat :: IsCompletionOrder(schedule(n), n) && IsCompletionOrder(rerunSchedule(n), n)
    ensures var rows := WrittenRows(Groups(tests, d, limit), db, runs, schedule, rerunSchedule);
            multiset(Reported(rows)) == multiset(tests) <==> forall g :: g in Groups(tests, d, limit) ==> !Silent(g, runs)
  {
    var groups := Groups(tests, d, limit);
    var rows := WrittenRows(groups, db, runs, schedule, rerunSchedule);
    WrittenRowsAnyOrder(groups, db, runs, schedule, rerunSchedule);
    GroupingPermutes(tests, d, limit);
    if forall g :: g in groups ==> !Silent(g, runs) {
      GroupsReported(groups, db, runs);
      ReportedReordered(rows, FlatMap(groups, GroupRows(db, runs)));
    } else {
      GroupCounts(groups, db, runs);
      assert |multiset(rows)| == |rows| && |multiset(Flatten(groups))| == |Flatten(groups)|;
      assert |multiset(Reported(rows))| == |rows| && |multiset(tests)| == |tests|;
    }
  }

  lemma {:induction false} NothingFromEach<A, B>(xs: seq<A>, f: A -> seq<B>)
    requires forall x :: f(x) == []
    ensures FlatMap(xs, f) == []
  {
    if xs != [] {
      NothingFromEach(xs[1..], f);
    }
  }

  /** A timeout reported without a text loses all its tests: no row is written for any of them. */
  lemma SilentOutageLosesEveryTest(tests: seq<TestDef>, d: Dialect, limit: int, db: Target, single: seq<TestDef> -> Outcome,
                                   schedule: nat -> seq<nat>, rerunSchedule: nat -> seq<nat>)
    requires forall n: nat :: IsCompletionOrder(schedule(n), n) && IsCompletionOrder(rerunSchedule(n), n)
    ensures var runs := Runs((g: seq<TestDef>) => Fails(""), single);
            WrittenRows(Groups(tests, d, limit), db, runs, schedule, rerunSchedule) == []
  {
    var runs := Runs((g: seq<TestDef>) => Fails(""), single);
    var groups := Groups(tests, d, limit);
    WrittenRowsAnyOrder(groups, db, runs, schedule, rerunSchedule);
    NothingFromEach(groups, GroupRows(db, runs));
    assert |multiset(WrittenRows(groups, db, runs, schedule, rerunSchedule))| == 0;
  }
}
