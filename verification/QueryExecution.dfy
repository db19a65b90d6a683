/**
 Running query and metadata tests: one query per test, in any completion order. All answers
 are written under one list of columns, so that how a row is stored may depend on which query
 completes last.
 */
module QueryExecution {
  import opened Wrappers
  import opened FlatMaps
  import ChunkQueries
  import opened TestDefs
  import opened CatResults
  import opened CatExecution
  import opened ResultTable

  /** Error texts gathered for each test, in the order of the tests. */
  type ErrorLists = seq<seq<string>>

  /** The error row of a test, if anything was noted for it. */
  function NotedRow(tests: seq<TestDef>, errors: ErrorLists): nat -> seq<Row> {
    (i: nat) => if i < |tests| && i < |errors| && errors[i] != []
                then [Row(tests[i], None, Some("Error"), Some(ChunkQueries.Join(". ", errors[i])), None)] else []
  }

  /** What is noted for a test when its query has ended. */
  function ErrorsAfter(tests: seq<TestDef>, outcomes: seq<Fetched<Cells>>): (errors: ErrorLists)
    requires |outcomes| == |tests|
    ensures |errors| == |tests|
  {
    seq(|tests|, i requires 0 <= i < |tests| =>
      tests[i].errors + if outcomes[i].Failure? && outcomes[i].error != "" then [outcomes[i].error] else [])
  }

  /** The lists after the first errors reported have been handed to their tests. */
  predicate Noted(errors: ErrorLists, tests: seq<TestDef>, reported: seq<(nat, string)>)
  {
    |errors| == |tests| && forall i :: 0 <= i < |tests| ==> errors[i] == tests[i].errors + MessagesFor(reported, i)
  }

  function MessagesFor(reported: seq<(nat, string)>, i: nat): seq<string> {
    if reported == [] then []
    else MessagesFor(reported[..|reported| - 1], i)
         + if reported[|reported| - 1].0 == i then [reported[|reported| - 1].1] else []
  }

  lemma MessagesForSnoc(before: seq<(nat, string)>, last: seq<(nat, string)>, i: nat)
    requires |last| <= 1
    ensures MessagesFor(before + last, i) == MessagesFor(before, i) + if last != [] && last[0].0 == i then [last[0].1] else []
  {
    if last == [] {
      assert before + last == before;
    } else {
      assert (before + last)[..|before|] == before;
    }
  }

  /** Queries run once each, so every test is reported at most once, wherever it completes. */
  lemma {:induction false} MessagesOfOrder(outcomes: seq<Fetched<Cells>>, order: seq<nat>, i: nat)
    requires i < |outcomes| && forall k :: 0 <= k < |order| ==> order[k] < |outcomes|
    requires forall k, l :: 0 <= k < l < |order| ==> order[k] != order[l]
    ensures MessagesFor(FlatMap(order, ErrorsAt(outcomes)), i) ==
            if i in order && outcomes[i].Failure? && outcomes[i].error != "" then [outcomes[i].error] else []
    decreases |order|
  {
    if order != [] {
      var n := |order| - 1;
      var before, last := FlatMap(order[..n], ErrorsAt(outcomes)), ErrorsAt(outcomes)(order[n]);
      MessagesOfOrder(outcomes, order[..n], i);
      FlatMapPrefix(order, n, ErrorsAt(outcomes));
      assert order[..n + 1] == order;
      assert FlatMap(order, ErrorsAt(outcomes)) == before + last;
      MessagesForSnoc(before, last, i);
      LastIsNew(order, i);
    }
  }

  lemma LastIsNew(order: seq<nat>, i: nat)
    requires order != [] && forall k, l :: 0 <= k < l < |order| ==> order[k] != order[l]
    ensures var n := |order| - 1;
            order[n] !in order[..n] && (i in order <==> i in order[..n] || i == order[n])
  {
    assert order == order[..|order| - 1] + [order[|order| - 1]];
  }

  lemma OrderHasNoRepeats(order: seq<nat>, n: nat)
    requires IsCompletionOrder(order, n)
    ensures forall k, l :: 0 <= k < l < |order| ==> order[k] != order[l]
    ensures forall i: nat :: i < n ==> i in order
  {
    forall i: nat | i < n ensures i in order {
      assert Range(n)[i] in multiset(Range(n));
      assert i in multiset(order);
    }
    forall k, l | 0 <= k < l < |order| ensures order[k] != order[l] {
      if order[k] == order[l] {
        RepeatCounts(order, k, l);
        RangeCounts(n, order[k]);
      }
    }
  }

  lemma RepeatCounts(order: seq<nat>, k: nat, l: nat)
    requires k < l < |order| && order[k] == order[l]
    ensures multiset(order)[order[k]] >= 2
  {
    assert order == order[..l] + order[l..];
    assert order[k] in order[..l] && order[l] in order[l..];
    assert order[..l][k] == order[k] && order[l..][0] == order[l];
    assert multiset(order)[order[k]] == multiset(order[..l])[order[k]] + multiset(order[l..])[order[k]];
  }

  lemma {:induction false} RangeCounts(n: nat, x: nat)
    ensures multiset(Range(n))[x] <= 1
  {
    if n > 0 {
      RangeCounts(n - 1, x);
      assert Range(n) == Range(n - 1) + [n - 1];
      assert x == n - 1 ==> x !in Range(n - 1);
    }
  }

  /** The rows of the answers as they are stored; with no rows nothing is written. */
  function StoredAnswers(outcomes: seq<Fetched<Cells>>, order: seq<nat>): Result<seq<Record>, CopyError> {
    var rows := FlatMap(order, RowsAt(outcomes));
    if rows == [] then Success([]) else CopyRows(LastColumns(outcomes, order), rows)
  }

  /** Error rows in the order of the tests, once any error is reported. */
  function ErrorRows(tests: seq<TestDef>, outcomes: seq<Fetched<Cells>>, order: seq<nat>): seq<Row>
    requires |outcomes| == |tests|
  {
    if FlatMap(order, ErrorsAt(outcomes)) == [] then []
    else FlatMap(Range(|tests|), NotedRow(tests, ErrorsAfter(tests, outcomes)))
  }

  /** Stored answers and error rows; a refused answer batch ends the run before the error rows. */
  function QueryRows(tests: seq<TestDef>, outcomes: seq<Fetched<Cells>>, order: seq<nat>)
    : Result<(seq<Record>, seq<Row>), CopyError>
    requires |outcomes| == |tests|
  {
    var stored := StoredAnswers(outcomes, order);
    if stored.Success? then Success((stored.value, ErrorRows(tests, outcomes, order))) else Failure(CopyRefused)
  }

  method RunTests(tests: seq<TestDef>, outcomes: seq<Fetched<Cells>>, order: seq<nat>)
    returns (written: Result<(seq<Record>, seq<Row>), CopyError>, progress: Progress)
    requires |outcomes| == |tests| && IsCompletionOrder(order, |tests|)
    ensures written == QueryRows(tests, outcomes, order)
    ensures progress == if written.Failure? then Running
                        else if exists i: nat :: i < |tests| && ErrorsAt(outcomes)(i) != [] then Warning else Completed
  {
    progress := Running;
    var results, resultColumns, errorData := FetchThreaded(outcomes, order);
    var stored: seq<Record> := [];
    if results != [] {
      var copied := WriteToAppDb(results, resultColumns);
      if copied.Failure? {
        return Failure(CopyRefused), progress;
      }
      stored := copied.value;
    }
    AnyErrorIsReported(outcomes, order);
    var errorRows: seq<Row> := [];
    if errorData != [] {
      errorRows := WriteErrorRows(tests, errorData, outcomes, order);
    }
    written := Success((stored, errorRows));
    progress := if |errorData| > 0 then Warning else Completed;
  }

  method WriteErrorRows(tests: seq<TestDef>, errorData: seq<(nat, string)>, ghost outcomes: seq<Fetched<Cells>>, ghost order: seq<nat>)
    returns (rows: seq<Row>)
    requires |outcomes| == |tests| && IsCompletionOrder(order, |tests|)
    requires errorData == FlatMap(order, ErrorsAt(outcomes))
    ensures rows == FlatMap(Range(|tests|), NotedRow(tests, ErrorsAfter(tests, outcomes)))
  {
    var errors := NoteErrors(tests, errorData, outcomes, order);
    rows := [];
    for i := 0 to |tests|
      invariant rows == FlatMap(Range(|tests|)[..i], NotedRow(tests, errors))
    {
      FlatMapPrefix(Range(|tests|), i, NotedRow(tests, errors));
      rows := rows + NotedRow(tests, errors)(i);
    }
    assert Range(|tests|)[..|tests|] == Range(|tests|);
  }

  lemma {:induction false} ErrorsReported(outcomes: seq<Fetched<Cells>>, order: seq<nat>)
    ensures FlatMap(order, ErrorsAt(outcomes)) != [] <==> exists i :: i in order && ErrorsAt(outcomes)(i) != []
  {
    if order != [] {
      ErrorsReported(outcomes, order[1..]);
      assert forall i :: i in order <==> i == order[0] || i in order[1..];
    }
  }

  lemma AnyErrorIsReported(outcomes: seq<Fetched<Cells>>, order: seq<nat>)
    requires IsCompletionOrder(order, |outcomes|)
    ensures FlatMap(order, ErrorsAt(outcomes)) != [] <==> exists i: nat :: i < |outcomes| && ErrorsAt(outcomes)(i) != []
  {
    ErrorsReported(outcomes, order);
    OrderHasNoRepeats(order, |outcomes|);
    CompletionOrderBounds(order, |outcomes|);
    if i: nat :| i < |outcomes| && ErrorsAt(outcomes)(i) != [] {
      assert i in order;
    }
  }

  lemma NotedStep(before: ErrorLists, after: ErrorLists, tests: seq<TestDef>, reported: seq<(nat, string)>, k: nat)
    requires k < |reported| && Noted(before, tests, reported[..k])
    requires after == if reported[k].0 < |tests| then before[reported[k].0 := before[reported[k].0] + [reported[k].1]] else before
    ensures Noted(after, tests, reported[..k + 1])
  {
    assert reported[..k + 1] == reported[..k] + [reported[k]];
    assert |before| == |tests| && |after| == |before|;
    forall i | 0 <= i < |tests| ensures after[i] == tests[i].errors + MessagesFor(reported[..k + 1], i) {
      MessagesForSnoc(reported[..k], [reported[k]], i);
      assert before[i] == tests[i].errors + MessagesFor(reported[..k], i);
    }
  }

  /** Handing each reported error to its test. */
  method NoteErrors(tests: seq<TestDef>, errorData: seq<(nat, string)>, ghost outcomes: seq<Fetched<Cells>>, ghost order: seq<nat>)
    returns (errors: ErrorLists)
    requires |outcomes| == |tests| && IsCompletionOrder(order, |tests|)
    requires errorData == FlatMap(order, ErrorsAt(outcomes))
    ensures errors == ErrorsAfter(tests, outcomes)
  {
    errors := seq(|tests|, i requires 0 <= i < |tests| => tests[i].errors);
    for k := 0 to |errorData|
      invariant Noted(errors, tests, errorData[..k])
    {
      var (index, error) := errorData[k];
      ghost var before := errors;
      if index < |tests| {
        errors := errors[index := errors[index] + [error]];
      }
      NotedStep(before, errors, tests, errorData, k);
    }
    assert errorData[..|errorData|] == errorData;
    OrderHasNoRepeats(order, |tests|);
    CompletionOrderBounds(order, |tests|);
    forall i | 0 <= i < |tests| ensures errors[i] == ErrorsAfter(tests, outcomes)[i] {
      MessagesOfOrder(outcomes, order, i);
    }
  }

  /** The error row of a test: for the failure of its query, after what was noted earlier, or for the latter alone. */
  lemma NotedRowIsErrorRow(tests: seq<TestDef>, outcomes: seq<Fetched<Cells>>, i: nat)
    requires |outcomes| == |tests| && i < |tests|
    ensures NotedRow(tests, ErrorsAfter(tests, outcomes))(i) ==
            if outcomes[i].Failure? && outcomes[i].error != "" then [ErrorRow(tests[i], outcomes[i].error)]
            else if tests[i].errors == [] then []
            else [Row(tests[i], None, Some("Error"), Some(ChunkQueries.Join(". ", tests[i].errors)), None)]
  {
    assert tests[i].errors + [] == tests[i].errors;
  }

  // ---------- Which columns the rows are written under ----------

  /** An order in which a given query completes last. */
  function LastOrder(n: nat, j: nat): seq<nat>
    requires j < n
  {
    Range(n)[..j] + Range(n)[j + 1..] + [j]
  }

  lemma LastOrderCompletes(n: nat, j: nat)
    requires j < n
    ensures IsCompletionOrder(LastOrder(n, j), n)
  {
    assert Range(n) == Range(n)[..j] + [j] + Range(n)[j + 1..];
  }

  lemma LastOrderColumns(outcomes: seq<Fetched<Cells>>, j: nat)
    requires HasRows(outcomes, j)
    ensures LastColumns(outcomes, LastOrder(|outcomes|, j)) == outcomes[j].value.columns
  {
    var order := LastOrder(|outcomes|, j);
    assert order[|order| - 1] == j;
  }

  /** The columns are those of some answer with rows, if there is one in the order. */
  lemma {:induction false} LastColumnsFromAnswer(outcomes: seq<Fetched<Cells>>, order: seq<nat>, i: nat) returns (j: nat)
    requires i in order && HasRows(outcomes, i)
    ensures j in order && HasRows(outcomes, j) && LastColumns(outcomes, order) == outcomes[j].value.columns
    decreases |order|
  {
    var n := |order| - 1;
    if HasRows(outcomes, order[n]) {
      j := order[n];
    } else {
      assert order == order[..n] + [order[n]];
      j := LastColumnsFromAnswer(outcomes, order[..n], i);
    }
  }

  /** Every row is written under the columns of its own answer. */
  predicate UnderOwnColumns(outcomes: seq<Fetched<Cells>>, order: seq<nat>) {
    forall i :: 0 <= i < |outcomes| && HasRows(outcomes, i) ==> LastColumns(outcomes, order) == outcomes[i].value.columns
  }

  /** All answers with rows name the same columns in the same order. */
  predicate OneColumnList(outcomes: seq<Fetched<Cells>>) {
    forall i, j :: 0 <= i < |outcomes| && 0 <= j < |outcomes| && HasRows(outcomes, i) && HasRows(outcomes, j) ==>
      outcomes[i].value.columns == outcomes[j].value.columns
  }

  /**
   Every row is written under its own columns for every completion order if and only if all
   answers with rows return the same list of columns.
   */
  lemma OwnColumnsIffOneList(outcomes: seq<Fetched<Cells>>)
    ensures (forall order :: IsCompletionOrder(order, |outcomes|) ==> UnderOwnColumns(outcomes, order)) <==> OneColumnList(outcomes)
  {
    if OneColumnList(outcomes) {
      forall order | IsCompletionOrder(order, |outcomes|) ensures UnderOwnColumns(outcomes, order) {
        OrderHasNoRepeats(order, |outcomes|);
        CompletionOrderBounds(order, |outcomes|);
        forall i | 0 <= i < |outcomes| && HasRows(outcomes, i)
          ensures LastColumns(outcomes, order) == outcomes[i].value.columns
        {
          var j := LastColumnsFromAnswer(outcomes, order, i);
        }
      }
    } else {
      var i, j :| 0 <= i < |outcomes| && 0 <= j < |outcomes| && HasRows(outcomes, i) && HasRows(outcomes, j)
                  && outcomes[i].value.columns != outcomes[j].value.columns;
      LastOrderCompletes(|outcomes|, j);
      LastOrderColumns(outcomes, j);
      assert !UnderOwnColumns(outcomes, LastOrder(|outcomes|, j));
    }
  }

  // ---------- Which values are stored ----------

  /** The rows of each answer read under one list of columns. */
  function ReadUnder(outcomes: seq<Fetched<Cells>>, columns: seq<string>): nat -> seq<Record> {
    (i: nat) => FlatMap(RowsAt(outcomes)(i), Reading(columns))
  }

  /** The rows of each answer read under its own columns: what its query says about its test. */
  function OwnRecords(outcomes: seq<Fetched<Cells>>): nat -> seq<Record> {
    (i: nat) => if HasRows(outcomes, i) then FlatMap(outcomes[i].value.rows, Reading(outcomes[i].value.columns)) else []
  }

  predicate StoredAsOwn(outcomes: seq<Fetched<Cells>>, order: seq<nat>) {
    StoredAnswers(outcomes, order) == Success(FlatMap(order, OwnRecords(outcomes)))
  }

  /** The rows of one answer can be written under a list of columns and read there as under their own. */
  predicate ReadsAsOwn(answer: Answer<Cells>, columns: seq<string>) {
    && Copyable(columns, answer.rows)
    && forall row :: row in answer.rows ==> RecordOf(columns, row) == RecordOf(answer.columns, row)
  }

  /** Any answer with rows may name the columns for any other. */
  predicate Interchangeable(outcomes: seq<Fetched<Cells>>) {
    forall i, j :: 0 <= i < |outcomes| && 0 <= j < |outcomes| && HasRows(outcomes, i) && HasRows(outcomes, j) ==>
      ReadsAsOwn(outcomes[i].value, outcomes[j].value.columns)
  }

  lemma {:induction false} ReadingLength(rows: seq<Cells>, columns: seq<string>)
    ensures |FlatMap(rows, Reading(columns))| == |rows|
  {
    if rows != [] {
      ReadingLength(rows[1..], columns);
    }
  }

  lemma {:induction false} SameReading(rows: seq<Cells>, columns: seq<string>, own: seq<string>)
    ensures FlatMap(rows, Reading(columns)) == FlatMap(rows, Reading(own)) <==>
            forall row :: row in rows ==> RecordOf(columns, row) == RecordOf(own, row)
  {
    if rows != [] {
      SameReading(rows[1..], columns, own);
      var a, b := FlatMap(rows, Reading(columns)), FlatMap(rows, Reading(own));
      assert a == [RecordOf(columns, rows[0])] + a[1..] && b == [RecordOf(own, rows[0])] + b[1..];
      assert forall row :: row in rows <==> row == rows[0] || row in rows[1..];
    }
  }

  /** Blocks of equal lengths: the concatenations agree only if every block does. */
  lemma {:induction false} SameBlocks<A, B>(xs: seq<A>, f: A -> seq<B>, g: A -> seq<B>)
    requires forall x :: |f(x)| == |g(x)|
    requires FlatMap(xs, f) == FlatMap(xs, g)
    ensures forall x :: x in xs ==> f(x) == g(x)
  {
    if xs != [] {
      var a, b := FlatMap(xs, f), FlatMap(xs, g);
      var n := |f(xs[0])|;
      assert a[..n] == f(xs[0]) && b[..n] == g(xs[0]);
      assert a[n..] == FlatMap(xs[1..], f) && b[n..] == FlatMap(xs[1..], g);
      SameBlocks(xs[1..], f, g);
      assert forall x :: x in xs <==> x == xs[0] || x in xs[1..];
    }
  }

  lemma BlocksAreEquallyLong(outcomes: seq<Fetched<Cells>>, columns: seq<string>)
    ensures forall i: nat :: |ReadUnder(outcomes, columns)(i)| == |OwnRecords(outcomes)(i)|
  {
    forall i: nat ensures |ReadUnder(outcomes, columns)(i)| == |OwnRecords(outcomes)(i)| {
      ReadingLength(RowsAt(outcomes)(i), columns);
      if HasRows(outcomes, i) {
        ReadingLength(outcomes[i].value.rows, outcomes[i].value.columns);
      }
    }
  }

  /** Reading all rows under one list of columns, answer by answer. */
  lemma ReadByAnswer(outcomes: seq<Fetched<Cells>>, order: seq<nat>, columns: seq<string>)
    ensures FlatMap(FlatMap(order, RowsAt(outcomes)), Reading(columns)) == FlatMap(order, ReadUnder(outcomes, columns))
  {
    FlatMapCompose(order, RowsAt(outcomes), Reading(columns), ReadUnder(outcomes, columns));
  }

  lemma RowsOfAnswers(outcomes: seq<Fetched<Cells>>, order: seq<nat>, i: nat)
    requires i in order && HasRows(outcomes, i)
    ensures FlatMap(order, RowsAt(outcomes)) != []
    ensures forall row :: row in outcomes[i].value.rows ==> row in FlatMap(order, RowsAt(outcomes))
  {
    forall row | row in outcomes[i].value.rows ensures row in FlatMap(order, RowsAt(outcomes)) {
      FlatMapMembers(order, RowsAt(outcomes), row);
      assert row in RowsAt(outcomes)(i);
    }
    assert outcomes[i].value.rows[0] in outcomes[i].value.rows;
  }

  lemma InterchangeableStoresOwn(outcomes: seq<Fetched<Cells>>, order: seq<nat>)
    requires Interchangeable(outcomes) && IsCompletionOrder(order, |outcomes|)
    ensures StoredAsOwn(outcomes, order)
  {
    var rows, columns := FlatMap(order, RowsAt(outcomes)), LastColumns(outcomes, order);
    OrderHasNoRepeats(order, |outcomes|);
    CompletionOrderBounds(order, |outcomes|);
    forall i | i in order && HasRows(outcomes, i) ensures ReadsAsOwn(outcomes[i].value, columns) {
      var j := LastColumnsFromAnswer(outcomes, order, i);
    }
    forall row | row in rows ensures columns != [] && Distinct(columns) && |row| == |columns| {
      FlatMapMembers(order, RowsAt(outcomes), row);
      var i :| i in order && row in RowsAt(outcomes)(i);
      assert HasRows(outcomes, i);
    }
    if rows != [] {
      assert rows[0] in rows && Copyable(columns, rows);
    }
    ReadByAnswer(outcomes, order, columns);
    forall k | 0 <= k < |order| ensures ReadUnder(outcomes, columns)(order[k]) == OwnRecords(outcomes)(order[k]) {
      if HasRows(outcomes, order[k]) {
        SameReading(outcomes[order[k]].value.rows, columns, outcomes[order[k]].value.columns);
      }
    }
    FlatMapSame(order, ReadUnder(outcomes, columns), OwnRecords(outcomes));
  }

  lemma StoringOwnIsInterchangeable(outcomes: seq<Fetched<Cells>>, i: nat, j: nat)
    requires HasRows(outcomes, i) && HasRows(outcomes, j) && StoredAsOwn(outcomes, LastOrder(|outcomes|, j))
    ensures ReadsAsOwn(outcomes[i].value, outcomes[j].value.columns)
  {
    var order, columns := LastOrder(|outcomes|, j), outcomes[j].value.columns;
    var rows := FlatMap(order, RowsAt(outcomes));
    LastOrderCompletes(|outcomes|, j);
    LastOrderColumns(outcomes, j);
    OrderHasNoRepeats(order, |outcomes|);
    RowsOfAnswers(outcomes, order, i);
    assert Copyable(columns, rows);
    ReadByAnswer(outcomes, order, columns);
    BlocksAreEquallyLong(outcomes, columns);
    SameBlocks(order, ReadUnder(outcomes, columns), OwnRecords(outcomes));
    SameReading(outcomes[i].value.rows, columns, outcomes[i].value.columns);
  }

  /**
   Every row is stored, for every completion order, with the values its own query gave to each
   column if and only if any answer with rows may name the columns for any other.
   */
  lemma StoredAsOwnIffInterchangeable(outcomes: seq<Fetched<Cells>>)
    ensures (forall order :: IsCompletionOrder(order, |outcomes|) ==> StoredAsOwn(outcomes, order)) <==> Interchangeable(outcomes)
  {
    if Interchangeable(outcomes) {
      forall order | IsCompletionOrder(order, |outcomes|) ensures StoredAsOwn(outcomes, order) {
        InterchangeableStoresOwn(outcomes, order);
      }
    } else {
      var i, j :| 0 <= i < |outcomes| && 0 <= j < |outcomes| && HasRows(outcomes, i) && HasRows(outcomes, j)
                  && !ReadsAsOwn(outcomes[i].value, outcomes[j].value.columns);
      LastOrderCompletes(|outcomes|, j);
      if StoredAsOwn(outcomes, LastOrder(|outcomes|, j)) {
        StoringOwnIsInterchangeable(outcomes, i, j);
      }
    }
  }

  // ---------- When the completion order plays no part ----------

  /** All rows in the order of the tests, written under the columns of one answer. */
  function StoredUnder(outcomes: seq<Fetched<Cells>>, j: nat): Result<seq<Record>, CopyError>
    requires HasRows(outcomes, j)
  {
    CopyRows(outcomes[j].value.columns, FlatMap(Range(|outcomes|), RowsAt(outcomes)))
  }

  /** The rows written are the same, answers and errors, or both runs are refused. */
  predicate SameRows(a: Result<(seq<Record>, seq<Row>), CopyError>, b: Result<(seq<Record>, seq<Row>), CopyError>) {
    if a.Success? then b.Success? && multiset(a.value.0) == multiset(b.value.0) && multiset(a.value.1) == multiset(b.value.1)
    else b.Failure?
  }

  /** With any rows at all, what is stored is decided by which answer names the columns. */
  lemma StoredByLast(outcomes: seq<Fetched<Cells>>, order: seq<nat>, i: nat) returns (j: nat)
    requires IsCompletionOrder(order, |outcomes|) && HasRows(outcomes, i)
    ensures HasRows(outcomes, j) && LastColumns(outcomes, order) == outcomes[j].value.columns
    ensures SameTable(StoredAnswers(outcomes, order), StoredUnder(outcomes, j))
  {
    OrderHasNoRepeats(order, |outcomes|);
    RowsOfAnswers(outcomes, order, i);
    j := LastColumnsFromAnswer(outcomes, order, i);
    FlatMapReordered(order, Range(|outcomes|), RowsAt(outcomes));
    CopyReordered(outcomes[j].value.columns, FlatMap(order, RowsAt(outcomes)), FlatMap(Range(|outcomes|), RowsAt(outcomes)));
  }

  lemma {:induction false} NoRowsStored(outcomes: seq<Fetched<Cells>>, order: seq<nat>)
    requires forall i: nat :: !HasRows(outcomes, i)
    ensures FlatMap(order, RowsAt(outcomes)) == []
  {
    if order != [] {
      NoRowsStored(outcomes, order[1..]);
      assert !HasRows(outcomes, order[0]);
    }
  }

  lemma ErrorRowsAnyOrder(tests: seq<TestDef>, outcomes: seq<Fetched<Cells>>, order: seq<nat>, other: seq<nat>)
    requires |outcomes| == |tests| && IsCompletionOrder(order, |tests|) && IsCompletionOrder(other, |tests|)
    ensures ErrorRows(tests, outcomes, order) == ErrorRows(tests, outcomes, other)
  {
    AnyErrorIsReported(outcomes, order);
    AnyErrorIsReported(outcomes, other);
  }

  /** Any two answers with rows, naming the columns for all rows, lead to the same table. */
  predicate SameUnderAll(outcomes: seq<Fetched<Cells>>) {
    forall i, j :: 0 <= i < |outcomes| && 0 <= j < |outcomes| && HasRows(outcomes, i) && HasRows(outcomes, j) ==>
      SameTable(StoredUnder(outcomes, i), StoredUnder(outcomes, j))
  }

  /**
   The rows written do not depend on the completion order if and only if the columns of any
   two answers with rows lead to the same table.
   */
  lemma QueryRowsAnyOrderIff(tests: seq<TestDef>, outcomes: seq<Fetched<Cells>>)
    requires |outcomes| == |tests|
    ensures (forall order, other :: IsCompletionOrder(order, |tests|) && IsCompletionOrder(other, |tests|) ==>
               SameRows(QueryRows(tests, outcomes, order), QueryRows(tests, outcomes, other)))
            <==> SameUnderAll(outcomes)
  {
    if SameUnderAll(outcomes) {
      forall order, other | IsCompletionOrder(order, |tests|) && IsCompletionOrder(other, |tests|)
        ensures SameRows(QueryRows(tests, outcomes, order), QueryRows(tests, outcomes, other))
      {
        SameUnderAllSameRows(tests, outcomes, order, other);
      }
    } else {
      var i, j :| 0 <= i < |outcomes| && 0 <= j < |outcomes| && HasRows(outcomes, i) && HasRows(outcomes, j)
                  && !SameTable(StoredUnder(outcomes, i), StoredUnder(outcomes, j));
      var order, other := LastOrder(|tests|, i), LastOrder(|tests|, j);
      LastOrdersDiffer(outcomes, i, j);
      assert !SameRows(QueryRows(tests, outcomes, order), QueryRows(tests, outcomes, other));
    }
  }

  lemma SameUnderAllSameRows(tests: seq<TestDef>, outcomes: seq<Fetched<Cells>>, order: seq<nat>, other: seq<nat>)
    requires |outcomes| == |tests| && IsCompletionOrder(order, |tests|) && IsCompletionOrder(other, |tests|)
    requires SameUnderAll(outcomes)
    ensures SameRows(QueryRows(tests, outcomes, order), QueryRows(tests, outcomes, other))
  {
    ErrorRowsAnyOrder(tests, outcomes, order, other);
    if i: nat :| HasRows(outcomes, i) {
      var a := StoredByLast(outcomes, order, i);
      var b := StoredByLast(outcomes, other, i);
      assert SameTable(StoredUnder(outcomes, a), StoredUnder(outcomes, b));
    } else {
      NoRowsStored(outcomes, order);
      NoRowsStored(outcomes, other);
    }
  }

  lemma LastOrdersDiffer(outcomes: seq<Fetched<Cells>>, i: nat, j: nat)
    requires HasRows(outcomes, i) && HasRows(outcomes, j) && !SameTable(StoredUnder(outcomes, i), StoredUnder(outcomes, j))
    ensures IsCompletionOrder(LastOrder(|outcomes|, i), |outcomes|) && IsCompletionOrder(LastOrder(|outcomes|, j), |outcomes|)
    ensures !SameTable(StoredAnswers(outcomes, LastOrder(|outcomes|, i)), StoredAnswers(outcomes, LastOrder(|outcomes|, j)))
  {
    LastOrderCompletes(|outcomes|, i);
    LastOrderCompletes(|outcomes|, j);
    LastOrderColumns(outcomes, i);
    LastOrderColumns(outcomes, j);
    var a := StoredByLast(outcomes, LastOrder(|outcomes|, i), i);
    var b := StoredByLast(outcomes, LastOrder(|outcomes|, j), j);
  }

  /** One list of columns is enough for the completion order to play no part. */
  lemma OneListAnyOrder(tests: seq<TestDef>, outcomes: seq<Fetched<Cells>>, order: seq<nat>, other: seq<nat>)
    requires |outcomes| == |tests| && IsCompletionOrder(order, |tests|) && IsCompletionOrder(other, |tests|)
    requires OneColumnList(outcomes)
    ensures SameRows(QueryRows(tests, outcomes, order), QueryRows(tests, outcomes, other))
  {
    SameUnderAllSameRows(tests, outcomes, order, other);
  }

  /** With one list, and answers whose columns are distinct and whose rows are complete, all is stored as it was returned. */
  lemma OneListStoresOwn(outcomes: seq<Fetched<Cells>>, order: seq<nat>)
    requires OneColumnList(outcomes) && IsCompletionOrder(order, |outcomes|)
    requires forall i :: 0 <= i < |outcomes| && HasRows(outcomes, i) ==> Copyable(outcomes[i].value.columns, outcomes[i].value.rows)
    ensures StoredAsOwn(outcomes, order)
  {
    forall i, j | 0 <= i < |outcomes| && 0 <= j < |outcomes| && HasRows(outcomes, i) && HasRows(outcomes, j)
      ensures ReadsAsOwn(outcomes[i].value, outcomes[j].value.columns)
    {
    }
    InterchangeableStoresOwn(outcomes, order);
  }

  // ---------- Two test types whose templates order their columns differently ----------

  const COMMON_COLUMNS := [
    "test_type", "test_definition_id", "test_suite_id", "test_run_id", "test_time", "schema_name", "table_name",
    "column_names", "threshold_value", "skip_errors", "input_parameters"]
  const FRESHNESS_COLUMNS := COMMON_COLUMNS + ["result_measure", "result_code", "result_message", "result_signal"]
  const CUSTOM_COLUMNS := COMMON_COLUMNS + ["result_signal", "result_code", "result_message", "result_measure"]

  lemma TemplateColumns()
    ensures |FRESHNESS_COLUMNS| == |CUSTOM_COLUMNS| == 15
    ensures Distinct(FRESHNESS_COLUMNS) && Distinct(CUSTOM_COLUMNS)
    ensures FRESHNESS_COLUMNS[1] == CUSTOM_COLUMNS[1]
    ensures FRESHNESS_COLUMNS[11] == CUSTOM_COLUMNS[14] && FRESHNESS_COLUMNS[14] == CUSTOM_COLUMNS[11]
  {
  }

  /** A freshness test and a custom test that both return their row. */
  function FreshnessAndCustom(freshness: Cells, custom: Cells): seq<Fetched<Cells>> {
    [Success(Answer(FRESHNESS_COLUMNS, [freshness])), Success(Answer(CUSTOM_COLUMNS, [custom]))]
  }

  /**
   Whichever completes first has its measure stored as its signal and its signal as its
   measure, so that the two orders write different rows.
   */
  lemma FreshnessAndCustomSwap(freshness: Cells, custom: Cells)
    requires |freshness| == |custom| == 15 && freshness[1] != custom[1] && freshness[11] != freshness[14]
    ensures var outcomes := FreshnessAndCustom(freshness, custom);
            && IsCompletionOrder([0, 1], 2) && IsCompletionOrder([1, 0], 2)
            && StoredAnswers(outcomes, [0, 1]) == Success([RecordOf(CUSTOM_COLUMNS, freshness), RecordOf(CUSTOM_COLUMNS, custom)])
            && StoredAnswers(outcomes, [1, 0]) == Success([RecordOf(FRESHNESS_COLUMNS, custom), RecordOf(FRESHNESS_COLUMNS, freshness)])
            && !SameTable(StoredAnswers(outcomes, [0, 1]), StoredAnswers(outcomes, [1, 0]))
    ensures var swapped := RecordOf(CUSTOM_COLUMNS, freshness);
            && FRESHNESS_COLUMNS[11] in swapped && swapped[FRESHNESS_COLUMNS[11]] == freshness[14]
            && FRESHNESS_COLUMNS[14] in swapped && swapped[FRESHNESS_COLUMNS[14]] == freshness[11]
  {
    var outcomes := FreshnessAndCustom(freshness, custom);
    TemplateColumns();
    TwoOrders();
    TwoAnswersStored(FRESHNESS_COLUMNS, freshness, CUSTOM_COLUMNS, custom);
    RecordAt(CUSTOM_COLUMNS, freshness, 11);
    RecordAt(CUSTOM_COLUMNS, freshness, 14);
    RecordAt(CUSTOM_COLUMNS, freshness, 1);
    RecordAt(FRESHNESS_COLUMNS, freshness, 11);
    RecordAt(FRESHNESS_COLUMNS, custom, 1);
    var swapped := RecordOf(CUSTOM_COLUMNS, freshness);
    var other := [RecordOf(FRESHNESS_COLUMNS, custom), RecordOf(FRESHNESS_COLUMNS, freshness)];
    assert swapped != other[0] && swapped != other[1];
    assert swapped in multiset([swapped, RecordOf(CUSTOM_COLUMNS, custom)]) && swapped !in multiset(other);
  }

  lemma TwoOrders()
    ensures IsCompletionOrder([0, 1], 2) && IsCompletionOrder([1, 0], 2)
  {
    assert Range(2) == [0, 1];
  }

  /** Two rows written under one list of columns. */
  lemma PairCopied(columns: seq<string>, x: Cells, y: Cells)
    requires columns != [] && Distinct(columns) && |x| == |y| == |columns|
    ensures CopyRows(columns, [x, y]) == Success([RecordOf(columns, x), RecordOf(columns, y)])
  {
    PairIsCopyable(columns, x, y);
    PairRead(x, y, Reading(columns), RecordOf(columns, x), RecordOf(columns, y));
  }

  lemma PairIsCopyable(columns: seq<string>, x: Cells, y: Cells)
    requires columns != [] && Distinct(columns) && |x| == |y| == |columns|
    ensures Copyable(columns, [x, y])
  {
    forall row | row in [x, y] ensures |row| == |columns| {
      assert row == x || row == y;
    }
  }

  lemma PairRead<A, B>(x: A, y: A, f: A -> seq<B>, a: B, b: B)
    requires f(x) == [a] && f(y) == [b]
    ensures FlatMap([x, y], f) == [a, b]
  {
    FlatMapPair(x, y, f);
  }

  /** Two answers of one row each: the last to complete names the columns for both. */
  lemma PairStored(outcomes: seq<Fetched<Cells>>, i: nat, j: nat, x: Cells, y: Cells)
    requires HasRows(outcomes, i) && HasRows(outcomes, j)
    requires outcomes[i].value.rows == [x] && outcomes[j].value.rows == [y]
    ensures StoredAnswers(outcomes, [i, j]) == CopyRows(outcomes[j].value.columns, [x, y])
  {
    FlatMapPair(i, j, RowsAt(outcomes));
    assert [x] + [y] == [x, y];
    assert LastColumns(outcomes, [i, j]) == outcomes[j].value.columns;
  }

  lemma TwoAnswersStored(c: seq<string>, first: Cells, d: seq<string>, second: Cells)
    requires c != [] && Distinct(c) && Distinct(d) && |first| == |second| == |c| == |d|
    ensures var outcomes: seq<Fetched<Cells>> := [Success(Answer(c, [first])), Success(Answer(d, [second]))];
            && StoredAnswers(outcomes, [0, 1]) == Success([RecordOf(d, first), RecordOf(d, second)])
            && StoredAnswers(outcomes, [1, 0]) == Success([RecordOf(c, second), RecordOf(c, first)])
  {
    var outcomes: seq<Fetched<Cells>> := [Success(Answer(c, [first])), Success(Answer(d, [second]))];
    PairStored(outcomes, 0, 1, first, second);
    PairStored(outcomes, 1, 0, second, first);
    PairCopied(d, first, second);
    PairCopied(c, second, first);
  }

  /** Two rows as the two queries return them: a fingerprint with its age, and a count without a signal. */
  lemma SwapExample() returns (freshness: Cells, custom: Cells)
    ensures |freshness| == |custom| == 15
    ensures freshness[11] == Some("5d41402a") && freshness[14] == Some("90") && custom[11] == None && custom[14] == Some("3")
    ensures var outcomes := FreshnessAndCustom(freshness, custom);
            !SameTable(StoredAnswers(outcomes, [0, 1]), StoredAnswers(outcomes, [1, 0]))
  {
    freshness := seq(15, (i: nat) => if i == 11 then Some("5d41402a") else if i == 14 then Some("90") else Some("f"));
    custom := seq(15, (i: nat) => if i == 11 then None else if i == 14 then Some("3") else Some("c"));
    FreshnessAndCustomSwap(freshness, custom);
  }
}
