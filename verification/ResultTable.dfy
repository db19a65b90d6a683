/**
 Writing rows into the results table: the values of a row go by position to the columns named
 for the whole batch.
 */
module ResultTable {
  import opened Wrappers
  import opened FlatMaps

  /** The values of a row in the order in which its query returned them; None is NULL. */
  type Cells = seq<Option<string>>

  /** A stored row: its value in each named column. */
  type Record = map<string, Option<string>>

  /** The COPY statement is refused and nothing of the batch is stored. */
  datatype CopyError = CopyRefused

  /** What a row becomes when it is written under a list of columns. */
  function RecordOf(columns: seq<string>, cells: Cells): Record {
    if columns == [] || cells == [] then map[] else RecordOf(columns[1..], cells[1..])[columns[0] := cells[0]]
  }

  function Reading(columns: seq<string>): Cells -> seq<Record> {
    (cells: Cells) => [RecordOf(columns, cells)]
  }

  predicate Distinct(columns: seq<string>) {
    forall i, j :: 0 <= i < j < |columns| ==> columns[i] != columns[j]
  }

  /** No column may be named twice, some must be named, and each row needs one value for each. */
  predicate Copyable(columns: seq<string>, rows: seq<Cells>) {
    columns != [] && Distinct(columns) && forall row :: row in rows ==> |row| == |columns|
  }

  function CopyRows(columns: seq<string>, rows: seq<Cells>): Result<seq<Record>, CopyError> {
    if Copyable(columns, rows) then Success(FlatMap(rows, Reading(columns))) else Failure(CopyRefused)
  }

  /** A record holds the value at each position under the column at that position, and nothing else. */
  lemma {:induction false} RecordAt(columns: seq<string>, cells: Cells, i: nat)
    requires Distinct(columns) && |cells| == |columns| && i < |columns|
    ensures columns[i] in RecordOf(columns, cells) && RecordOf(columns, cells)[columns[i]] == cells[i]
  {
    if i > 0 {
      assert Distinct(columns[1..]) by {
        assert forall k :: 0 <= k < |columns| - 1 ==> columns[1..][k] == columns[k + 1];
      }
      RecordAt(columns[1..], cells[1..], i - 1);
      assert columns[1..][i - 1] == columns[i] && columns[0] != columns[i];
    }
  }

  method WriteToAppDb(rows: seq<Cells>, columns: seq<string>) returns (r: Result<seq<Record>, CopyError>)
    ensures r == CopyRows(columns, rows)
  {
    if columns == [] || !Distinct(columns) {
      return Failure(CopyRefused);
    }
    var records: seq<Record> := [];
    for k := 0 to |rows|
      invariant records == FlatMap(rows[..k], Reading(columns))
      invariant forall i :: 0 <= i < k ==> |rows[i]| == |columns|
    {
      if |rows[k]| != |columns| {
        assert rows[k] in rows;
        return Failure(CopyRefused);
      }
      FlatMapPrefix(rows, k, Reading(columns));
      records := records + [RecordOf(columns, rows[k])];
    }
    assert rows[..|rows|] == rows;
    r := Success(records);
  }

  /** Both are refused, or both store the same rows. */
  predicate SameTable(a: Result<seq<Record>, CopyError>, b: Result<seq<Record>, CopyError>) {
    if a.Success? then b.Success? && multiset(a.value) == multiset(b.value) else b.Failure?
  }

  /** The order of the rows plays no part. */
  lemma CopyReordered(columns: seq<string>, rows: seq<Cells>, other: seq<Cells>)
    requires multiset(rows) == multiset(other)
    ensures SameTable(CopyRows(columns, rows), CopyRows(columns, other))
  {
    forall row: Cells ensures row in rows <==> row in other {
      assert row in multiset(rows) <==> row in multiset(other);
    }
    FlatMapReordered(rows, other, Reading(columns));
  }
}
