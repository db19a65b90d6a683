/**
 Rows of the job queue and their guarded status transitions. A transition names candidate
 targets in priority order; one atomic UPDATE picks the first that the current status allows.
 */
module JobExecutions {
  import opened Wrappers

  datatype JobStatus = Pending | Claimed | Running | Completed | Error | CancelRequested | Canceled

  predicate Terminal(s: JobStatus) { s == Completed || s == Error || s == Canceled }

  /** The transition map; terminal statuses have no way out. */
  function ValidTargets(s: JobStatus): set<JobStatus> {
    match s
    case Pending => {Claimed, CancelRequested}
    case Claimed => {Running, Error, CancelRequested}
    case Running => {Completed, Error, CancelRequested}
    case CancelRequested => {Canceled, CancelRequested}
    case _ => {}
  }

  /** The first candidate that the status allows. */
  function FirstAllowed(s: JobStatus, targets: seq<JobStatus>): Option<JobStatus> {
    if targets == [] then None
    else if targets[0] in ValidTargets(s) then Some(targets[0])
    else FirstAllowed(s, targets[1..])
  }

  /** Arms of a CASE expression: the statuses an arm matches and the status it yields. */
  type Cases = seq<(set<JobStatus>, JobStatus)>

  function SelectCase(cases: Cases, s: JobStatus): Option<JobStatus> {
    if cases == [] then None else if s in cases[0].0 then Some(cases[0].1) else SelectCase(cases[1..], s)
  }

  lemma {:induction false} SelectCaseSnoc(cases: Cases, arm: (set<JobStatus>, JobStatus), s: JobStatus)
    ensures SelectCase(cases + [arm], s) ==
            if SelectCase(cases, s).Some? then SelectCase(cases, s) else if s in arm.0 then Some(arm.1) else None
  {
    if cases == [] {
      assert [arm][1..] == [] && [] + [arm] == [arm];
    } else {
      SelectCaseSnoc(cases[1..], arm, s);
      assert (cases + [arm])[1..] == cases[1..] + [arm];
    }
  }

  lemma {:induction false} FirstAllowedSnoc(s: JobStatus, targets: seq<JobStatus>, target: JobStatus)
    ensures FirstAllowed(s, targets + [target]) ==
            if FirstAllowed(s, targets).Some? then FirstAllowed(s, targets)
            else if target in ValidTargets(s) then Some(target) else None
  {
    if targets == [] {
      assert [target][1..] == [] && [] + [target] == [target];
    } else {
      FirstAllowedSnoc(s, targets[1..], target);
      assert (targets + [target])[1..] == targets[1..] + [target];
    }
  }

  /**
   The CASE expression built from the candidates, earlier candidates consuming their source
   statuses first, selects exactly the first allowed candidate; the row filter admits exactly
   the statuses for which there is one.
   */
  method BuildCases(targets: seq<JobStatus>) returns (cases: Cases, allValidFrom: set<JobStatus>)
    ensures forall s :: SelectCase(cases, s) == FirstAllowed(s, targets)
    ensures forall s :: s in allValidFrom <==> FirstAllowed(s, targets).Some?
  {
    cases, allValidFrom := [], {};
    var consumed: set<JobStatus> := {};
    for i := 0 to |targets|
      invariant forall s :: SelectCase(cases, s) == FirstAllowed(s, targets[..i])
      invariant forall s :: s in allValidFrom <==> FirstAllowed(s, targets[..i]).Some?
      invariant consumed == allValidFrom
    {
      var target := targets[i];
      var validFrom := (set s: JobStatus | target in ValidTargets(s)) - consumed;
      assert targets[..i + 1] == targets[..i] + [target];
      forall s
        ensures FirstAllowed(s, targets[..i + 1]) ==
                if s in consumed then FirstAllowed(s, targets[..i]) else if s in validFrom then Some(target) else None
        ensures SelectCase(cases + [(validFrom, target)], s) ==
                if s in consumed then SelectCase(cases, s) else if s in validFrom then Some(target) else None
      {
        FirstAllowedSnoc(s, targets[..i], target);
        SelectCaseSnoc(cases, (validFrom, target), s);
      }
      if validFrom != {} {
        cases := cases + [(validFrom, target)];
        allValidFrom := allValidFrom + validFrom;
        consumed := consumed + validFrom;
      }
    }
    assert targets[..|targets|] == targets;
  }

  datatype Row = Row(
    jobKey: string, status: JobStatus,
    claimedAt: Option<int>, startedAt: Option<int>, completedAt: Option<int>, errorMessage: Option<string>)

  /** Further columns an UPDATE sets; None leaves the column alone. */
  datatype Values = Values(startedAt: Option<int>, completedAt: Option<int>, errorMessage: Option<string>)

  function NewRow(jobKey: string): Row { Row(jobKey, Pending, None, None, None, None) }

  function Transition(row: Row, targets: seq<JobStatus>, values: Values): (Row, bool) {
    match FirstAllowed(row.status, targets)
    case None => (row, false)
    case Some(target) =>
      (row.(status := target,
            startedAt := if values.startedAt.Some? then values.startedAt else row.startedAt,
            completedAt := if values.completedAt.Some? then values.completedAt else row.completedAt,
            errorMessage := if values.errorMessage.Some? then values.errorMessage else row.errorMessage), true)
  }

  function MarkRunning(row: Row, now: int): (Row, bool) { Transition(row, [Running], Values(Some(now), None, None)) }
  function MarkCompleted(row: Row, now: int): (Row, bool) { Transition(row, [Completed], Values(None, Some(now), None)) }
  function MarkCanceled(row: Row, now: int): (Row, bool) { Transition(row, [Canceled], Values(None, Some(now), None)) }
  function RequestCancel(row: Row): (Row, bool) { Transition(row, [CancelRequested], Values(None, None, None)) }

  /** ERROR, or CANCELED if a cancellation was requested concurrently. */
  function MarkInterrupted(row: Row, now: int, message: string): (Row, bool) {
    Transition(row, [Error, Canceled], Values(None, Some(now), Some(message)))
  }

  /** Which rows each transition applies to, and what it makes of them; any other row stays as it is. */
  lemma TransitionTable(row: Row, now: int, message: string)
    ensures MarkRunning(row, now) ==
            if row.status == Claimed then (row.(status := Running, startedAt := Some(now)), true) else (row, false)
    ensures MarkCompleted(row, now) ==
            if row.status == Running then (row.(status := Completed, completedAt := Some(now)), true) else (row, false)
    ensures MarkCanceled(row, now) ==
            if row.status == CancelRequested then (row.(status := Canceled, completedAt := Some(now)), true) else (row, false)
    ensures RequestCancel(row) ==
            if Terminal(row.status) then (row, false) else (row.(status := CancelRequested), true)
    ensures MarkInterrupted(row, now, message) ==
            if row.status in {Claimed, Running, CancelRequested}
            then (row.(status := if row.status == CancelRequested then Canceled else Error,
                       completedAt := Some(now), errorMessage := Some(message)), true)
            else (row, false)
  {
    assert [Error, Canceled][0] == Error && [Error, Canceled][1..] == [Canceled];
    assert FirstAllowed(row.status, [Error, Canceled]) == if Error in ValidTargets(row.status) then Some(Error) else FirstAllowed(row.status, [Canceled]);
    assert forall target :: FirstAllowed(row.status, [target]) == if target in ValidTargets(row.status) then Some(target) else None by {
      forall target ensures FirstAllowed(row.status, [target]) == if target in ValidTargets(row.status) then Some(target) else None {
        assert [target][1..] == [];
      }
    }
  }

  /** Height of a status above the end of its life. */
  function Rank(s: JobStatus): nat {
    match s case Pending => 4 case Claimed => 3 case Running => 2 case CancelRequested => 1 case _ => 0
  }

  /** Every transition but the repeated cancel request strictly descends. */
  lemma TransitionsDescend(row: Row, targets: seq<JobStatus>, values: Values)
    ensures var (r, ok) := Transition(row, targets, values);
            && (ok ==> Rank(r.status) < Rank(row.status) || (row.status == r.status == CancelRequested))
            && (Terminal(row.status) ==> !ok && r == row)
            && (row.status == CancelRequested ==> r.status in {CancelRequested, Canceled})
  {
    FirstAllowedIsAllowed(row.status, targets);
  }

  lemma {:induction false} FirstAllowedIsAllowed(s: JobStatus, targets: seq<JobStatus>)
    ensures FirstAllowed(s, targets).Some? ==> FirstAllowed(s, targets).value in ValidTargets(s)
    ensures FirstAllowed(s, targets).None? <==> forall t :: t in targets ==> t !in ValidTargets(s)
  {
    if targets != [] {
      FirstAllowedIsAllowed(s, targets[1..]);
    }
  }

  // ---------- The table and the claim ----------

  predicate IsActionable(row: Row) { row.status == Pending || row.status == CancelRequested }

  /** Ids of unlocked actionable rows; rows are numbered in the order of their creation. */
  function ActionableFrom(rows: seq<Row>, from: nat, locked: set<nat>): (ids: seq<nat>)
    requires from <= |rows|
    ensures forall i :: 0 <= i < |ids| ==> from <= ids[i] < |rows| && IsActionable(rows[ids[i]]) && ids[i] !in locked
    ensures forall i, j :: 0 <= i < j < |ids| ==> ids[i] < ids[j]
    ensures forall k :: from <= k < |rows| && IsActionable(rows[k]) && k !in locked ==> k in ids
    decreases |rows| - from
  {
    if from == |rows| then []
    else (if IsActionable(rows[from]) && from !in locked then [from] else []) + ActionableFrom(rows, from + 1, locked)
  }

  function Take<T>(s: seq<T>, n: nat): seq<T> { if |s| <= n then s else s[..n] }

  function ClaimRow(row: Row, now: int): Row {
    if row.status == Pending then row.(status := Claimed, claimedAt := Some(now)) else row
  }

  function ClaimRows(rows: seq<Row>, ids: seq<nat>, now: int): (r: seq<Row>)
    ensures |r| == |rows|
  {
    seq(|rows|, i requires 0 <= i < |rows| => if i in ids then ClaimRow(rows[i], now) else rows[i])
  }

  lemma ClaimRowsStep(rows: seq<Row>, ids: seq<nat>, i: nat, now: int)
    requires i < |ids| && ids[i] < |rows| && forall j :: 0 <= j < i ==> ids[j] != ids[i]
    ensures var before := ClaimRows(rows, ids[..i], now);
            before[ids[i]] == rows[ids[i]]
            && ClaimRows(rows, ids[..i + 1], now) == before[ids[i] := ClaimRow(rows[ids[i]], now)]
  {
    assert ids[..i + 1] == ids[..i] + [ids[i]];
    assert ids[i] !in ids[..i];
  }

  class JobTable {
    var rows: seq<Row>

    constructor ()
      ensures rows == []
    {
      rows := [];
    }

    /** Claims pending rows and picks up cancel requests, oldest first, skipping locked rows. */
    method ClaimActionable(limit: nat, locked: set<nat>, now: int) returns (ids: seq<nat>)
      modifies this
      ensures ids == Take(ActionableFrom(old(rows), 0, locked), limit)
      ensures rows == ClaimRows(old(rows), ids, now)
    {
      ids := Take(ActionableFrom(rows, 0, locked), limit);
      for i := 0 to |ids|
        invariant rows == ClaimRows(old(rows), ids[..i], now)
      {
        var id := ids[i];
        ClaimRowsStep(old(rows), ids, i, now);
        if rows[id].status == Pending {
          rows := rows[id := rows[id].(status := Claimed, claimedAt := Some(now))];
        }
      }
      assert ids[..|ids|] == ids;
    }
  }

  /** A session's copy of one row, refreshed from the row whenever an UPDATE succeeds. */
  class JobExecution {
    const table: JobTable
    const id: nat
    var copy: Row

    constructor (table: JobTable, id: nat)
      requires id < |table.rows|
      ensures this.table == table && this.id == id && copy == table.rows[id]
    {
      this.table, this.id := table, id;
      copy := table.rows[id];
    }

    /** The guarded UPDATE on the stored row; the copy plays no part in the decision. */
    method Update(targets: seq<JobStatus>, values: Values) returns (ok: bool)
      requires id < |table.rows|
      modifies this, table
      ensures var (r, applied) := Transition(old(table.rows)[id], targets, values);
              && ok == applied && table.rows == old(table.rows)[id := r]
              && copy == if ok then r else old(copy)
    {
      var cases, allValidFrom := BuildCases(targets);
      var row := table.rows[id];
      ok := row.status in allValidFrom;
      if ok {
        row := row.(status := SelectCase(cases, row.status).value,
                    startedAt := if values.startedAt.Some? then values.startedAt else row.startedAt,
                    completedAt := if values.completedAt.Some? then values.completedAt else row.completedAt,
                    errorMessage := if values.errorMessage.Some? then values.errorMessage else row.errorMessage);
        table.rows := table.rows[id := row];
        copy := row;
      }
    }
  }
}
