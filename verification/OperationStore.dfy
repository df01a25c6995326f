/**
 The operation table and its log: what each method of OperationService commits.
 A row operation is one database transaction on one row; the class applies it to
 the table in place.
 */
module OperationStore {
  import opened Basics
  import opened Strings

  type OpId = nat

  datatype Status = Queued | Running | Succeeded | Failed | Cancelled | Skipped

  predicate Terminal(st: Status) { st.Succeeded? || st.Failed? || st.Cancelled? || st.Skipped? }

  datatype LogEntry = LogEntry(sequence: nat, level: string, message: string)

  datatype Row = Row(
    status: Status,
    progress: int,
    cancelRequested: bool,
    startedAt: Option<int>,
    completedAt: Option<int>,
    error: Option<string>,
    logs: seq<LogEntry>)

  // ----- one transaction on one row -----

  /** `SELECT max(sequence)`, with 0 for an operation that has no entries. */
  function MaxSequence(logs: seq<LogEntry>): (m: nat)
    ensures forall e :: e in logs ==> e.sequence <= m
    ensures m == 0 || exists e :: e in logs && e.sequence == m
  {
    if logs == [] then 0
    else
      var rest := MaxSequence(logs[..|logs| - 1]);
      var last := logs[|logs| - 1].sequence;
      if last > rest then last else rest
  }

  function NewRow(): Row {
    Row(Queued, 0, false, None, None, None, [LogEntry(1, "info", "Operation queued")])
  }

  function Logged(r: Row, level: string, message: string, progress: Option<int>): Row {
    var entry := LogEntry(MaxSequence(r.logs) + 1, Take(level, 20), Take(message, 10_000));
    r.(logs := r.logs + [entry],
       progress := match progress
         case None => r.progress
         case Some(p) => Max(r.progress, Max(0, Min(p, 100))))
  }

  function Started(r: Row, now: int): Row {
    r.(status := Running, progress := Max(r.progress, 1), startedAt := Some(now))
  }

  /** `message.strip()[:4000] or fallback`. */
  function SafeText(message: string, fallback: string): string {
    var text := Take(Strip(message), 4000);
    if text == "" then fallback else text
  }

  /** The status transaction of `complete`, `skip`, `fail` and `cancel`; a successful or
      skipped operation has no error text. */
  function Settled(r: Row, outcome: Status, error: string, now: int): Row
    requires Terminal(outcome)
  {
    r.(status := outcome,
       progress := if outcome.Succeeded? || outcome.Skipped? then 100 else r.progress,
       error := if outcome.Succeeded? || outcome.Skipped? then None else Some(error),
       cancelRequested := r.cancelRequested || outcome.Cancelled?,
       completedAt := Some(now))
  }

  function CancelAsked(r: Row): Row {
    if Terminal(r.status) then r else r.(cancelRequested := true)
  }

  const INTERRUPTED := "Operation was interrupted by a worker restart"

  /** A RUNNING row that stale recovery would fail at `now`. */
  predicate Stale(r: Row, staleAfter: int, now: int) {
    r.status.Running? && (staleAfter <= 0 || r.startedAt.None? || r.startedAt.value <= now - staleAfter)
  }

  function Recovered(r: Row, staleAfter: int, now: int): Row {
    if Stale(r, staleAfter, now)
    then r.(status := Failed, completedAt := Some(now), error := Some(INTERRUPTED)) else r
  }

  // ----- what every transaction keeps -----

  ghost predicate Numbered(logs: seq<LogEntry>) {
    forall i :: 0 <= i < |logs| ==> logs[i].sequence == i + 1
  }

  /** Entries are numbered 1..n in order, progress is a percentage, and a
      successful end is recorded as complete. */
  ghost predicate RowValid(r: Row) {
    && Numbered(r.logs)
    && 0 <= r.progress <= 100
    && (r.status.Succeeded? || r.status.Skipped? ==> r.progress == 100)
    && (Terminal(r.status) ==> r.completedAt.Some?)
  }

  /** `after` may follow `before` in a row's history. */
  ghost predicate Grows(before: Row, after: Row) {
    && before.logs <= after.logs
    && before.progress <= after.progress
    && (before.cancelRequested ==> after.cancelRequested)
  }

  /** `after` is the valid row `before` with one more entry: its number is the next one, its
      texts are cut to their columns, and progress is raised to `progress`, taken as a
      percentage, if it was lower. */
  ghost predicate HasEntry(before: Row, after: Row, level: string, message: string, progress: Option<int>) {
    && after == before.(logs := after.logs, progress := after.progress)
    && after.logs == before.logs + [LogEntry(|before.logs| + 1, Take(level, 20), Take(message, 10_000))]
    && (progress.None? ==> after.progress == before.progress)
    && (progress.Some? && progress.value <= 0 ==> after.progress == Max(before.progress, 0))
    && (progress.Some? && 0 <= progress.value <= 100 ==> after.progress == Max(before.progress, progress.value))
    && (progress.Some? && 100 <= progress.value ==> after.progress == Max(before.progress, 100))
  }

  lemma LoggedKeeps(r: Row, level: string, message: string, progress: Option<int>)
    requires RowValid(r)
    ensures RowValid(Logged(r, level, message, progress))
    ensures Grows(r, Logged(r, level, message, progress))
    ensures HasEntry(r, Logged(r, level, message, progress), level, message, progress)
  {
  }

  lemma OthersKeep(r: Row, outcome: Status, error: string, staleAfter: int, now: int)
    requires RowValid(r) && Terminal(outcome)
    ensures RowValid(Started(r, now)) && Grows(r, Started(r, now))
    ensures RowValid(Settled(r, outcome, error, now)) && Grows(r, Settled(r, outcome, error, now))
    ensures RowValid(Recovered(r, staleAfter, now)) && Grows(r, Recovered(r, staleAfter, now))
  {
  }

  // ----- the table -----

  type Table = map<OpId, Row>

  function RecoveredAll(rows: Table, staleAfter: int, now: int): Table {
    map id | id in rows :: Recovered(rows[id], staleAfter, now)
  }

  /** Exactly the RUNNING rows that started `staleAfter` ago or earlier have been failed; all of
      them if there is no such time, and those without a start time. */
  ghost predicate OnlyStaleFailed(before: Table, after: Table, staleAfter: int, now: int) {
    && after.Keys == before.Keys
    && forall id :: id in before ==>
         var was := before[id];
         if was.status.Running? && (staleAfter <= 0 || was.startedAt.None? || was.startedAt.value + staleAfter <= now)
         then after[id] == was.(status := Failed, completedAt := Some(now),
                                error := Some("Operation was interrupted by a worker restart"))
         else after[id] == was
  }

  lemma RecoveredTable(rows: Table, staleAfter: int, now: int)
    requires TableValid(rows)
    ensures TableValid(RecoveredAll(rows, staleAfter, now)) && AllGrow(rows, RecoveredAll(rows, staleAfter, now))
    ensures OnlyStaleFailed(rows, RecoveredAll(rows, staleAfter, now), staleAfter, now)
  {
  }

  lemma Walked(rows: Table, table: Table, ids: seq<OpId>, staleAfter: int, now: int)
    requires table.Keys == rows.Keys && forall id :: id in rows ==> id in ids
    requires forall k :: 0 <= k < |ids| && ids[k] in rows ==> table[ids[k]] == Recovered(rows[ids[k]], staleAfter, now)
    ensures table == RecoveredAll(rows, staleAfter, now)
  {
  }

  /** Entries after `sequence`, in table order. */
  function Since(logs: seq<LogEntry>, sequence: nat): seq<LogEntry> {
    if logs == [] then []
    else
      var rest := Since(logs[..|logs| - 1], sequence);
      var last := logs[|logs| - 1];
      if last.sequence > sequence then rest + [last] else rest
  }

  ghost predicate TableValid(rows: Table) { forall id :: id in rows ==> RowValid(rows[id]) }

  /** No row is lost, and every row only grows. */
  ghost predicate AllGrow(before: Table, after: Table) {
    forall id :: id in before ==> id in after && Grows(before[id], after[id])
  }

  lemma GrowTwice(a: Table, b: Table, c: Table)
    requires AllGrow(a, b) && AllGrow(b, c)
    ensures AllGrow(a, c)
  {
  }

  lemma TwoWrites(rows: Table, id: OpId, a: Row, b: Row)
    ensures rows[id := a][id := b] == rows[id := b]
  {
  }

  lemma TwoCommits(earlier: seq<Table>, a: Table, b: Table)
    ensures earlier + [a] + [b] == earlier + [a, b]
  {
  }

  class OperationService {
    var rows: Table
    /** Every table committed so far, oldest first: what other transactions can read. */
    ghost var commits: seq<Table>

    ghost predicate Valid()
      reads this
    {
      TableValid(rows)
    }

    /** What a method that ends an operation has committed since `before`: nothing for a
        missing row, and else two tables, the terminal status in both, the closing entry
        only in the second. Success and a skip stand at 100 and have no error text. */
    ghost predicate Finished(before: Table, earlier: seq<Table>, id: OpId, outcome: Status, error: string,
                             level: string, entry: string, progress: Option<int>, now: int)
      requires Terminal(outcome)
      reads this
    {
      if id !in before then rows == before && commits == earlier
      else
        var was, well := before[id], outcome.Succeeded? || outcome.Skipped?;
        var ended := Row(outcome, if well then 100 else was.progress, was.cancelRequested || outcome.Cancelled?,
                         was.startedAt, Some(now), if well then None else Some(error), was.logs);
        && id in rows && HasEntry(ended, rows[id], level, entry, progress)
        && rows == before[id := rows[id]]
        && commits == earlier + [before[id := ended], rows]
    }

    constructor ()
      ensures rows == map[] && commits == [] && Valid()
    {
      rows := map[];
      commits := [];
    }

    /** A created row is valid and queued, with one numbered entry; nothing else changes. */
    method Create(id: OpId)
      requires Valid() && id !in rows
      modifies this
      ensures Valid() && rows == old(rows)[id := NewRow()] && commits == old(commits) + [rows]
      ensures rows[id] == Row(Queued, 0, false, None, None, None, [LogEntry(1, "info", "Operation queued")])
      ensures AllGrow(old(rows), rows)
    {
      rows := rows[id := NewRow()];
      commits := commits + [rows];
    }

    /** The new entry is numbered one above all others, the rest of the log stays, and
        progress never drops or leaves 0..100. */
    method AppendLog(id: OpId, level: string, message: string, progress: Option<int>)
      requires Valid()
      modifies this
      ensures Valid() && AllGrow(old(rows), rows)
      ensures id !in old(rows) ==> rows == old(rows) && commits == old(commits)
      ensures id in old(rows) ==>
        && rows == old(rows)[id := Logged(old(rows)[id], level, message, progress)]
        && HasEntry(old(rows)[id], rows[id], level, message, progress)
        && commits == old(commits) + [rows]
    {
      if id !in rows { return; }
      ghost var was := rows[id];
      LoggedKeeps(was, level, message, progress);
      var row := rows[id];
      var current := MaxSequence(row.logs);
      row := row.(logs := row.logs + [LogEntry(current + 1, Take(level, 20), Take(message, 10_000))]);
      if progress.Some? {
        row := row.(progress := Max(row.progress, Max(0, Min(progress.value, 100))));
      }
      assert row == Logged(was, level, message, progress);
      rows := rows[id := row];
      commits := commits + [rows];
    }

    /** The row is RUNNING with a start time and at least 1 percent, whatever it was
        before; its log, flag and completion time stay. */
    method MarkRunning(id: OpId, now: int) returns (found: bool)
      requires Valid()
      modifies this
      ensures Valid() && AllGrow(old(rows), rows) && found == (id in old(rows))
      ensures !found ==> rows == old(rows) && commits == old(commits)
      ensures found ==>
        && rows == old(rows)[id := Started(old(rows)[id], now)] && commits == old(commits) + [rows]
        && rows[id] == old(rows)[id].(status := Running, progress := rows[id].progress, startedAt := Some(now))
        && rows[id].progress == Max(old(rows)[id].progress, 1)
    {
      if id !in rows { return false; }
      var row := rows[id];
      rows := rows[id := row.(status := Running, progress := Max(row.progress, 1), startedAt := Some(now))];
      commits := commits + [rows];
      found := true;
    }

    /** The status transaction on an existing row: one commit. */
    method Settle(id: OpId, outcome: Status, error: string, now: int)
      requires Valid() && Terminal(outcome) && id in rows
      modifies this
      ensures Valid() && AllGrow(old(rows), rows)
      ensures rows == old(rows)[id := Settled(old(rows)[id], outcome, error, now)] && commits == old(commits) + [rows]
      ensures var was, well := old(rows)[id], outcome.Succeeded? || outcome.Skipped?;
        rows[id] == Row(outcome, if well then 100 else was.progress, was.cancelRequested || outcome.Cancelled?,
                        was.startedAt, Some(now), if well then None else Some(error), was.logs)
    {
      OthersKeep(rows[id], outcome, error, 0, now);
      var row := rows[id].(status := outcome, completedAt := Some(now));
      if outcome.Succeeded? || outcome.Skipped? {
        row := row.(progress := 100, error := None);
      } else {
        row := row.(error := Some(error));
      }
      if outcome.Cancelled? { row := row.(cancelRequested := true); }
      rows := rows[id := row];
      commits := commits + [rows];
    }

    /** Two commits: between them other transactions see the terminal status without the
        closing entry. */
    method Finish(id: OpId, outcome: Status, error: string, level: string, entry: string, progress: Option<int>,
                  now: int)
      requires Valid() && Terminal(outcome)
      modifies this
      ensures Valid() && AllGrow(old(rows), rows)
      ensures Finished(old(rows), old(commits), id, outcome, error, level, entry, progress, now)
    {
      if id !in rows { return; }
      ghost var before, earlier := rows, commits;
      Settle(id, outcome, error, now);
      ghost var middle := rows;
      AppendLog(id, level, entry, progress);
      GrowTwice(before, middle, rows);
      TwoWrites(before, id, middle[id], rows[id]);
      TwoCommits(earlier, middle, rows);
    }

    method Complete(id: OpId, now: int)
      requires Valid()
      modifies this
      ensures Valid() && AllGrow(old(rows), rows)
      ensures Finished(old(rows), old(commits), id, Succeeded, "", "info", "Operation completed successfully",
        Some(100), now)
    {
      Finish(id, Succeeded, "", "info", "Operation completed successfully", Some(100), now);
    }

    method Skip(id: OpId, message: string, now: int)
      requires Valid()
      modifies this
      ensures Valid() && AllGrow(old(rows), rows)
      ensures var text := Take(Strip(message), 4000);
        var safe := if text == "" then "Operation skipped" else text;
        Finished(old(rows), old(commits), id, Skipped, "", "notice", safe, Some(100), now)
    {
      Finish(id, Skipped, "", "notice", SafeText(message, "Operation skipped"), Some(100), now);
    }

    method Fail(id: OpId, message: string, now: int)
      requires Valid()
      modifies this
      ensures Valid() && AllGrow(old(rows), rows)
      ensures var text := Take(Strip(message), 4000);
        var safe := if text == "" then "Operation failed" else text;
        Finished(old(rows), old(commits), id, Failed, safe, "error", safe, None, now)
    {
      var safe := SafeText(message, "Operation failed");
      Finish(id, Failed, safe, "error", safe, None, now);
    }

    method Cancel(id: OpId, message: string, now: int)
      requires Valid()
      modifies this
      ensures Valid() && AllGrow(old(rows), rows)
      ensures Finished(old(rows), old(commits), id, Cancelled, Take(message, 4000), "warning", message, None, now)
    {
      Finish(id, Cancelled, Take(message, 4000), "warning", message, None, now);
    }

    /** Sets the flag of an unfinished row, in one commit, and nothing else of it; for a
        finished row nothing is committed. */
    method RequestCancel(id: OpId) returns (found: bool)
      requires Valid()
      modifies this
      ensures Valid() && AllGrow(old(rows), rows) && found == (id in old(rows))
      ensures !found || Terminal(old(rows)[id].status) ==> rows == old(rows) && commits == old(commits)
      ensures found && !Terminal(old(rows)[id].status) ==>
        && rows == old(rows)[id := old(rows)[id].(cancelRequested := true)]
        && commits == old(commits) + [rows]
      ensures found ==> rows == old(rows)[id := CancelAsked(old(rows)[id])]
    {
      if id !in rows { return false; }
      found := true;
      if Terminal(rows[id].status) {
        assert rows == rows[id := CancelAsked(rows[id])];
        return;
      }
      rows := rows[id := rows[id].(cancelRequested := true)];
      commits := commits + [rows];
    }

    /** Walks the QUEUED and RUNNING rows once: QUEUED ids are returned, stale
        RUNNING rows are failed, everything else is untouched. */
    method Recover(ids: seq<OpId>, staleAfter: int, now: int) returns (queued: seq<OpId>)
      requires Valid() && Distinct(ids) && (forall id :: id in ids <==> id in rows)
      modifies this
      ensures Valid() && AllGrow(old(rows), rows)
      ensures rows == RecoveredAll(old(rows), staleAfter, now) && commits == old(commits) + [rows]
      ensures OnlyStaleFailed(old(rows), rows, staleAfter, now)
      ensures forall id :: id in queued <==> id in old(rows) && old(rows)[id].status.Queued?
      ensures Distinct(queued)
    {
      queued := [];
      var table := rows;
      var i := 0;
      while i < |ids|
        invariant 0 <= i <= |ids| && table.Keys == rows.Keys
        invariant forall k :: 0 <= k < i ==> table[ids[k]] == Recovered(rows[ids[k]], staleAfter, now)
        invariant forall k :: i <= k < |ids| ==> table[ids[k]] == rows[ids[k]]
        invariant forall id :: id in queued <==> id in ids[..i] && rows[id].status.Queued?
        invariant Distinct(queued)
      {
        var item := table[ids[i]];
        if item.status.Queued? {
          queued := queued + [ids[i]];
        } else if item.status.Running?
          && (staleAfter <= 0 || item.startedAt.None? || item.startedAt.value <= now - staleAfter) {
          table := table[ids[i] := item.(status := Failed, completedAt := Some(now), error := Some(INTERRUPTED))];
        }
        i := i + 1;
      }
      Walked(rows, table, ids, staleAfter, now);
      RecoveredTable(rows, staleAfter, now);
      rows := table;
      commits := commits + [rows];
    }

    method LogsSince(id: OpId, sequence: nat) returns (entries: seq<LogEntry>)
      ensures entries == if id in rows then Since(rows[id].logs, sequence) else []
      ensures Valid() && id in rows ==> entries == rows[id].logs[Min(sequence, |rows[id].logs|)..]
    {
      entries := [];
      if id !in rows { return; }
      var logs := rows[id].logs;
      var i := 0;
      while i < |logs|
        invariant 0 <= i <= |logs|
        invariant entries == Since(logs[..i], sequence)
      {
        assert logs[..i + 1][..i] == logs[..i];
        if logs[i].sequence > sequence {
          entries := entries + [logs[i]];
        }
        i := i + 1;
      }
      assert logs[..i] == logs;
      if Valid() { SinceNumbered(logs, sequence); }
    }
  }

  // ----- a reader that polls the log -----

  lemma {:induction false} SinceNumbered(logs: seq<LogEntry>, sequence: nat)
    requires Numbered(logs)
    ensures Since(logs, sequence) == logs[Min(sequence, |logs|)..]
  {
    if sequence < |logs| {
      SinceNumbered(logs[..|logs| - 1], sequence);
    } else if logs != [] {
      SinceBelow(logs, sequence);
    }
  }

  lemma {:induction false} SinceBelow(logs: seq<LogEntry>, sequence: nat)
    requires forall i :: 0 <= i < |logs| ==> logs[i].sequence <= sequence
    ensures Since(logs, sequence) == []
  {
    if logs != [] {
      SinceBelow(logs[..|logs| - 1], sequence);
    }
  }

  /** The event stream: what it has sent, the last sequence number sent, and whether it has
      ended, which it does after the first visit that found a terminal status. */
  datatype Reader = Reader(received: seq<LogEntry>, cursor: nat, stopped: bool)

  /** One visit: the status was read first, the log after it. */
  function Poll(r: Reader, status: Status, logs: seq<LogEntry>): Reader {
    if r.stopped then r
    else
      var unread := Since(logs, r.cursor);
      Reader(r.received + unread, if unread == [] then r.cursor else unread[|unread| - 1].sequence, Terminal(status))
  }

  lemma PollExtends(start: nat, before: seq<LogEntry>, status: Status, logs: seq<LogEntry>)
    requires start <= |before| && before <= logs && Numbered(logs)
    ensures Poll(Reader(before[start..], |before|, false), status, logs)
      == Reader(logs[start..], |logs|, Terminal(status))
  {
    SinceNumbered(logs, |before|);
    assert logs[start..] == before[start..] + logs[|before|..];
  }
}
