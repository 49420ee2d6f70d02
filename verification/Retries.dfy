/** The retry time over runs: a row that failed is left alone until it is due, and the
    first scan from then on takes it. */
module Retries {
  import opened Text
  import opened Records
  import opened Oracle
  import opened Protocol
  import opened RetryClock
  import I = RecordInbox
  import B = RecordSending
  import Safety

  // -------------------------------------------------------------------
  // The rows of a batch

  /** The row is in the inbox as the scan found it. */
  predicate Untouched(rows: I.Rows, row: I.InboxRow) {
    row.rec.eventId in rows && rows[row.rec.eventId] == row && row.status == I.Received
  }

  /** The rows still to be marked are as they were found, each for another event. */
  predicate ToMark(rows: I.Rows, batch: seq<I.InboxRow>, from: nat) {
    && (forall i | from <= i < |batch| :: Untouched(rows, batch[i]))
    && (forall i, j | 0 <= i < j < |batch| :: batch[i].rec.eventId != batch[j].rec.eventId)
  }

  predicate BatchOk(rows: I.Rows, main: Main) {
    match main
    case Resting => true
    case Merging(batch, _) => ToMark(rows, batch, 0)
    case Marking(batch, _, _) => ToMark(rows, batch, 0)
    case Replying(batch, _, _) => ToMark(rows, batch, 1)
  }

  lemma ScanBatchOk(records: set<Record>, t: Table, rows: I.Rows, clock: int, batch: seq<I.InboxRow>)
    requires Safety.InboxOk(records, t, rows) && B.IsScan(rows, clock, batch)
    ensures ToMark(rows, batch, 0)
  {
    var ids: seq<Id> :| && I.Eviction.Sorted(I.DuePlaces(rows, clock), ids) && |ids| == |batch|
                        && forall i | 0 <= i < |ids| :: ids[i] in rows && batch[i] == rows[ids[i]];
    forall i | 0 <= i < |batch| ensures batch[i].rec.eventId == ids[i] && Untouched(rows, batch[i]) {
      assert ids[i] in I.DuePlaces(rows, clock);
    }
  }

  lemma RestBatchOk(rows: I.Rows, batch: seq<I.InboxRow>)
    requires batch != [] && ToMark(rows, batch, 1)
    ensures ToMark(rows, batch[1..], 0)
  {
    forall i | 0 <= i < |batch[1..]| ensures Untouched(rows, batch[1..][i]) {
      assert batch[1..][i] == batch[i + 1];
    }
  }

  /** A mark rewrites the row of its own event only. */
  lemma MarkedElsewhere(p: Params, s: State, id: Id)
    requires s.main.Marking? && s.main.batch != [] && s.main.batch[0].rec.eventId != id
    ensures var rows := Do(p, s, Mark).b.rows;
            (id in rows <==> id in s.b.rows) && (id in rows ==> rows[id] == s.b.rows[id])
  {}

  lemma MarkKeepsBatch(p: Params, s: State)
    requires s.main.Marking? && s.main.batch != [] && ToMark(s.b.rows, s.main.batch, 0)
    ensures ToMark(Do(p, s, Mark).b.rows, s.main.batch, 1)
  {
    var batch := s.main.batch;
    forall i | 1 <= i < |batch| ensures Untouched(Do(p, s, Mark).b.rows, batch[i]) {
      MarkedElsewhere(p, s, batch[i].rec.eventId);
    }
  }

  lemma StepKeepsBatch(p: Params, s: State, step: Step)
    requires Safety.InboxOk(s.records, s.b.table, s.b.rows)
    requires Enabled(p, s, step) && BatchOk(s.b.rows, s.main)
    ensures BatchOk(Do(p, s, step).b.rows, Do(p, s, step).main)
  {
    if step.RunOnce? {
      ScanStep(p, s, step.clock, step.batch);
    } else if step.Mark? {
      MarkKeepsBatch(p, s);
    } else if step.Reply? {
      RestBatchOk(s.b.rows, s.main.batch);
    } else {
      OtherStep(p, s, step);
    }
  }

  lemma ScanStep(p: Params, s: State, clock: int, batch: seq<I.InboxRow>)
    requires Safety.InboxOk(s.records, s.b.table, s.b.rows) && Enabled(p, s, RunOnce(clock, batch))
    ensures BatchOk(Do(p, s, RunOnce(clock, batch)).b.rows, Do(p, s, RunOnce(clock, batch)).main)
  {
    ScanBatchOk(s.records, s.b.table, s.b.rows, clock, batch);
  }

  /** The other steps leave the batch alone, or there is none. */
  lemma OtherStep(p: Params, s: State, step: Step)
    requires Enabled(p, s, step) && BatchOk(s.b.rows, s.main)
    requires !step.RunOnce? && !step.Mark? && !step.Reply?
    ensures BatchOk(Do(p, s, step).b.rows, Do(p, s, step).main)
  {
    if !Do(p, s, step).main.Resting? {
      OthersOnlyInsert(p, s, step);
      BatchStays(s.b.rows, Do(p, s, step).b.rows, s.main);
    }
  }

  lemma OthersOnlyInsert(p: Params, s: State, step: Step)
    requires Enabled(p, s, step) && !step.RunOnce? && !step.Mark? && !step.Reply? && !Do(p, s, step).main.Resting?
    ensures forall id | id in s.b.rows :: id in Do(p, s, step).b.rows && Do(p, s, step).b.rows[id] == s.b.rows[id]
    ensures var main := Do(p, s, step).main;
            main == s.main || (s.main.Merging? && main.Marking? && main.batch == s.main.batch)
  {
    if !IsKidStep(step) {
      match step {
        case Receive(_) =>
        case Answer(_) =>
        case Merge(_) =>
        case Foreign(_, _) =>
        case _ =>
      }
    }
  }

  lemma BatchStays(rows: I.Rows, rows': I.Rows, main: Main)
    requires BatchOk(rows, main) && forall id | id in rows :: id in rows' && rows'[id] == rows[id]
    ensures BatchOk(rows', main)
  {}

  lemma {:induction false} RunKeepsBatch(p: Params, s: State, steps: seq<Step>, t: State)
    requires BatchOk(s.b.rows, s.main)
    requires Safety.Inv(p, s) && IsRun(p, s, steps, t)
    ensures BatchOk(t.b.rows, t.main)
    decreases |steps|
  {
    if steps != [] {
      StepKeepsBatch(p, s, steps[0]);
      Safety.StepKeeps(p, s, steps[0]);
      RunKeepsBatch(p, Do(p, s, steps[0]), steps[1..], t);
    }
  }

  lemma ReachableBatch(p: Params, t: State)
    requires Reachable(p, t)
    ensures BatchOk(t.b.rows, t.main)
  {
    var s, steps :| Init(s) && IsRun(p, s, steps, t);
    Safety.InitKeeps(p, s);
    RunKeepsBatch(p, s, steps, t);
  }

  // -------------------------------------------------------------------
  // A row that waits

  /** No row from `from` on is for the event. */
  predicate Lacks(batch: seq<I.InboxRow>, from: nat, id: Id) {
    forall i | from <= i < |batch| :: batch[i].rec.eventId != id
  }

  /** The row is in the inbox, and the batch under way will not mark it. */
  predicate Parked(s: State, id: Id, row: I.InboxRow) {
    && id in s.b.rows && s.b.rows[id] == row
    && match s.main
       case Resting => true
       case Merging(batch, _) => Lacks(batch, 0, id)
       case Marking(batch, _, _) => Lacks(batch, 0, id)
       case Replying(batch, _, _) => Lacks(batch, 1, id)
  }

  /** No scan comes at or after `next`, and no ring eviction takes the row. */
  predicate Before(step: Step, id: Id, next: int) {
    (step.RunOnce? ==> step.clock < next) && (step.RingEvict? ==> id !in step.gone)
  }

  /** A scan finds the row exactly if it is due. */
  lemma ScannedIffDue(records: set<Record>, t: Table, rows: I.Rows, clock: int, batch: seq<I.InboxRow>, id: Id)
    requires Safety.InboxOk(records, t, rows) && B.IsScan(rows, clock, batch) && id in rows
    ensures Lacks(batch, 0, id) <==> !I.IsDue(rows[id], clock)
  {
    var ids: seq<Id> :| && I.Eviction.Sorted(I.DuePlaces(rows, clock), ids) && |ids| == |batch|
                        && forall i | 0 <= i < |ids| :: ids[i] in rows && batch[i] == rows[ids[i]];
    if I.IsDue(rows[id], clock) {
      assert id in I.DuePlaces(rows, clock);
      var i :| 0 <= i < |ids| && ids[i] == id;
      assert batch[i].rec.eventId == id;
    } else {
      forall i | 0 <= i < |batch| ensures batch[i].rec.eventId != id {
        assert ids[i] in I.DuePlaces(rows, clock);
      }
    }
  }

  lemma ParkedMain(p: Params, s: State, step: Step, id: Id, row: I.InboxRow, next: int)
    requires Safety.InboxOk(s.records, s.b.table, s.b.rows)
    requires Enabled(p, s, step) && Parked(s, id, row) && Before(step, id, next)
    requires row.status == I.Received && row.nextRetryAt == Some(next)
    requires step.RunOnce? || step.Mark? || step.Reply?
    ensures Parked(Do(p, s, step), id, row)
  {
    if step.RunOnce? {
      ParkedScan(p, s, step.clock, step.batch, id, row);
    } else if step.Mark? {
      ParkedMark(p, s, id, row);
    } else {
      ParkedReply(p, s, id, row);
    }
  }

  lemma ParkedStep(p: Params, s: State, step: Step, id: Id, row: I.InboxRow, next: int)
    requires Safety.InboxOk(s.records, s.b.table, s.b.rows)
    requires Enabled(p, s, step) && Parked(s, id, row) && Before(step, id, next)
    requires row.status == I.Received && row.nextRetryAt == Some(next)
    ensures Parked(Do(p, s, step), id, row)
  {
    if step.RunOnce? || step.Mark? || step.Reply? {
      ParkedMain(p, s, step, id, row, next);
    } else if step.DeleteSent? {
      ParkedDelete(p, s, step.keep, step.gone, id, row);
    } else {
      ParkedElse(p, s, step, id, row);
    }
  }

  lemma ParkedMark(p: Params, s: State, id: Id, row: I.InboxRow)
    requires Enabled(p, s, Mark) && Parked(s, id, row)
    ensures Parked(Do(p, s, Mark), id, row)
  {
    MarkedElsewhere(p, s, id);
  }

  lemma ParkedScan(p: Params, s: State, clock: int, batch: seq<I.InboxRow>, id: Id, row: I.InboxRow)
    requires Safety.InboxOk(s.records, s.b.table, s.b.rows)
    requires Enabled(p, s, RunOnce(clock, batch)) && Parked(s, id, row) && !I.IsDue(row, clock)
    ensures Parked(Do(p, s, RunOnce(clock, batch)), id, row)
  {
    ScannedIffDue(s.records, s.b.table, s.b.rows, clock, batch, id);
  }

  lemma ParkedDelete(p: Params, s: State, keep: int, gone: set<Id>, id: Id, row: I.InboxRow)
    requires Enabled(p, s, DeleteSent(keep, gone)) && Parked(s, id, row) && row.status == I.Received
    ensures Parked(Do(p, s, DeleteSent(keep, gone)), id, row)
  {
    assert id !in I.SentPlaces(s.b.rows).Keys;
  }

  lemma ParkedReply(p: Params, s: State, id: Id, row: I.InboxRow)
    requires Enabled(p, s, Reply) && Parked(s, id, row)
    ensures Parked(Do(p, s, Reply), id, row)
  {
    forall i | 0 <= i < |s.main.batch[1..]| ensures s.main.batch[1..][i].rec.eventId != id {
      assert s.main.batch[1..][i] == s.main.batch[i + 1];
    }
  }

  lemma ParkedElse(p: Params, s: State, step: Step, id: Id, row: I.InboxRow)
    requires Enabled(p, s, step) && Parked(s, id, row) && (step.RingEvict? ==> id !in step.gone)
    requires !step.RunOnce? && !step.Mark? && !step.Reply? && !step.DeleteSent?
    ensures Parked(Do(p, s, step), id, row)
  {
    if !Do(p, s, step).main.Resting? {
      OthersOnlyInsert(p, s, step);
    } else if !IsKidStep(step) {
      match step {
        case Receive(_) =>
        case Answer(_) =>
        case Crash =>
        case RingEvict(_, _) =>
        case Foreign(_, _) =>
        case EventSender(_) =>
        case _ =>
      }
    }
  }

  lemma {:induction false} ParkedRun(p: Params, s: State, steps: seq<Step>, t: State, id: Id, row: I.InboxRow,
                                     next: int)
    requires Parked(s, id, row)
    requires forall i | 0 <= i < |steps| :: Before(steps[i], id, next)
    requires row.status == I.Received && row.nextRetryAt == Some(next)
    requires Safety.Inv(p, s) && IsRun(p, s, steps, t)
    ensures Parked(t, id, row)
    decreases |steps|
  {
    if steps != [] {
      ParkedStep(p, s, steps[0], id, row, next);
      Safety.StepKeeps(p, s, steps[0]);
      assert forall i | 0 <= i < |steps[1..]| :: steps[1..][i] == steps[i + 1];
      ParkedRun(p, Do(p, s, steps[0]), steps[1..], t, id, row, next);
    }
  }

  // -------------------------------------------------------------------
  // The theorem

  /** The MERGE of the head neither succeeded nor was given up on. */
  predicate Fails(p: Params, main: Main) {
    && main.Marking? && main.batch != []
    && !IsSuccess(main.result, p.cfg.literalTest) && !GivesUp(main.result, p.cfg.unretryable)
  }

  lemma FailedIsParked(p: Params, s: State)
    requires Fails(p, s.main) && BatchOk(s.b.rows, s.main)
    ensures var row, s1 := s.main.batch[0], Do(p, s, Mark);
            var id := row.rec.eventId;
            && id in s1.b.rows && Parked(s1, id, s1.b.rows[id])
            && s1.b.rows[id].status == I.Received && s1.b.rows[id].retryCount == row.retryCount + 1
            && s1.b.rows[id].nextRetryAt == Some(s.main.now + Delay(row.retryCount + 1, p.cfg.backoff))
  {
    assert Untouched(s.b.rows, s.main.batch[0]);
  }

  predicate WaitsUntil(rows: I.Rows, id: Id, count: nat, next: int) {
    && id in rows && rows[id].status == I.Received
    && rows[id].retryCount == count && rows[id].nextRetryAt == Some(next)
  }

  /** The run after the failed attempt leaves the row parked. */
  lemma StaysParked(p: Params, s: State, steps: seq<Step>, t: State, id: Id, count: nat, next: int)
    requires WaitsUntil(s.b.rows, id, count, next)
    requires Parked(s, id, s.b.rows[id]) && forall i | 0 <= i < |steps| :: Before(steps[i], id, next)
    requires Safety.Inv(p, s) && IsRun(p, s, steps, t)
    ensures Safety.InboxOk(t.records, t.b.table, t.b.rows) && WaitsUntil(t.b.rows, id, count, next)
  {
    ParkedRun(p, s, steps, t, id, s.b.rows[id], next);
    Safety.RunKeeps(p, s, steps, t);
  }

  lemma FailedWaits(p: Params, s: State)
    requires Fails(p, s.main)
    requires Reachable(p, s)
    ensures var row, s1 := s.main.batch[0], Do(p, s, Mark);
            var id := row.rec.eventId;
            WaitsUntil(s1.b.rows, id, row.retryCount + 1, RetryAt(p, s.main)) && Parked(s1, id, s1.b.rows[id])
  {
    ReachableBatch(p, s);
    FailedIsParked(p, s);
  }

  lemma MarkedInv(p: Params, s: State)
    requires s.main.Marking? && s.main.batch != []
    requires Reachable(p, s)
    ensures Safety.Inv(p, Do(p, s, Mark))
  {
    Safety.ReachableInv(p, s);
    Safety.StepKeeps(p, s, Mark);
  }

  /** The retry time a failed attempt writes. */
  function RetryAt(p: Params, main: Main): int
    requires main.Marking? && main.batch != []
  {
    main.now + Delay(main.batch[0].retryCount + 1, p.cfg.backoff)
  }

  /** After a failed attempt, over any run with no scan at or after the retry time and
      no eviction of the row, the row stays in the inbox as it was marked. The next
      scan that reaches the query takes it exactly if the retry time has come. */
  lemma RetryTimeHolds(p: Params, s: State, steps: seq<Step>, t: State, id: Id, next: int,
                       clock: int, batch: seq<I.InboxRow>)
    requires Fails(p, s.main) && IsRun(p, Do(p, s, Mark), steps, t)
    requires id == s.main.batch[0].rec.eventId && next == RetryAt(p, s.main)
    requires forall i | 0 <= i < |steps| :: Before(steps[i], id, next)
    requires Enabled(p, t, RunOnce(clock, batch))
    requires Reachable(p, s)
    ensures WaitsUntil(t.b.rows, id, s.main.batch[0].retryCount + 1, next)
    ensures InBatch(batch, id) <==> clock >= next
  {
    var s1 := Do(p, s, Mark);
    FailedWaits(p, s);
    MarkedInv(p, s);
    StaysParked(p, s1, steps, t, id, s.main.batch[0].retryCount + 1, next);
    NextScan(p, t, clock, batch, id, next);
  }

  lemma NextScan(p: Params, t: State, clock: int, batch: seq<I.InboxRow>, id: Id, next: int)
    requires Safety.InboxOk(t.records, t.b.table, t.b.rows) && Enabled(p, t, RunOnce(clock, batch))
    requires id in t.b.rows && t.b.rows[id].status == I.Received && t.b.rows[id].nextRetryAt == Some(next)
    ensures InBatch(batch, id) <==> clock >= next
  {
    ScannedIffDue(t.records, t.b.table, t.b.rows, clock, batch, id);
  }

  predicate InBatch(batch: seq<I.InboxRow>, id: Id) { exists i | 0 <= i < |batch| :: batch[i].rec.eventId == id }
}
