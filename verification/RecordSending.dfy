/** The bridge side of record delivery: `RecordSender`. Every durable write and
    every publish is a step of its own, so that a crash can fall between any two;
    the methods are shown to be compositions of these steps. */
module RecordSending {
  import opened Text
  import opened Records
  import opened RecordInbox
  import opened Oracle
  import opened RetryClock
  import Breaker
  import Eviction

  datatype Ack = Ack(eventId: Records.Id, mkDate: Option<string>)

  datatype Nack = Nack(eventId: Records.Id, reason: string, failedAt: Option<int>)

  /** `literalTest` chooses the success test as written (`error_message is None`)
      over the meant one. */
  datatype Config = Config(
    unretryable: set<int>, permanent: set<int>, halfOpenAfter: int, backoff: BackoffPolicy, literalTest: bool)

  /** Everything the record sender changes. `acks` and `nacks` are all it ever
      published, oldest first; `breaker` is the entry of its profile. */
  datatype Bridge = Bridge(rows: Rows, table: Table, acks: seq<Ack>, nacks: seq<Nack>, breaker: Breaker.Entry)

  function ErrorText(result: MergeResult): string {
    "ORA-" + (if result.oraCode.Some? then IntText(result.oraCode.value) else "None") + ": "
    + (if result.errorMessage.Some? then result.errorMessage.value else "None")
  }

  const GIVE_UP_MARK := " (\U{8AE6}\U{3081})"

  // -------------------------------------------------------------------
  // The steps

  function Merged(b: Bridge, rec: Record, fault: Fault): Bridge {
    b.(table := TableAfter(b.table, rec, fault))
  }

  /** The durable write that follows a MERGE, with what the breaker is told.
      `row` is the copy of the row the scan returned. */
  function Marked(b: Bridge, row: InboxRow, result: MergeResult, now: int, cfg: Config): Bridge {
    var id := row.rec.eventId;
    if IsSuccess(result, cfg.literalTest) then
      b.(rows := MarkedSent(b.rows, id, row.rec.mkDate, now), breaker := Breaker.Succeeded(b.breaker))
    else if GivesUp(result, cfg.unretryable) then
      b.(rows := MarkedFailed(b.rows, id, now, ErrorText(result) + GIVE_UP_MARK))
    else
      b.(rows := Retried(b.rows, id, row.retryCount + 1, NextRetryAt(now, row.retryCount + 1, cfg.backoff),
                         ErrorText(result)),
         breaker := Breaker.Failed(b.breaker, result.oraCode, now, cfg.permanent))
  }

  /** The message that follows the write. */
  function Replied(b: Bridge, row: InboxRow, result: MergeResult, now: int, cfg: Config): Bridge {
    if IsSuccess(result, cfg.literalTest) then
      b.(acks := b.acks + [Ack(row.rec.eventId, Some(row.rec.mkDate))])
    else if GivesUp(result, cfg.unretryable) then
      b.(nacks := b.nacks + [Nack(row.rec.eventId, ErrorText(result) + GIVE_UP_MARK, Some(now))])
    else b
  }

  predicate ContentMatches(stored: Record, incoming: Record) {
    && stored.device == incoming.device
    && stored.mkDate == incoming.mkDate
    && stored.sta1 == incoming.sta1
    && stored.sta2 == incoming.sta2
    && stored.sta3 == incoming.sta3
    && stored.t1 == incoming.t1
  }

  /** What `receive` does once it has read the row for the event id. */
  function Answered(b: Bridge, rec: Record, existing: Option<InboxRow>, receivedAt: int): Bridge {
    match existing
    case None => b.(rows := Inserted(b.rows, NewRow(rec, receivedAt)))
    case Some(row) =>
      if row.status == Failed then
        if ContentMatches(row.rec, rec) then
          b.(nacks := b.nacks + [Nack(row.rec.eventId, ReasonOf(row), row.failedAt)])
        else b
      else if row.status == Sent && ContentMatches(row.rec, rec) then
        b.(acks := b.acks + [Ack(row.rec.eventId, row.mkDateCommitted)])
      else b
  }

  function ReasonOf(row: InboxRow): string {
    if row.lastError.Some? && row.lastError.value != "" then row.lastError.value else "unretryable"
  }

  // -------------------------------------------------------------------
  // Whole calls, as compositions of the steps

  function SentOne(b: Bridge, row: InboxRow, fault: Fault, now: int, cfg: Config): Bridge {
    var result := ResultOf(b.table, row.rec, fault);
    Replied(Marked(Merged(b, row.rec, fault), row, result, now, cfg), row, result, now, cfg)
  }

  function FaultAt(faults: seq<Fault>, i: nat): Fault {
    if i < |faults| then faults[i] else Clean
  }

  /** The first `n` rows of a scan sent one after the other. */
  function SentFirst(b: Bridge, batch: seq<InboxRow>, n: nat, faults: seq<Fault>, now: int, cfg: Config): Bridge
    requires n <= |batch|
  {
    if n == 0 then b
    else SentOne(SentFirst(b, batch, n - 1, faults, now, cfg), batch[n - 1], FaultAt(faults, n - 1), now, cfg)
  }

  /** What the breaker is told of one row. */
  function OutcomeOf(result: MergeResult, cfg: Config): Breaker.Outcome {
    if IsSuccess(result, cfg.literalTest) then Breaker.Success
    else if GivesUp(result, cfg.unretryable) then Breaker.GaveUp
    else Breaker.Failure(result.oraCode)
  }

  function Outcomes(b: Bridge, batch: seq<InboxRow>, n: nat, faults: seq<Fault>, now: int, cfg: Config)
    : (r: seq<Breaker.Outcome>)
    requires n <= |batch|
    ensures |r| == n
  {
    if n == 0 then []
    else
      var table := SentFirst(b, batch, n - 1, faults, now, cfg).table;
      Outcomes(b, batch, n - 1, faults, now, cfg)
      + [OutcomeOf(ResultOf(table, batch[n - 1].rec, FaultAt(faults, n - 1)), cfg)]
  }

  lemma {:induction false} BatchReports(b: Bridge, batch: seq<InboxRow>, n: nat, faults: seq<Fault>, now: int,
                                        cfg: Config)
    requires n <= |batch|
    ensures SentFirst(b, batch, n, faults, now, cfg).breaker ==
            Breaker.ReportAll(b.breaker, Outcomes(b, batch, n, faults, now, cfg), now, cfg.permanent)
  {
    if n > 0 {
      BatchReports(b, batch, n - 1, faults, now, cfg);
      var b1 := SentFirst(b, batch, n - 1, faults, now, cfg);
      SentOneReports(b1, batch[n - 1], FaultAt(faults, n - 1), now, cfg);
      Breaker.ReportNext(b.breaker, Outcomes(b, batch, n - 1, faults, now, cfg),
                         OutcomeOf(ResultOf(b1.table, batch[n - 1].rec, FaultAt(faults, n - 1)), cfg), now,
                         cfg.permanent);
    }
  }

  lemma SentOneReports(b: Bridge, row: InboxRow, fault: Fault, now: int, cfg: Config)
    ensures SentOne(b, row, fault, now, cfg).breaker ==
            Breaker.Report(b.breaker, OutcomeOf(ResultOf(b.table, row.rec, fault), cfg), now, cfg.permanent)
  {}

  /** The bridge after a scan at `now` that finds `batch`. */
  function Scanned(b: Bridge, batch: seq<InboxRow>, faults: seq<Fault>, now: int, cfg: Config): Bridge {
    var seen := b.(breaker := Breaker.Looked(b.breaker, Some(now), cfg.halfOpenAfter));
    if seen.breaker.state == Breaker.Open then seen else SentFirst(seen, batch, |batch|, faults, now, cfg)
  }

  /** To the breaker a `run_once` of the record sender is a run like the event
      sender's: it issues a MERGE for each due row or none at all. */
  lemma ScanIsBreakerRun(b: Bridge, batch: seq<InboxRow>, faults: seq<Fault>, now: int, cfg: Config, profile: string)
    ensures var seen := b.(breaker := Breaker.Looked(b.breaker, Some(now), cfg.halfOpenAfter));
            var run := Breaker.Run(profile, now, Outcomes(seen, batch, |batch|, faults, now, cfg));
            && Scanned(b, batch, faults, now, cfg).breaker
               == Breaker.AfterRun(b.breaker, run, cfg.halfOpenAfter, cfg.permanent)
            && (!Breaker.Issues(b.breaker, run, cfg.halfOpenAfter) ==> Scanned(b, batch, faults, now, cfg) == seen)
  {
    var seen := b.(breaker := Breaker.Looked(b.breaker, Some(now), cfg.halfOpenAfter));
    BatchReports(seen, batch, |batch|, faults, now, cfg);
  }

  function Handled(b: Bridge, rec: Record, receivedAt: int): Bridge {
    Answered(b, rec, if rec.eventId in b.rows then Some(b.rows[rec.eventId]) else None, receivedAt)
  }

  // -------------------------------------------------------------------
  // What the calls come to, on the rows and the messages

  /** A clean MERGE of a row whose key is free or its own commits, acks and closes the
      breaker. */
  lemma CommitAcks(b: Bridge, row: InboxRow, now: int, cfg: Config)
    requires row.rec.eventId in b.rows && !cfg.literalTest
    requires PkOf(row.rec) in b.table ==> b.table[PkOf(row.rec)] == row.rec.t1
    ensures var id, rec := row.rec.eventId, row.rec;
            SentOne(b, row, Clean, now, cfg) ==
            Bridge(b.rows[id := b.rows[id].(status := Sent, sentAt := Some(now), mkDateCommitted := Some(rec.mkDate))],
                   b.table[PkOf(rec) := rec.t1], b.acks + [Ack(id, Some(rec.mkDate))], b.nacks,
                   Breaker.Entry(Breaker.Closed, None, None))
  {
    assert PkOf(row.rec) in b.table ==> b.table[PkOf(row.rec) := row.rec.t1] == b.table;
  }

  /** With another row under its key and ORA-00001 listed the row is given up on and
      nacked, and nothing else changes. */
  lemma ConflictNacks(b: Bridge, row: InboxRow, now: int, cfg: Config)
    requires row.rec.eventId in b.rows && 1 in cfg.unretryable
    requires PkOf(row.rec) in b.table && b.table[PkOf(row.rec)] != row.rec.t1
    ensures var id, reason := row.rec.eventId, "ORA-" + "1" + ": " + "unique constraint violated" + GIVE_UP_MARK;
            SentOne(b, row, Clean, now, cfg) ==
            b.(rows := b.rows[id := b.rows[id].(status := Failed, failedAt := Some(now), lastError := Some(reason))],
               nacks := b.nacks + [Nack(id, reason, Some(now))])
  {
    assert IntText(1) == "1";
  }

  /** A failed MERGE leaves the row for its next attempt, answers nothing, and trips the
      breaker exactly if its code is a permanent one. */
  lemma FailureWaits(b: Bridge, row: InboxRow, fault: Fault, now: int, cfg: Config)
    requires row.rec.eventId in b.rows && !fault.Clean? && FaultOk(fault, cfg.unretryable)
    ensures var id, count := row.rec.eventId, row.retryCount + 1;
            var code := if fault.code.Some? then IntText(fault.code.value) else "None";
            var error := "ORA-" + code + ": " + fault.message;
            var b' := SentOne(b, row, fault, now, cfg);
            && b'.rows == b.rows[id := b.rows[id].(retryCount := count, lastError := Some(error),
                                                   nextRetryAt := NextRetryAt(now, count, cfg.backoff))]
            && b'.acks == b.acks && b'.nacks == b.nacks
            && b'.breaker == (if fault.code.Some? && fault.code.value in cfg.permanent
                              then Breaker.Entry(Breaker.Open, Some(now), fault.code) else b.breaker)
            && b'.table == (if fault.ErrorBeforeCommit? || PkOf(row.rec) in b.table then b.table
                            else b.table[PkOf(row.rec) := row.rec.t1])
  {}

  /** A record that comes for the first time is stored as it is. */
  lemma FirstIsStored(b: Bridge, rec: Record, at: int)
    requires rec.eventId !in b.rows
    ensures Handled(b, rec, at) ==
            b.(rows := b.rows[rec.eventId := InboxRow(rec, Received, at, None, None, 0, None, None, None)])
  {}

  /** One that differs from the stored record in any field, or is undecided, changes
      nothing and is not answered. */
  lemma OthersAreIgnored(b: Bridge, rec: Record, at: int)
    requires rec.eventId in b.rows
    requires var stored := b.rows[rec.eventId];
             || stored.status == Received || stored.rec.device != rec.device || stored.rec.mkDate != rec.mkDate
             || stored.rec.sta1 != rec.sta1 || stored.rec.sta2 != rec.sta2 || stored.rec.sta3 != rec.sta3
             || stored.rec.t1 != rec.t1
    ensures Handled(b, rec, at) == b
  {}

  /** Once a row is decided, its record coming again brings the same ACK or NACK again. */
  lemma AnswerIsRepeated(b: Bridge, row: InboxRow, fault: Fault, now: int, cfg: Config, at: int)
    requires row.rec.eventId in b.rows && b.rows[row.rec.eventId] == row && row.status == Received
    ensures var b1 := SentOne(b, row, fault, now, cfg);
            Handled(b1, row.rec, at) ==
            b1.(acks := b1.acks + b1.acks[|b.acks|..], nacks := b1.nacks + b1.nacks[|b.nacks|..])
  {
    var b1 := SentOne(b, row, fault, now, cfg);
    assert b1.acks[|b.acks|..] == [] || b1.acks[|b.acks|..] == [b1.acks[|b.acks|]];
    assert b1.nacks[|b.nacks|..] == [] || b1.nacks[|b.nacks|..] == [b1.nacks[|b.nacks|]];
  }

  /** `batch` is a scan's result: the due rows, oldest arrival first. */
  ghost predicate IsScan(rows: Rows, now: int, batch: seq<InboxRow>) {
    exists ids: seq<Records.Id> ::
      && Eviction.Sorted(DuePlaces(rows, now), ids)
      && |ids| == |batch|
      && forall i | 0 <= i < |ids| :: ids[i] in rows && batch[i] == rows[ids[i]]
  }

  /** A scan returns the undecided rows that are due, in the order of arrival. */
  lemma ScanInOrder(rows: Rows, now: int, batch: seq<InboxRow>)
    requires IsScan(rows, now, batch)
    requires forall id | id in rows :: rows[id].rec.eventId == id
    ensures forall row :: row in batch <==>
              && row.rec.eventId in rows && rows[row.rec.eventId] == row && row.status == Received
              && (row.nextRetryAt.Some? ==> row.nextRetryAt.value <= now)
    ensures forall i, j | 0 <= i < j < |batch| :: batch[i] != batch[j] && batch[i].receivedAt <= batch[j].receivedAt
  {
    var ids: seq<Records.Id> :| && Eviction.Sorted(DuePlaces(rows, now), ids) && |ids| == |batch|
                                && forall i | 0 <= i < |ids| :: ids[i] in rows && batch[i] == rows[ids[i]];
    DueInOrder(rows, now, ids);
    forall row: InboxRow | row.rec.eventId in rows && rows[row.rec.eventId] == row && row.rec.eventId in ids
      ensures row in batch
    {
      var i :| 0 <= i < |ids| && ids[i] == row.rec.eventId;
      assert batch[i] == row;
    }
    forall i | 0 <= i < |batch|
      ensures ids[i] in ids && batch[i].rec.eventId == ids[i]
    {
    }
  }

  // -------------------------------------------------------------------
  // The class

  class RecordSender {
    const inbox: RecordInboxRepository
    const oracle: OracleTable
    const breaker: Breaker.CircuitBreaker
    const cfg: Config
    const profile: string
    var acks: seq<Ack>
    var nacks: seq<Nack>

    constructor (inbox: RecordInboxRepository, oracle: OracleTable, breaker: Breaker.CircuitBreaker,
                 cfg: Config, profile: string)
      requires breaker.timeout == cfg.halfOpenAfter && breaker.permanent == cfg.permanent
      ensures Wired()
      ensures this.inbox == inbox && this.oracle == oracle && this.breaker == breaker && this.cfg == cfg
      ensures acks == [] && nacks == []
    {
      this.inbox, this.oracle, this.breaker, this.cfg, this.profile := inbox, oracle, breaker, cfg, profile;
      acks, nacks := [], [];
    }

    predicate Wired() {
      breaker.timeout == cfg.halfOpenAfter && breaker.permanent == cfg.permanent
    }

    ghost function View(): Bridge
      reads this, inbox, oracle, breaker
    {
      Bridge(inbox.rows, oracle.rows, acks, nacks, breaker.EntryOf(profile))
    }

    method Receive(rec: Record, receivedAt: int)
      modifies this, inbox
      ensures View() == Handled(old(View()), rec, receivedAt)
    {
      var existing := inbox.Get(rec.eventId);
      if existing.None? {
        inbox.InsertReceived(NewRow(rec, receivedAt));
        return;
      }
      var row := existing.value;
      if row.status == Failed {
        if ContentMatches(row.rec, rec) {
          nacks := nacks + [Nack(row.rec.eventId, ReasonOf(row), row.failedAt)];
        }
        return;
      }
      if row.status != Sent {
        return;
      }
      if !ContentMatches(row.rec, rec) {
        return;
      }
      acks := acks + [Ack(row.rec.eventId, row.mkDateCommitted)];
    }

    method SendOne(row: InboxRow, now: int, fault: Fault)
      requires Wired()
      modifies this, inbox, oracle, breaker
      ensures View() == SentOne(old(View()), row, fault, now, cfg)
    {
      var result := oracle.ExecuteMerge(row.rec, fault);
      if IsSuccess(result, cfg.literalTest) {
        inbox.MarkSent(row.rec.eventId, row.rec.mkDate, now);
        breaker.RecordSuccess(profile);
        acks := acks + [Ack(row.rec.eventId, Some(row.rec.mkDate))];
      } else if GivesUp(result, cfg.unretryable) {
        var lastError := ErrorText(result) + GIVE_UP_MARK;
        inbox.MarkFailed(row.rec.eventId, now, lastError);
        nacks := nacks + [Nack(row.rec.eventId, lastError, Some(now))];
      } else {
        breaker.RecordFailure(profile, result.oraCode, now);
        var attempt := row.retryCount + 1;
        inbox.UpdateRetry(row.rec.eventId, attempt, NextRetryAt(now, attempt, cfg.backoff), ErrorText(result));
      }
    }

    method Scan(now: int) returns (batch: seq<InboxRow>)
      ensures IsScan(inbox.rows, now, batch)
    {
      var ids := inbox.IterReceivedDue(now);
      forall i | 0 <= i < |ids| ensures ids[i] in inbox.rows {
        assert ids[i] in DuePlaces(inbox.rows, now);
      }
      batch := seq(|ids|, i requires 0 <= i < |ids| && ids[i] in inbox.rows reads inbox => inbox.rows[ids[i]]);
    }

    /** `onProfile` says whether the network is a known profile's; `faults` are
        what goes wrong with the MERGEs, in order. */
    method RunOnce(onProfile: bool, now: int, faults: seq<Fault>) returns (ghost batch: seq<InboxRow>)
      requires Wired()
      modifies this, inbox, oracle, breaker
      ensures !onProfile ==> View() == old(View())
      ensures onProfile ==>
                && View() == Scanned(old(View()), batch, faults, now, cfg)
                && (Breaker.Looked(old(View()).breaker, Some(now), cfg.halfOpenAfter).state == Breaker.Open
                    || IsScan(old(inbox.rows), now, batch))
    {
      batch := [];
      if !onProfile {
        return;
      }
      var state := breaker.StateFor(profile, Some(now));
      if state == Breaker.Open {
        return;
      }
      ghost var start := View();
      var rows := Scan(now);
      batch := rows;
      for i := 0 to |rows|
        invariant View() == SentFirst(start, rows, i, faults, now, cfg)
      {
        SendOne(rows[i], now, FaultAt(faults, i));
      }
    }
  }
}
