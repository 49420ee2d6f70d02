/** The bridge's durable table of records on their way to Oracle. Times are
    instants; module RetryClock shows that comparing the stored text agrees. */
module RecordInbox {
  import opened Text
  import opened Records
  import opened Eviction

  datatype Status = Received | Sent | Failed

  datatype InboxRow = InboxRow(
    rec: Record, status: Status, receivedAt: int, sentAt: Option<int>, mkDateCommitted: Option<string>,
    retryCount: nat, nextRetryAt: Option<int>, lastError: Option<string>, failedAt: Option<int>)

  type Rows = map<Records.Id, InboxRow>

  function NewRow(rec: Record, receivedAt: int): InboxRow {
    InboxRow(rec, Received, receivedAt, None, None, 0, None, None, None)
  }

  // -------------------------------------------------------------------
  // What each statement does to the table

  function Inserted(rows: Rows, row: InboxRow): Rows {
    if row.rec.eventId in rows then rows else rows[row.rec.eventId := row]
  }

  function MarkedSent(rows: Rows, id: Records.Id, mkDate: string, at: int): Rows {
    if id in rows then rows[id := rows[id].(status := Sent, mkDateCommitted := Some(mkDate), sentAt := Some(at))]
    else rows
  }

  function MarkedFailed(rows: Rows, id: Records.Id, at: int, error: string): Rows {
    if id in rows then rows[id := rows[id].(status := Failed, failedAt := Some(at), lastError := Some(error))]
    else rows
  }

  function Retried(rows: Rows, id: Records.Id, count: nat, next: Option<int>, error: string): Rows {
    if id in rows then rows[id := rows[id].(retryCount := count, nextRetryAt := next, lastError := Some(error))]
    else rows
  }

  predicate IsDue(row: InboxRow, now: int) {
    row.status == Received && (row.nextRetryAt.None? || row.nextRetryAt.value <= now)
  }

  /** The rows a scan at `now` selects, placed by arrival. */
  function DuePlaces(rows: Rows, now: int): Places {
    map id | id in rows && IsDue(rows[id], now) :: Place(0, rows[id].receivedAt)
  }

  function Rank(status: Status): nat {
    match status case Sent => 0 case Failed => 1 case Received => 2
  }

  function RingPlaces(rows: Rows): Places {
    map id | id in rows :: Place(Rank(rows[id].status), rows[id].receivedAt)
  }

  /** The sent rows, newest first. */
  function SentPlaces(rows: Rows): Places {
    map id | id in rows && rows[id].status == Sent ::
      Place(0, -(if rows[id].sentAt.Some? then rows[id].sentAt.value else rows[id].receivedAt))
  }

  /** `ring_evict` may remove `gone`. */
  ghost predicate RingVictims(rows: Rows, gone: set<Records.Id>, maxRows: int) {
    OldestFirst(RingPlaces(rows), gone) && |gone| == Excess(|rows.Keys|, maxRows)
  }

  /** `delete_sent` may remove `gone`: every sent row but the newest `keep`. */
  ghost predicate SentVictims(rows: Rows, gone: set<Records.Id>, keep: int) {
    var kept := SentPlaces(rows).Keys - gone;
    && gone <= SentPlaces(rows).Keys
    && OldestFirst(SentPlaces(rows), kept)
    && |gone| == Excess(|SentPlaces(rows).Keys|, if keep < 0 then 0 else keep)
  }

  /** Undecided rows are evicted only once nothing else is left, and then exactly
      as many as are above the bound: none while at most `maxRows` are undecided. */
  lemma UndecidedEvicted(rows: Rows, gone: set<Records.Id>, maxRows: nat)
    requires RingVictims(rows, gone, maxRows)
    ensures var undecided := set id | id in rows && rows[id].status == Received;
            && |gone * undecided| == Excess(|undecided|, maxRows)
            && (gone * undecided != {} ==> forall id | id in rows && rows[id].status != Received :: id in gone)
  {
    var undecided := set id | id in rows && rows[id].status == Received;
    var places := RingPlaces(rows);
    assert places.Keys == rows.Keys;
    LastStatusEvicted(places, gone, 2, maxRows);
    assert undecided == set id | id in places && places[id].rank == 2;
  }

  /** On the rows: `ring_evict` may remove exactly the sets of the excess size in which
      sent rows go before failed ones, failed before undecided, and within a status no
      row goes before an earlier arrival. */
  lemma RingVictimsAre(rows: Rows, gone: set<Records.Id>, maxRows: int)
    ensures RingVictims(rows, gone, maxRows) <==>
            && gone <= rows.Keys
            && |gone| == (if maxRows < 0 then |rows| else if |rows| > maxRows then |rows| - maxRows else 0)
            && forall id, other | id in gone && other in rows.Keys - gone ::
                 if rows[id].status == rows[other].status then rows[id].receivedAt <= rows[other].receivedAt
                 else rows[id].status == Sent || rows[other].status == Received
  {
    assert RingPlaces(rows).Keys == rows.Keys;
    forall id, other | id in rows && other in rows
      ensures NotAfter(RingPlaces(rows)[id], RingPlaces(rows)[other]) <==>
              if rows[id].status == rows[other].status then rows[id].receivedAt <= rows[other].receivedAt
              else rows[id].status == Sent || rows[other].status == Received
    {
      match rows[id].status
      case Sent =>
      case Failed =>
      case Received =>
    }
  }

  /** On the rows: `delete_sent` may remove exactly the sets of sent rows that leave the
      newest `keep`, by the time a row was sent, or received where that is missing. */
  lemma NewestKept(rows: Rows, gone: set<Records.Id>, keep: int)
    ensures var sent := set id | id in rows && rows[id].status == Sent;
            SentVictims(rows, gone, keep) <==>
            && gone <= sent
            && |gone| == (if keep < 0 then |sent| else if keep < |sent| then |sent| - keep else 0)
            && forall id, other | id in sent - gone && other in gone ::
                 (if rows[id].sentAt.Some? then rows[id].sentAt.value else rows[id].receivedAt) >=
                 (if rows[other].sentAt.Some? then rows[other].sentAt.value else rows[other].receivedAt)
  {
    var places := SentPlaces(rows);
    assert places.Keys == set id | id in rows && rows[id].status == Sent;
    forall id, other | id in places && other in places
      ensures NotAfter(places[id], places[other]) <==>
              (if rows[id].sentAt.Some? then rows[id].sentAt.value else rows[id].receivedAt) >=
              (if rows[other].sentAt.Some? then rows[other].sentAt.value else rows[other].receivedAt)
    {
    }
  }

  /** On the rows: a scan lists exactly the undecided rows whose retry time, if they have
      one, has come, each once and in the order of arrival. */
  lemma DueInOrder(rows: Rows, now: int, ids: seq<Records.Id>)
    ensures Sorted(DuePlaces(rows, now), ids) <==>
            && (forall id :: id in ids <==> id in rows && rows[id].status == Received
                                            && (rows[id].nextRetryAt.Some? ==> rows[id].nextRetryAt.value <= now))
            && forall i, j | 0 <= i < j < |ids| ::
                 && ids[i] != ids[j]
                 && (ids[i] in rows && ids[j] in rows ==> rows[ids[i]].receivedAt <= rows[ids[j]].receivedAt)
  {
    var places := DuePlaces(rows, now);
    assert forall id :: id in places <==> id in rows && IsDue(rows[id], now);
    if forall id :: id in ids <==> id in places {
      assert forall i | 0 <= i < |ids| :: ids[i] in ids;
    }
  }

  // -------------------------------------------------------------------
  // The repository

  class RecordInboxRepository {
    var rows: Rows

    constructor ()
      ensures rows == map[]
    {
      rows := map[];
    }

    method InsertReceived(row: InboxRow)
      modifies this
      ensures rows == Inserted(old(rows), row)
    {
      if row.rec.eventId !in rows {
        rows := rows[row.rec.eventId := row];
      }
    }

    method MarkSent(id: Records.Id, mkDate: string, at: int)
      modifies this
      ensures rows == MarkedSent(old(rows), id, mkDate, at)
    {
      if id in rows {
        rows := rows[id := rows[id].(status := Sent, mkDateCommitted := Some(mkDate), sentAt := Some(at))];
      }
    }

    method MarkFailed(id: Records.Id, at: int, error: string)
      modifies this
      ensures rows == MarkedFailed(old(rows), id, at, error)
    {
      if id in rows {
        rows := rows[id := rows[id].(status := Failed, failedAt := Some(at), lastError := Some(error))];
      }
    }

    method UpdateRetry(id: Records.Id, count: nat, next: Option<int>, error: string)
      modifies this
      ensures rows == Retried(old(rows), id, count, next, error)
    {
      if id in rows {
        rows := rows[id := rows[id].(retryCount := count, nextRetryAt := next, lastError := Some(error))];
      }
    }

    method Get(id: Records.Id) returns (row: Option<InboxRow>)
      ensures row == if id in rows then Some(rows[id]) else None
    {
      if id in rows { row := Some(rows[id]); } else { row := None; }
    }

    method IterReceivedDue(now: int) returns (ids: seq<Records.Id>)
      ensures Sorted(DuePlaces(rows, now), ids)
    {
      ids := OrderBy(DuePlaces(rows, now));
    }

    method DeleteSent(keepNewest: int) returns (dropped: seq<Records.Id>)
      modifies this
      ensures SentVictims(old(rows), Ids(dropped), keepNewest)
      ensures rows == Without(old(rows), Ids(dropped))
    {
      var keep := if keepNewest < 0 then 0 else keepNewest;
      ghost var places := SentPlaces(rows);
      var newestFirst := OrderBy(SentPlaces(rows));
      var cut := if keep < |newestFirst| then keep else |newestFirst|;
      dropped := newestFirst[cut..];
      rows := map id | id in rows && id !in dropped :: rows[id];
      PrefixIsOldestFirst(places, newestFirst, cut);
      SplitIds(places, newestFirst, cut);
    }

    method RingEvict(maxRows: int) returns (deleted: nat, ghost gone: set<Records.Id>)
      modifies this
      ensures RingVictims(old(rows), gone, maxRows)
      ensures rows == Without(old(rows), gone)
      ensures deleted == |gone|
    {
      assert RingPlaces(rows).Keys == rows.Keys;
      var victims;
      victims, deleted := Eviction.RingEvict(RingPlaces(rows), 3, maxRows);
      rows := Without(rows, victims);
      gone := victims;
    }
  }

  lemma SplitIds(places: Places, order: seq<Records.Id>, cut: nat)
    requires Sorted(places, order) && cut <= |order|
    ensures Ids(order[..cut]) == places.Keys - Ids(order[cut..])
    ensures |Ids(order[cut..])| == |order| - cut == |places.Keys| - cut
    ensures Ids(order[cut..]) <= places.Keys
  {
    DistinctCount(order);
    DistinctCount(order[cut..]);
    assert Ids(order) == places.Keys;
    forall id | id in places
      ensures id in order[..cut] <==> id !in order[cut..]
    {
      assert order == order[..cut] + order[cut..];
      assert id in order;
    }
  }

  lemma {:induction false} DistinctCount(s: seq<Records.Id>)
    requires forall i, j | 0 <= i < j < |s| :: s[i] != s[j]
    ensures |Ids(s)| == |s|
  {
    if s != [] {
      var n := |s| - 1;
      DistinctCount(s[..n]);
      assert s == s[..n] + [s[n]];
      assert Ids(s) == Ids(s[..n]) + {s[n]};
      assert s[n] !in Ids(s[..n]);
    }
  }
}
