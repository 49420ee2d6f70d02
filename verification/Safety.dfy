/** What holds in every reachable state of the delivery protocol: no false ACK,
    ACK and NACK exclude each other, each key is inserted at most once, and no
    accepted record disappears undecided except by ring eviction. */
module Safety {
  import opened Text
  import opened Records
  import opened Oracle
  import opened Protocol
  import Breaker
  import A = Archiving
  import D = Delivery
  import I = RecordInbox
  import B = RecordSending

  // -------------------------------------------------------------------
  // The invariant

  /** The row carries a published record, and its status tells the truth about Oracle. */
  predicate RowOk(records: set<Record>, t: Table, row: I.InboxRow) {
    && row.rec in records
    && (row.status == I.Sent ==> Holds(t, row.rec) && row.mkDateCommitted == Some(row.rec.mkDate))
    && (row.status == I.Failed ==> Conflicts(t, row.rec))
  }

  ghost predicate AckOk(records: set<Record>, t: Table, a: B.Ack) {
    exists r :: r in records && a == B.Ack(r.eventId, Some(r.mkDate)) && Holds(t, r)
  }

  ghost predicate NackOk(records: set<Record>, t: Table, n: B.Nack) {
    exists r :: r in records && n.eventId == r.eventId && Conflicts(t, r)
  }

  ghost predicate RecordsOk(records: set<Record>) {
    forall r | r in records :: Valid(r)
  }

  ghost predicate InboxOk(records: set<Record>, t: Table, rows: I.Rows) {
    forall id | id in rows :: rows[id].rec.eventId == id && RowOk(records, t, rows[id])
  }

  ghost predicate MainOk(p: Params, records: set<Record>, t: Table, main: Main) {
    && (!main.Resting? ==>
          main.batch != [] && forall i | 0 <= i < |main.batch| :: main.batch[i].rec in records)
    && (main.Marking? || main.Replying? ==>
          && (IsSuccess(main.result, p.cfg.literalTest) ==> Holds(t, main.batch[0].rec))
          && (GivesUp(main.result, p.cfg.unretryable) ==> Conflicts(t, main.batch[0].rec)))
  }

  ghost predicate RecvOk(records: set<Record>, t: Table, recv: Recv) {
    recv.Got? ==>
      && recv.rec in records
      && (recv.existing.Some? ==>
            RowOk(records, t, recv.existing.value) && recv.existing.value.rec.eventId == recv.rec.eventId)
  }

  ghost predicate AcksOk(records: set<Record>, t: Table, acks: seq<B.Ack>) {
    forall i | 0 <= i < |acks| :: AckOk(records, t, acks[i])
  }

  ghost predicate NacksOk(records: set<Record>, t: Table, nacks: seq<B.Nack>) {
    forall i | 0 <= i < |nacks| :: NackOk(records, t, nacks[i])
  }

  /** The ledger row is for a record of this child, and its status tells the
      truth about Oracle. */
  predicate LedgerRowOk(t: Table, device: string, id: Id, row: D.LedgerRow) {
    && Valid(row.payload) && row.payload.eventId == id && row.payload.device == device
    && row.mkDate == row.payload.mkDate
    && (row.status == D.Acked ==> Holds(t, row.payload))
    && (row.status == D.Nacked ==> Conflicts(t, row.payload))
  }

  ghost predicate LedgerOk(t: Table, device: string, l: D.Ledger) {
    forall id | id in l :: LedgerRowOk(t, device, id, l[id])
  }

  predicate TaskOk(device: string, l: D.Ledger, task: Task) {
    !task.Idle? ==>
      && Valid(task.rec) && task.rec.device == device
      && task.rec.eventId in l && l[task.rec.eventId].payload == task.rec
  }

  ghost predicate KidOk(t: Table, k: Kid) {
    LedgerOk(t, k.device, k.core.ledger) && TaskOk(k.device, k.core.ledger, k.task)
  }

  ghost predicate KidsOk(t: Table, kids: map<string, Kid>) {
    forall c | c in kids :: KidOk(t, kids[c])
  }

  /** Inserted rows are published records with different keys; every other row
      was written by another program. */
  ghost predicate InsertsOk(records: set<Record>, t: Table, foreign: set<Pk>, inserts: seq<Record>) {
    && (forall i | 0 <= i < |inserts| :: inserts[i] in records && Holds(t, inserts[i]) && PkOf(inserts[i]) !in foreign)
    && (forall i, j | 0 <= i < j < |inserts| :: PkOf(inserts[i]) != PkOf(inserts[j]))
    && (forall k | k in t :: k in foreign || WasInserted(k, inserts))
    && foreign <= t.Keys
  }

  ghost predicate WasInserted(k: Pk, inserts: seq<Record>) {
    exists i | 0 <= i < |inserts| :: PkOf(inserts[i]) == k
  }

  predicate Settled(t: Table, r: Record) { Holds(t, r) || Conflicts(t, r) }

  predicate Kept(t: Table, rows: I.Rows, lost: set<Record>, r: Record) {
    (r.eventId in rows && rows[r.eventId].rec == r) || Settled(t, r) || r in lost
  }

  ghost predicate ConservedOk(records: set<Record>, t: Table, rows: I.Rows, accepted: set<Record>, lost: set<Record>) {
    forall r | r in accepted :: r in records && Kept(t, rows, lost, r)
  }

  ghost predicate Inv(p: Params, s: State) {
    && RecordsOk(s.records)
    && InboxOk(s.records, s.b.table, s.b.rows)
    && MainOk(p, s.records, s.b.table, s.main)
    && RecvOk(s.records, s.b.table, s.recv)
    && AcksOk(s.records, s.b.table, s.b.acks)
    && NacksOk(s.records, s.b.table, s.b.nacks)
    && KidsOk(s.b.table, s.kids)
    && InsertsOk(s.records, s.b.table, s.foreign, s.inserts)
    && ConservedOk(s.records, s.b.table, s.b.rows, s.accepted, s.lost)
    && Breaker.Dated(s.b.breaker)
  }

  // -------------------------------------------------------------------
  // Growth: published records and Oracle rows are never taken back

  lemma AckGrown(records: set<Record>, t: Table, records': set<Record>, t': Table, a: B.Ack)
    requires records <= records' && Grown(t, t') && AckOk(records, t, a)
    ensures AckOk(records', t', a)
  {
    var r :| r in records && a == B.Ack(r.eventId, Some(r.mkDate)) && Holds(t, r);
    assert r in records' && Holds(t', r);
  }

  lemma NackGrown(records: set<Record>, t: Table, records': set<Record>, t': Table, n: B.Nack)
    requires records <= records' && Grown(t, t') && NackOk(records, t, n)
    ensures NackOk(records', t', n)
  {
    var r :| r in records && n.eventId == r.eventId && Conflicts(t, r);
    assert r in records' && Conflicts(t', r);
  }

  lemma AnswersGrown(records: set<Record>, t: Table, records': set<Record>, t': Table,
                     acks: seq<B.Ack>, nacks: seq<B.Nack>)
    requires records <= records' && Grown(t, t') && AcksOk(records, t, acks) && NacksOk(records, t, nacks)
    ensures AcksOk(records', t', acks) && NacksOk(records', t', nacks)
  {
    forall i | 0 <= i < |acks| ensures AckOk(records', t', acks[i]) {
      AckGrown(records, t, records', t', acks[i]);
    }
    forall i | 0 <= i < |nacks| ensures NackOk(records', t', nacks[i]) {
      NackGrown(records, t, records', t', nacks[i]);
    }
  }

  lemma KidsGrown(t: Table, t': Table, kids: map<string, Kid>)
    requires Grown(t, t') && KidsOk(t, kids)
    ensures KidsOk(t', kids)
  {
    forall c | c in kids ensures KidOk(t', kids[c]) {
      assert KidOk(t, kids[c]);
      forall id | id in kids[c].core.ledger ensures LedgerRowOk(t', kids[c].device, id, kids[c].core.ledger[id]) {
        assert LedgerRowOk(t, kids[c].device, id, kids[c].core.ledger[id]);
        GrownKeeps(t, t', kids[c].core.ledger[id].payload);
      }
    }
  }

  lemma InboxGrown(records: set<Record>, t: Table, records': set<Record>, t': Table, rows: I.Rows)
    requires records <= records' && Grown(t, t') && InboxOk(records, t, rows)
    ensures InboxOk(records', t', rows)
  {}

  lemma ConservedGrown(records: set<Record>, t: Table, records': set<Record>, t': Table,
                       rows: I.Rows, accepted: set<Record>, lost: set<Record>)
    requires records <= records' && Grown(t, t') && ConservedOk(records, t, rows, accepted, lost)
    ensures ConservedOk(records', t', rows, accepted, lost)
  {
    forall r | r in accepted ensures r in records' && Kept(t', rows, lost, r) {
      assert Kept(t, rows, lost, r);
      GrownKeeps(t, t', r);
    }
  }

  // -------------------------------------------------------------------
  // Steps of a child

  /** An ACK the bridge sent is for this very record. */
  lemma AckFits(records: set<Record>, t: Table, a: B.Ack, payload: Record)
    requires RecordsOk(records) && AckOk(records, t, a)
    requires Valid(payload) && a.eventId == payload.eventId
    ensures Holds(t, payload) && a.mkDate == Some(payload.mkDate)
  {
    var r :| r in records && a == B.Ack(r.eventId, Some(r.mkDate)) && Holds(t, r);
    EventIdInjective(r, payload);
  }

  lemma NackFits(records: set<Record>, t: Table, n: B.Nack, payload: Record)
    requires RecordsOk(records) && NackOk(records, t, n)
    requires Valid(payload) && n.eventId == payload.eventId
    ensures Conflicts(t, payload)
  {
    var r :| r in records && n.eventId == r.eventId && Conflicts(t, r);
    EventIdInjective(r, payload);
  }

  lemma AckHandled(records: set<Record>, t: Table, a: B.Ack, device: string, l: D.Ledger)
    requires RecordsOk(records) && AckOk(records, t, a) && LedgerOk(t, device, l)
    ensures LedgerOk(t, device, D.HandledAck(l, AckBody(a)))
  {
    if a.eventId in l {
      assert LedgerRowOk(t, device, a.eventId, l[a.eventId]);
      AckFits(records, t, a, l[a.eventId].payload);
    }
  }

  lemma NackHandled(records: set<Record>, t: Table, n: B.Nack, device: string, l: D.Ledger, nackEnabled: bool)
    requires RecordsOk(records) && NackOk(records, t, n) && LedgerOk(t, device, l)
    ensures LedgerOk(t, device, D.HandledNack(l, nackEnabled, NackBody(n)))
  {
    if n.eventId in l {
      assert LedgerRowOk(t, device, n.eventId, l[n.eventId]);
      NackFits(records, t, n, l[n.eventId].payload);
    }
  }

  lemma CallKeeps(s: State, k: Kid, cb: D.Callback)
    requires RecordsOk(s.records) && AcksOk(s.records, s.b.table, s.b.acks) && NacksOk(s.records, s.b.table, s.b.nacks)
    requires KidOk(s.b.table, k) && Genuine(s.b, cb)
    ensures KidOk(s.b.table, k.(core := D.After(k.core, cb)))
  {
    D.CallbackKeeps(k.core, cb);
    if cb.OnMessage? && !cb.retain && cb.body.Fields? {
      if cb.topic == D.AckTopic {
        var i :| 0 <= i < |s.b.acks| && cb.body == AckBody(s.b.acks[i]);
        AckHandled(s.records, s.b.table, s.b.acks[i], k.device, k.core.ledger);
      } else if cb.topic == D.NackTopic {
        var i :| 0 <= i < |s.b.nacks| && cb.body == NackBody(s.b.nacks[i]);
        NackHandled(s.records, s.b.table, s.b.nacks[i], k.device, k.core.ledger, k.core.session.nackEnabled);
      }
    }
  }

  /** The record of the line a pass is at is a valid record of the child. */
  lemma CurrentIsValid(k: Kid, rec: Record)
    requires IsCurrent(k, rec)
    ensures Valid(rec) && rec.device == k.device
  {
    A.CarriedIsValid(k.scan.pass.text, k.device, k.scan.pass.next);
  }

  lemma NoMismatch(t: Table, k: Kid, rec: Record, now: real, resendAfter: real)
    requires KidOk(t, k) && Valid(rec)
    ensures !D.Checked(k.core, rec, now, resendAfter).Raise?
  {
    if rec.eventId in k.core.ledger {
      assert LedgerRowOk(t, k.device, rec.eventId, k.core.ledger[rec.eventId]);
      EventIdInjective(k.core.ledger[rec.eventId].payload, rec);
    }
  }

  lemma StartKeeps(t: Table, k: Kid, rec: Record, now: real, resendAfter: real)
    requires KidOk(t, k) && k.task.Idle? && Valid(rec) && rec.device == k.device
    ensures KidOk(t, Started(k, rec, now, resendAfter))
  {
    NoMismatch(t, k, rec, now, resendAfter);
    if D.Checked(k.core, rec, now, resendAfter).Publish? {
      CheckKeepsLedger(t, k, rec, now, resendAfter);
    }
  }

  /** A check that lets the record through leaves a row that carries it. */
  lemma CheckKeepsLedger(t: Table, k: Kid, rec: Record, now: real, resendAfter: real)
    requires LedgerOk(t, k.device, k.core.ledger) && Valid(rec) && rec.device == k.device
    requires D.Checked(k.core, rec, now, resendAfter).Publish?
    ensures var ledger := D.Checked(k.core, rec, now, resendAfter).ledger;
            LedgerOk(t, k.device, ledger) && rec.eventId in ledger && ledger[rec.eventId].payload == rec
  {
    if rec.eventId in k.core.ledger {
      assert LedgerRowOk(t, k.device, rec.eventId, k.core.ledger[rec.eventId]);
    }
  }

  lemma KidKeeps(p: Params, s: State, step: Step)
    requires Enabled(p, s, step) && IsKidStep(step)
    requires Inv(p, s)
    ensures KidOk(s.b.table, KidDo(p, s, s.kids[step.kid], step))
  {
    var k := s.kids[step.kid];
    assert KidOk(s.b.table, k);
    match step {
      case Call(_, cb) => CallKeeps(s, k, cb);
      case Start(_, rec, now) =>
        CurrentIsValid(k, rec);
        StartKeeps(s.b.table, k, rec, now, p.resendAfter);
      case _ =>
    }
  }

  lemma KidStepKeeps(p: Params, s: State, step: Step)
    requires Enabled(p, s, step) && IsKidStep(step)
    requires Inv(p, s)
    ensures Inv(p, Do(p, s, step))
  {
    var s' := Do(p, s, step);
    KidKeeps(p, s, step);
    assert KidOk(s.b.table, s.kids[step.kid]);
    AnswersGrown(s.records, s.b.table, s'.records, s.b.table, s.b.acks, s.b.nacks);
    InboxGrown(s.records, s.b.table, s'.records, s.b.table, s.b.rows);
    ConservedGrown(s.records, s.b.table, s'.records, s.b.table, s.b.rows, s.accepted, s.lost);
  }

  // -------------------------------------------------------------------
  // Steps of the hub

  /** A record enters the inbox unless its row is already there. */
  lemma InsertKeeps(records: set<Record>, t: Table, rows: I.Rows, accepted: set<Record>, lost: set<Record>,
                    rec: Record, at: int)
    requires RecordsOk(records) && InboxOk(records, t, rows) && rec in records
    requires ConservedOk(records, t, rows, accepted, lost)
    ensures var rows' := I.Inserted(rows, I.NewRow(rec, at));
            InboxOk(records, t, rows') && ConservedOk(records, t, rows', accepted + {rec}, lost)
  {
    var rows' := I.Inserted(rows, I.NewRow(rec, at));
    if rec.eventId in rows {
      assert RowOk(records, t, rows[rec.eventId]);
      EventIdInjective(rec, rows[rec.eventId].rec);
    }
    forall r | r in accepted + {rec} ensures r in records && Kept(t, rows', lost, r) {
      if r != rec {
        assert Kept(t, rows, lost, r);
      }
    }
  }

  lemma AnswerKeeps(p: Params, s: State, at: int)
    requires s.recv.Got?
    requires Inv(p, s)
    ensures Inv(p, Do(p, s, Answer(at)))
  {
    match s.recv.existing
    case None =>
      InsertKeeps(s.records, s.b.table, s.b.rows, s.accepted, s.lost, s.recv.rec, at);
    case Some(row) =>
      AnswerAgainKeeps(p, s, at);
  }

  /** Answering a row again adds at most an ACK or a NACK that its status allows. */
  lemma AnsweredAgain(records: set<Record>, b: B.Bridge, recv: Recv, at: int)
    requires recv.Got? && recv.existing.Some? && RecvOk(records, b.table, recv)
    requires AcksOk(records, b.table, b.acks) && NacksOk(records, b.table, b.nacks)
    ensures var b' := B.Answered(b, recv.rec, recv.existing, at);
            && b' == b.(acks := b'.acks, nacks := b'.nacks)
            && AcksOk(records, b.table, b'.acks) && NacksOk(records, b.table, b'.nacks)
  {
    var row := recv.existing.value;
    if row.status == I.Sent {
      AckAdded(records, b.table, b.acks, B.Ack(row.rec.eventId, row.mkDateCommitted), row.rec);
    } else if row.status == I.Failed {
      NackAdded(records, b.table, b.nacks, B.Nack(row.rec.eventId, B.ReasonOf(row), row.failedAt), row.rec);
    }
  }

  lemma AnswerAgainKeeps(p: Params, s: State, at: int)
    requires s.recv.Got? && s.recv.existing.Some?
    requires Inv(p, s)
    ensures Inv(p, Do(p, s, Answer(at)))
  {
    AnsweredAgain(s.records, s.b, s.recv, at);
    assert s.accepted + {} == s.accepted;
  }

  lemma AckAdded(records: set<Record>, t: Table, acks: seq<B.Ack>, a: B.Ack, r: Record)
    requires AcksOk(records, t, acks) && r in records && a == B.Ack(r.eventId, Some(r.mkDate)) && Holds(t, r)
    ensures AcksOk(records, t, acks + [a])
  {
    assert AckOk(records, t, a);
  }

  lemma NackAdded(records: set<Record>, t: Table, nacks: seq<B.Nack>, n: B.Nack, r: Record)
    requires NacksOk(records, t, nacks) && r in records && n.eventId == r.eventId && Conflicts(t, r)
    ensures NacksOk(records, t, nacks + [n])
  {
    assert NackOk(records, t, n);
  }

  lemma ScanIsPublished(records: set<Record>, t: Table, rows: I.Rows, clock: int, batch: seq<I.InboxRow>)
    requires InboxOk(records, t, rows) && B.IsScan(rows, clock, batch)
    ensures forall i | 0 <= i < |batch| :: batch[i].rec in records
  {
    var ids: seq<Id> :| && |ids| == |batch|
                        && forall i | 0 <= i < |ids| :: ids[i] in rows && batch[i] == rows[ids[i]];
    forall i | 0 <= i < |batch| ensures batch[i].rec in records {
      assert RowOk(records, t, rows[ids[i]]);
    }
  }

  lemma InsertedOnce(records: set<Record>, t: Table, foreign: set<Pk>, inserts: seq<Record>, rec: Record)
    requires InsertsOk(records, t, foreign, inserts) && rec in records
    requires PkOf(rec) !in t
    ensures InsertsOk(records, t[PkOf(rec) := rec.t1], foreign, inserts + [rec])
  {
    var t', inserts' := t[PkOf(rec) := rec.t1], inserts + [rec];
    forall i | 0 <= i < |inserts| ensures PkOf(inserts[i]) != PkOf(rec) && Holds(t', inserts[i]) {
      assert Holds(t, inserts[i]);
    }
    forall k | k in t' ensures k in foreign || WasInserted(k, inserts') {
      if k == PkOf(rec) {
        assert inserts'[|inserts|] == rec;
      } else if k !in foreign {
        assert WasInserted(k, inserts);
        var i :| 0 <= i < |inserts| && PkOf(inserts[i]) == k;
        assert inserts'[i] == inserts[i];
      }
    }
  }

  lemma MergeKeeps(p: Params, s: State, fault: Fault)
    requires Enabled(p, s, Merge(fault))
    requires Inv(p, s)
    ensures Inv(p, Do(p, s, Merge(fault)))
  {
    var rec := s.main.batch[0].rec;
    var t' := TableAfter(s.b.table, rec, fault);
    MergeMeaning(s.b.table, rec, fault, p.cfg.unretryable, p.cfg.literalTest);
    AnswersGrown(s.records, s.b.table, s.records, t', s.b.acks, s.b.nacks);
    KidsGrown(s.b.table, t', s.kids);
    InboxGrown(s.records, s.b.table, s.records, t', s.b.rows);
    ConservedGrown(s.records, s.b.table, s.records, t', s.b.rows, s.accepted, s.lost);
    if t' != s.b.table {
      InsertedOnce(s.records, s.b.table, s.foreign, s.inserts, rec);
    } else {
      assert s.inserts + [] == s.inserts;
    }
  }

  /** Rewriting the row of a published record keeps the table in order as long as
      the new status is true. */
  lemma RowRewritten(records: set<Record>, t: Table, rows: I.Rows, accepted: set<Record>, lost: set<Record>,
                     id: Id, row: I.InboxRow)
    requires InboxOk(records, t, rows) && ConservedOk(records, t, rows, accepted, lost)
    requires id in rows && row.rec == rows[id].rec && RowOk(records, t, row)
    ensures InboxOk(records, t, rows[id := row]) && ConservedOk(records, t, rows[id := row], accepted, lost)
  {
    forall r | r in accepted ensures Kept(t, rows[id := row], lost, r) {
      assert Kept(t, rows, lost, r);
    }
  }

  lemma MarkKeeps(p: Params, s: State)
    requires Enabled(p, s, Mark)
    requires Inv(p, s)
    ensures Inv(p, Do(p, s, Mark))
  {
    var row := s.main.batch[0];
    var id := row.rec.eventId;
    if id in s.b.rows {
      assert RowOk(s.records, s.b.table, s.b.rows[id]);
      EventIdInjective(row.rec, s.b.rows[id].rec);
      RowRewritten(s.records, s.b.table, s.b.rows, s.accepted, s.lost, id, Do(p, s, Mark).b.rows[id]);
    }
  }

  lemma ReplyKeeps(p: Params, s: State)
    requires Enabled(p, s, Reply)
    requires Inv(p, s)
    ensures Inv(p, Do(p, s, Reply))
  {
    var rec := s.main.batch[0].rec;
    if IsSuccess(s.main.result, p.cfg.literalTest) {
      AckAdded(s.records, s.b.table, s.b.acks, B.Ack(rec.eventId, Some(rec.mkDate)), rec);
    } else if GivesUp(s.main.result, p.cfg.unretryable) {
      NackAdded(s.records, s.b.table, s.b.nacks,
                B.Nack(rec.eventId, B.ErrorText(s.main.result) + B.GIVE_UP_MARK, Some(s.main.now)), rec);
    }
  }

  lemma EvictKeeps(p: Params, s: State, step: Step)
    requires Inv(p, s) && Enabled(p, s, step) && (step.DeleteSent? || step.RingEvict?)
    ensures Inv(p, Do(p, s, step))
  {
    var s' := Do(p, s, step);
    forall r | r in s.accepted ensures Kept(s.b.table, s'.b.rows, s'.lost, r) {
      assert Kept(s.b.table, s.b.rows, s.lost, r);
      if r.eventId in s.b.rows && r.eventId in step.gone {
        assert RowOk(s.records, s.b.table, s.b.rows[r.eventId]);
        if step.DeleteSent? {
          assert r.eventId in I.SentPlaces(s.b.rows).Keys;
        }
      }
    }
  }

  lemma ForeignInserts(records: set<Record>, t: Table, foreign: set<Pk>, inserts: seq<Record>, pk: Pk, t1: int)
    requires InsertsOk(records, t, foreign, inserts) && pk !in t
    ensures InsertsOk(records, t[pk := t1], foreign + {pk}, inserts)
  {
    forall i | 0 <= i < |inserts| ensures PkOf(inserts[i]) != pk {
      assert Holds(t, inserts[i]);
    }
  }

  lemma ForeignKeeps(p: Params, s: State, pk: Pk, t1: int)
    requires Enabled(p, s, Foreign(pk, t1))
    requires Inv(p, s)
    ensures Inv(p, Do(p, s, Foreign(pk, t1)))
  {
    var t' := s.b.table[pk := t1];
    AnswersGrown(s.records, s.b.table, s.records, t', s.b.acks, s.b.nacks);
    KidsGrown(s.b.table, t', s.kids);
    InboxGrown(s.records, s.b.table, s.records, t', s.b.rows);
    ConservedGrown(s.records, s.b.table, s.records, t', s.b.rows, s.accepted, s.lost);
    ForeignInserts(s.records, s.b.table, s.foreign, s.inserts, pk, t1);
  }

  lemma ReceiveKeeps(p: Params, s: State, rec: Record)
    requires Enabled(p, s, Receive(rec))
    requires Inv(p, s)
    ensures Inv(p, Do(p, s, Receive(rec)))
  {}

  lemma RunOnceKeeps(p: Params, s: State, clock: int, batch: seq<I.InboxRow>)
    requires Enabled(p, s, RunOnce(clock, batch))
    requires Inv(p, s)
    ensures Inv(p, Do(p, s, RunOnce(clock, batch)))
  {
    ScanIsPublished(s.records, s.b.table, s.b.rows, clock, batch);
  }

  lemma BreakerKeeps(p: Params, s: State, step: Step)
    requires Inv(p, s) && Enabled(p, s, step) && (step.Crash? || step.EventSender?)
    ensures Inv(p, Do(p, s, step))
  {
    if step.EventSender? {
      Breaker.RunKeepsDated(s.b.breaker, step.run, p.cfg.halfOpenAfter, p.cfg.permanent);
    }
  }

  lemma ReceiverKeeps(p: Params, s: State, step: Step)
    requires Enabled(p, s, step) && (step.Receive? || step.Answer?)
    requires Inv(p, s)
    ensures Inv(p, Do(p, s, step))
  {
    if step.Receive? {
      ReceiveKeeps(p, s, step.rec);
    } else {
      AnswerKeeps(p, s, step.at);
    }
  }

  lemma MainKeeps(p: Params, s: State, step: Step)
    requires Enabled(p, s, step) && (step.RunOnce? || step.Merge? || step.Mark? || step.Reply?)
    requires Inv(p, s)
    ensures Inv(p, Do(p, s, step))
  {
    if step.RunOnce? {
      RunOnceKeeps(p, s, step.clock, step.batch);
    } else if step.Merge? {
      MergeKeeps(p, s, step.fault);
    } else if step.Mark? {
      MarkKeeps(p, s);
    } else {
      ReplyKeeps(p, s);
    }
  }

  lemma StepKeeps(p: Params, s: State, step: Step)
    requires Enabled(p, s, step)
    requires Inv(p, s)
    ensures Inv(p, Do(p, s, step))
  {
    if IsKidStep(step) {
      KidStepKeeps(p, s, step);
    } else if step.Receive? || step.Answer? {
      ReceiverKeeps(p, s, step);
    } else if step.RunOnce? || step.Merge? || step.Mark? || step.Reply? {
      MainKeeps(p, s, step);
    } else if step.DeleteSent? || step.RingEvict? {
      EvictKeeps(p, s, step);
    } else if step.Foreign? {
      ForeignKeeps(p, s, step.pk, step.t1);
    } else {
      BreakerKeeps(p, s, step);
    }
  }

  lemma InitKeeps(p: Params, s: State)
    requires Init(s)
    ensures Inv(p, s)
  {
    forall c | c in s.kids ensures KidOk(s.b.table, s.kids[c]) {
      assert KidInit(s.kids[c]);
    }
  }

  lemma {:induction false} RunKeeps(p: Params, s: State, steps: seq<Step>, t: State)
    requires Inv(p, s) && IsRun(p, s, steps, t)
    ensures Inv(p, t) && s.records <= t.records && Grown(s.b.table, t.b.table)
    decreases |steps|
  {
    if steps != [] {
      var s1 := Do(p, s, steps[0]);
      StepKeeps(p, s, steps[0]);
      StepGrows(p, s, steps[0]);
      RunKeeps(p, s1, steps[1..], t);
    }
  }

  lemma StepGrows(p: Params, s: State, step: Step)
    requires Enabled(p, s, step)
    ensures s.records <= Do(p, s, step).records && Grown(s.b.table, Do(p, s, step).b.table)
  {}

  lemma ReachableInv(p: Params, t: State)
    requires Reachable(p, t)
    ensures Inv(p, t)
  {
    var s, steps :| Init(s) && IsRun(p, s, steps, t);
    InitKeeps(p, s);
    RunKeeps(p, s, steps, t);
  }

  // -------------------------------------------------------------------
  // The theorems

  /** No false ACK: a row a child holds as acked is in Oracle, and a row it holds as
      nacked never will be, because another row has its key. */
  lemma NoFalseAck(p: Params, t: State, c: string, id: Id)
    requires c in t.kids && id in t.kids[c].core.ledger
    requires Reachable(p, t)
    ensures var row := t.kids[c].core.ledger[id];
            && (row.status == D.Acked ==> Holds(t.b.table, row.payload))
            && (row.status == D.Nacked ==> Conflicts(t.b.table, row.payload))
  {
    ReachableInv(p, t);
    assert KidOk(t.b.table, t.kids[c]);
    assert LedgerRowOk(t.b.table, t.kids[c].device, id, t.kids[c].core.ledger[id]);
  }

  /** `send` never meets the content mismatch it guards against: it cannot occur in
      a reachable state, whatever valid record it is called with. */
  lemma NeverRaises(p: Params, t: State, c: string, rec: Record, now: real)
    requires c in t.kids && Valid(rec)
    requires Reachable(p, t)
    ensures !D.Checked(t.kids[c].core, rec, now, p.resendAfter).Raise?
  {
    ReachableInv(p, t);
    assert KidOk(t.b.table, t.kids[c]);
    NoMismatch(t.b.table, t.kids[c], rec, now, p.resendAfter);
  }

  /** No event id is ever both acked and nacked by the bridge, and the key of a
      nacked record is in Oracle neither now nor after any further run. */
  lemma AckNackExclusive(p: Params, t: State, i: nat, j: nat)
    requires i < |t.b.acks| && j < |t.b.nacks|
    requires Reachable(p, t)
    ensures t.b.acks[i].eventId != t.b.nacks[j].eventId
  {
    ReachableInv(p, t);
    assert AckOk(t.records, t.b.table, t.b.acks[i]) && NackOk(t.records, t.b.table, t.b.nacks[j]);
    var r :| r in t.records && t.b.acks[i] == B.Ack(r.eventId, Some(r.mkDate)) && Holds(t.b.table, r);
    if t.b.acks[i].eventId == t.b.nacks[j].eventId {
      NackFits(t.records, t.b.table, t.b.nacks[j], r);
    }
  }

  lemma NackedNeverStored(p: Params, t: State, j: nat, r: Record, steps: seq<Step>, u: State)
    requires j < |t.b.nacks| && Valid(r) && r.eventId == t.b.nacks[j].eventId
    requires Reachable(p, t) && IsRun(p, t, steps, u)
    ensures !Holds(t.b.table, r) && !Holds(u.b.table, r)
  {
    ReachableInv(p, t);
    assert NackOk(t.records, t.b.table, t.b.nacks[j]);
    NackFits(t.records, t.b.table, t.b.nacks[j], r);
    RunKeeps(p, t, steps, u);
    GrownKeeps(t.b.table, u.b.table, r);
  }

  /** Exactly once: the keys inserted over the whole run are all different, each
      is the key of a record some child published and is still in the table, and
      the table has no other rows but those of other programs. */
  lemma ExactlyOnce(p: Params, t: State)
    requires Reachable(p, t)
    ensures forall i, j | 0 <= i < j < |t.inserts| :: PkOf(t.inserts[i]) != PkOf(t.inserts[j])
    ensures forall i | 0 <= i < |t.inserts| :: t.inserts[i] in t.records && Holds(t.b.table, t.inserts[i])
    ensures forall k | k in t.b.table && k !in t.foreign :: WasInserted(k, t.inserts)
  {
    ReachableInv(p, t);
  }

  /** Conservation: an accepted record is in the inbox as received, as sent with
      its key in Oracle, or as failed with its key taken; or it has left the
      inbox decided, or was evicted undecided. */
  lemma Conservation(p: Params, t: State, r: Record)
    requires r in t.accepted
    requires Reachable(p, t)
    ensures || (&& r.eventId in t.b.rows && t.b.rows[r.eventId].rec == r
                && (t.b.rows[r.eventId].status == I.Sent ==> Holds(t.b.table, r))
                && (t.b.rows[r.eventId].status == I.Failed ==> Conflicts(t.b.table, r)))
            || Holds(t.b.table, r) || Conflicts(t.b.table, r)
            || r in t.lost
  {
    ReachableInv(p, t);
    assert Kept(t.b.table, t.b.rows, t.lost, r);
    if r.eventId in t.b.rows {
      assert RowOk(t.records, t.b.table, t.b.rows[r.eventId]);
    }
  }

  /** The ids of the undecided rows. */
  function Undecided(rows: I.Rows): set<Id> {
    set id | id in rows && rows[id].status == I.Received
  }

  /** A step that takes an undecided row out of the inbox is a ring eviction, and
      only with more than `maxRows` rows undecided; exactly `maxRows` remain. */
  lemma OnlyRingEvictLoses(p: Params, s: State, step: Step, id: Id)
    requires Enabled(p, s, step)
    requires id in Undecided(s.b.rows) && id !in Do(p, s, step).b.rows
    ensures step.RingEvict?
    ensures step.maxRows >= 0 ==> |Undecided(Do(p, s, step).b.rows)| == step.maxRows < |Undecided(s.b.rows)|
  {
    assert step.DeleteSent? ==> id !in I.SentPlaces(s.b.rows).Keys;
    assert step.RingEvict?;
    if step.maxRows >= 0 {
      RingEvictLeaves(s.b.rows, step.gone, step.maxRows, id);
    }
  }

  lemma RingEvictLeaves(rows: I.Rows, gone: set<Id>, maxRows: nat, id: Id)
    requires I.RingVictims(rows, gone, maxRows) && id in Undecided(rows) && id in gone
    ensures |Undecided(I.Eviction.Without(rows, gone))| == maxRows < |Undecided(rows)|
  {
    I.UndecidedEvicted(rows, gone, maxRows);
    var undecided := Undecided(rows);
    var left := Undecided(I.Eviction.Without(rows, gone));
    assert left == undecided - gone;
    assert undecided == (gone * undecided) + left;
    assert id in gone * undecided;
    assert |gone * undecided| > 0;
    assert |undecided| == |gone * undecided| + |left|;
  }
}
