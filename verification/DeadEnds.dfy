/** Exactly when a pending row can still be decided: its record must still be on its
    way, and Oracle and the configuration must allow an answer. */
module DeadEnds {
  import opened Text
  import opened Records
  import opened Oracle
  import opened Protocol
  import D = Delivery
  import A = Archiving
  import B = RecordSending
  import Safety
  import Sessions
  import Outbox
  import opened Progress

  // -------------------------------------------------------------------
  // A record on its way

  /** The pass under way still has the record's line before it. */
  ghost predicate Ahead(k: Kid, rec: Record) {
    && k.scan.Reading?
    && exists i: nat ::
         k.scan.pass.next + (if k.task.Idle? then 0 else 1) <= i < |Kinds(k)| && Kinds(k)[i] == A.Carries(rec)
  }

  ghost predicate OnFile(k: Kid, rec: Record) {
    exists name, i: nat :: Outbox.OnLine(k, name, i, rec)
  }

  /** The child is about to publish the record, or a pass will come to its line and
      find it undecided. */
  ghost predicate CanSend(k: Kid, rec: Record) {
    || (k.task.Saved? && k.task.rec == rec)
    || (Undecided(k.core.ledger, rec.eventId) && (Ahead(k, rec) || OnFile(k, rec)))
  }

  /** The record was published, or some child can send it. The first half rests on the
      network delivering an old publish again: a child whose line is gone publishes no
      more. `Progress.NoDeadEnd` does not need it, its child sends the line itself. */
  ghost predicate Sendable(s: State, rec: Record) {
    rec in s.records || exists d :: d in s.kids && CanSend(s.kids[d], rec)
  }

  // -------------------------------------------------------------------
  // Without an edit nothing else puts it on its way

  lemma OnFileBefore(p: Params, s: State, k: Kid, step: Step, rec: Record)
    requires IsKidStep(step) && KidEnabled(s, k, step) && !step.Edit?
    ensures OnFile(KidDo(p, s, k, step), rec) ==> OnFile(k, rec)
  {
    var k' := KidDo(p, s, k, step);
    OutboxShrinks(p, s, k, step);
    if OnFile(k', rec) {
      var name, i: nat :| Outbox.OnLine(k', name, i, rec);
      assert Outbox.OnLine(k, name, i, rec);
    }
  }

  lemma OutboxShrinks(p: Params, s: State, k: Kid, step: Step)
    requires IsKidStep(step) && KidEnabled(s, k, step) && !step.Edit?
    ensures var k' := KidDo(p, s, k, step);
            k'.device == k.device && forall n | n in k'.outbox :: n in k.outbox && k'.outbox[n] == k.outbox[n]
  {
    if step.Start? {
      Outbox.StartOutbox(k, step.rec, step.now, p.resendAfter);
    } else if !step.MoveToSent? && !step.MoveToNacked? {
      Outbox.OutboxStays(p, s, k, step);
    }
  }

  lemma StartPass(k: Kid, rec: Record, now: real, resendAfter: real)
    requires k.task.Idle? && k.scan.Reading? && Started(k, rec, now, resendAfter).scan.Reading?
    ensures var k' := Started(k, rec, now, resendAfter);
            && k'.scan.pass.text == k.scan.pass.text
            && k'.scan.pass.next + (if k'.task.Idle? then 0 else 1) >= k.scan.pass.next
  {}

  /** Where the pass goes: to its next line, or it starts with what is in the file. */
  lemma PassMoves(p: Params, s: State, k: Kid, step: Step)
    requires IsKidStep(step) && KidEnabled(s, k, step) && KidDo(p, s, k, step).scan.Reading?
    ensures var k' := KidDo(p, s, k, step);
            if step.Read? then
              k.scan.Opened? && k.scan.name in k.outbox && k'.scan.pass.text == k.outbox[k.scan.name].text
            else
              && k.scan.Reading? && k'.scan.pass.text == k.scan.pass.text
              && k'.scan.pass.next + (if k'.task.Idle? then 0 else 1)
                 >= k.scan.pass.next + (if k.task.Idle? then 0 else 1)
  {
    if step.Start? {
      StartPass(k, step.rec, step.now, p.resendAfter);
    } else if step.Read? || step.Skip? {
      assert k.scan.Opened? || k.scan.Reading?;
    } else {
      PassStays(p, s, k, step);
    }
  }

  lemma PassStays(p: Params, s: State, k: Kid, step: Step)
    requires IsKidStep(step) && KidEnabled(s, k, step) && KidDo(p, s, k, step).scan.Reading?
    requires !step.Start? && !step.Read? && !step.Skip?
    ensures k.scan.Reading?
    ensures KidDo(p, s, k, step).scan == if step.Settle? then Noted(k.scan, k.task.rec.eventId,
              if step.refused then D.PendingOutcome else D.OutcomeOf(k.core.ledger, k.task.rec.eventId)) else k.scan
    ensures if step.Publish? || step.Settle? then !k.task.Idle? else KidDo(p, s, k, step).task == k.task
    ensures step.Publish? ==> !KidDo(p, s, k, step).task.Idle?
  {
    match step
    case Call(_, _) =>
    case Publish(_) =>
    case Settle(_, _) =>
    case Open(_, _) =>
    case Finish(_, _) =>
    case Edit(_, _, _) =>
    case _ =>
  }

  lemma AheadBefore(p: Params, s: State, k: Kid, step: Step, rec: Record)
    requires IsKidStep(step) && KidEnabled(s, k, step) && !step.Edit?
    ensures Ahead(KidDo(p, s, k, step), rec) ==> Ahead(k, rec) || OnFile(k, rec)
  {
    var k' := KidDo(p, s, k, step);
    if Ahead(k', rec) {
      PassMoves(p, s, k, step);
      OutboxShrinks(p, s, k, step);
      var i: nat :| k'.scan.pass.next + (if k'.task.Idle? then 0 else 1) <= i < |Kinds(k')|
                    && Kinds(k')[i] == A.Carries(rec);
      if step.Read? {
        assert Outbox.OnLine(k, k.scan.name, i, rec);
      } else {
        assert Kinds(k)[i] == A.Carries(rec);
      }
    }
  }

  /** A record is saved for publishing only at its line. */
  lemma SavedBefore(p: Params, s: State, k: Kid, step: Step, rec: Record)
    requires IsKidStep(step) && KidEnabled(s, k, step)
    ensures KidDo(p, s, k, step).task.Saved? && KidDo(p, s, k, step).task.rec == rec ==> CanSend(k, rec)
  {
    var k' := KidDo(p, s, k, step);
    if k'.task.Saved? && k'.task.rec == rec {
      Sessions.SavedOrigin(p, s, k, step);
      if step.Start? && k'.task != k.task {
        assert Kinds(k)[k.scan.pass.next] == A.Carries(rec);
        assert Ahead(k, rec);
      }
    }
  }

  lemma KidStuck(p: Params, s: State, k: Kid, step: Step, rec: Record)
    requires IsKidStep(step) && KidEnabled(s, k, step) && !step.Edit? && !CanSend(k, rec)
    ensures !CanSend(KidDo(p, s, k, step), rec)
  {
    var k' := KidDo(p, s, k, step);
    OnFileBefore(p, s, k, step, rec);
    AheadBefore(p, s, k, step, rec);
    UndecidedBefore(p, s, k, step, rec.eventId);
    SavedBefore(p, s, k, step, rec);
  }

  lemma UndecidedBefore(p: Params, s: State, k: Kid, step: Step, id: Id)
    requires IsKidStep(step) && KidEnabled(s, k, step)
    ensures Undecided(KidDo(p, s, k, step).core.ledger, id) ==> Undecided(k.core.ledger, id)
  {
    Sessions.KidKeepsDecisions(p, s, k, step);
  }

  lemma Stuck(p: Params, s: State, step: Step, rec: Record)
    requires Enabled(p, s, step) && !step.Edit? && !Sendable(s, rec)
    ensures !Sendable(Do(p, s, step), rec)
  {
    forall d | d in Do(p, s, step).kids ensures !CanSend(Do(p, s, step).kids[d], rec) {
      ChildStuck(p, s, step, d, rec);
    }
    NotPublishedNow(p, s, step, rec);
  }

  lemma ChildStuck(p: Params, s: State, step: Step, d: string, rec: Record)
    requires Enabled(p, s, step) && !step.Edit? && d in s.kids && !CanSend(s.kids[d], rec)
    ensures d in Do(p, s, step).kids && !CanSend(Do(p, s, step).kids[d], rec)
  {
    if IsKidStep(step) && step.kid == d {
      KidStuck(p, s, s.kids[d], step, rec);
    }
  }

  lemma NotPublishedNow(p: Params, s: State, step: Step, rec: Record)
    requires Enabled(p, s, step) && rec !in s.records && !step.Edit?
    requires forall d | d in s.kids :: !CanSend(s.kids[d], rec)
    ensures rec !in Do(p, s, step).records && Do(p, s, step).kids.Keys == s.kids.Keys
  {
    PublishedNow(p, s, step);
    if step.Publish? {
      assert !CanSend(s.kids[step.kid], rec);
    }
  }

  lemma PublishedNow(p: Params, s: State, step: Step)
    requires Enabled(p, s, step)
    ensures Do(p, s, step).kids.Keys == s.kids.Keys
    ensures Do(p, s, step).records == s.records + if step.Publish? then {s.kids[step.kid].task.rec} else {}
  {
    if !IsKidStep(step) {
      assert s.records + {} == s.records;
    }
  }

  lemma DecidedIfPublished(p: Params, s: State, step: Step, c: string, rec: Record)
    requires Safety.RecordsOk(s.records) && Safety.AcksOk(s.records, s.b.table, s.b.acks)
    requires Safety.NacksOk(s.records, s.b.table, s.b.nacks)
    requires Enabled(p, s, step) && Valid(rec) && Pends(s, c, rec)
    ensures Pends(Do(p, s, step), c, rec) || rec in s.records
  {
    Sessions.StepKeepsDecisions(p, s, step, c);
    if IsKidStep(step) && step.kid == c {
      RowOpenOrPublished(p, s, s.kids[c], step, rec);
    }
  }

  lemma RowOpenOrPublished(p: Params, s: State, k: Kid, step: Step, rec: Record)
    requires Safety.RecordsOk(s.records) && Safety.AcksOk(s.records, s.b.table, s.b.acks)
    requires Safety.NacksOk(s.records, s.b.table, s.b.nacks)
    requires IsKidStep(step) && KidEnabled(s, k, step) && Valid(rec)
    requires rec.eventId in k.core.ledger && k.core.ledger[rec.eventId].status == D.Pending
    ensures rec.eventId in KidDo(p, s, k, step).core.ledger
    ensures KidDo(p, s, k, step).core.ledger[rec.eventId].status == D.Pending || rec in s.records
  {
    if step.Call? {
      RowCalled(s, k, step.cb, rec);
    } else if step.Start? {
      Sessions.StartLedger(k, step.rec, step.now, p.resendAfter);
    } else {
      Sessions.LedgerUnwritten(p, s, k, step);
    }
  }

  lemma RowCalled(s: State, k: Kid, cb: D.Callback, rec: Record)
    requires Safety.RecordsOk(s.records) && Safety.AcksOk(s.records, s.b.table, s.b.acks)
    requires Safety.NacksOk(s.records, s.b.table, s.b.nacks)
    requires Genuine(s.b, cb) && Valid(rec)
    requires rec.eventId in k.core.ledger && k.core.ledger[rec.eventId].status == D.Pending
    ensures rec.eventId in D.After(k.core, cb).ledger
    ensures D.After(k.core, cb).ledger[rec.eventId].status == D.Pending || rec in s.records
  {
    D.CallbackKeeps(k.core, cb);
    if D.After(k.core, cb).ledger[rec.eventId].status != D.Pending {
      AnswerIsGenuine(s, k, cb, rec);
    }
  }

  lemma AnswerIsGenuine(s: State, k: Kid, cb: D.Callback, rec: Record)
    requires Safety.RecordsOk(s.records) && Safety.AcksOk(s.records, s.b.table, s.b.acks)
    requires Safety.NacksOk(s.records, s.b.table, s.b.nacks)
    requires Genuine(s.b, cb) && Valid(rec) && rec.eventId in k.core.ledger
    requires k.core.ledger[rec.eventId].status == D.Pending
    requires D.After(k.core, cb).ledger[rec.eventId].status != D.Pending
    ensures rec in s.records
  {
    DecidedByMessage(k, cb, rec.eventId);
    if cb.topic == D.AckTopic {
      var i :| 0 <= i < |s.b.acks| && cb.body == AckBody(s.b.acks[i]);
      assert Safety.AckOk(s.records, s.b.table, s.b.acks[i]);
      var r :| r in s.records && s.b.acks[i] == B.Ack(r.eventId, Some(r.mkDate)) && Holds(s.b.table, r);
      EventIdInjective(r, rec);
    } else {
      var i :| 0 <= i < |s.b.nacks| && cb.body == NackBody(s.b.nacks[i]);
      assert Safety.NackOk(s.records, s.b.table, s.b.nacks[i]);
      var r :| r in s.records && s.b.nacks[i].eventId == r.eventId && Conflicts(s.b.table, r);
      EventIdInjective(r, rec);
    }
  }

  /** A row is decided by a message on one of the two topics that names it. */
  lemma DecidedByMessage(k: Kid, cb: D.Callback, id: Id)
    requires id in k.core.ledger && k.core.ledger[id].status == D.Pending
    requires id in D.After(k.core, cb).ledger && D.After(k.core, cb).ledger[id].status != D.Pending
    ensures cb.OnMessage? && !cb.retain && cb.body.Fields? && cb.body.eventId == Some(id)
    ensures cb.topic == D.AckTopic || cb.topic == D.NackTopic
  {}

  predicate Unedited(steps: seq<Step>) { forall i | 0 <= i < |steps| :: !steps[i].Edit? }

  lemma StepStaysOpen(p: Params, s: State, step: Step, c: string, rec: Record)
    requires Valid(rec) && Pends(s, c, rec) && !Sendable(s, rec) && Enabled(p, s, step) && !step.Edit?
    requires Safety.Inv(p, s)
    ensures var t := Do(p, s, step); Pends(t, c, rec) && !Sendable(t, rec) && Safety.Inv(p, t)
  {
    Stuck(p, s, step, rec);
    DecidedIfPublished(p, s, step, c, rec);
    Safety.StepKeeps(p, s, step);
  }

  lemma UneditedRest(steps: seq<Step>)
    requires steps != [] && Unedited(steps)
    ensures !steps[0].Edit? && Unedited(steps[1..])
  {}

  lemma {:induction false} StaysOpen(p: Params, s: State, steps: seq<Step>, t: State, c: string, rec: Record)
    requires Valid(rec) && Pends(s, c, rec) && !Sendable(s, rec)
    requires Unedited(steps)
    requires Safety.Inv(p, s) && IsRun(p, s, steps, t)
    ensures Pends(t, c, rec)
    decreases |steps|
  {
    if steps != [] {
      UneditedRest(steps);
      StepStaysOpen(p, s, steps[0], c, rec);
      StaysOpen(p, Do(p, s, steps[0]), steps[1..], t, c, rec);
    }
  }

  // -------------------------------------------------------------------
  // Runs without edits

  ghost predicate Gets(p: Params, s: State, t: State) {
    exists steps :: IsRun(p, s, steps, t) && Unedited(steps)
  }

  lemma GetsOn(p: Params, s: State, t: State, u: State)
    requires Gets(p, s, t) && Gets(p, t, u)
    ensures Gets(p, s, u)
  {
    var a :| IsRun(p, s, a, t) && Unedited(a);
    var b :| IsRun(p, t, b, u) && Unedited(b);
    RunsCompose(p, s, a, t, b, u);
    assert Unedited(a + b);
  }

  lemma GetsByStep(p: Params, s: State, step: Step)
    requires Enabled(p, s, step) && !step.Edit?
    ensures Gets(p, s, Do(p, s, step))
  {
    var t := Do(p, s, step);
    assert [step][1..] == [];
    assert IsRun(p, t, [], t);
    assert IsRun(p, s, [step], t) && Unedited([step]);
  }

  lemma GetsByLead(p: Params, s: State, t: State)
    requires Leads(p, s, t)
    ensures Gets(p, s, t) && Runs(p, s, t)
  {
    var a :| OrdinaryRun(p, s, a, t);
    assert IsRun(p, s, a, t) && Unedited(a);
  }

  /** A record on its way is published by some run. */
  lemma SendableIsPublished(p: Params, s: State, rec: Record) returns (t: State)
    requires Sendable(s, rec)
    requires Safety.Inv(p, s)
    ensures Gets(p, s, t) && Runs(p, s, t) && t.b == s.b && rec in t.records
  {
    if rec in s.records {
      t := s;
      LeadsNowhere(p, s);
    } else {
      var d :| d in s.kids && CanSend(s.kids[d], rec);
      var k := s.kids[d];
      if k.task.Saved? && k.task.rec == rec {
        LeadsByStep(p, s, Publish(d));
        t := Do(p, s, Publish(d));
      } else if Ahead(k, rec) {
        t := PublishAhead(p, s, d, rec);
      } else {
        t := PublishFromFile(p, s, d, rec);
        return;
      }
    }
    GetsByLead(p, s, t);
  }

  lemma PublishAhead(p: Params, s: State, d: string, rec: Record) returns (t: State)
    requires d in s.kids && Ahead(s.kids[d], rec)
    requires Undecided(s.kids[d].core.ledger, rec.eventId)
    requires Safety.Inv(p, s)
    ensures Leads(p, s, t) && t.b == s.b && rec in t.records
  {
    var k := s.kids[d];
    var i: nat :| k.scan.pass.next + (if k.task.Idle? then 0 else 1) <= i < |Kinds(k)| && Kinds(k)[i] == A.Carries(rec);
    var s1 := RestTask(p, s, d);
    LeadsKeepsInv(p, s, s1);
    t := SendAhead(p, s1, d, i, rec);
    LeadsOn(p, s, s1, t);
  }

  /** The child restarts and its next pass reads the file. */
  lemma PublishFromFile(p: Params, s: State, d: string, rec: Record) returns (t: State)
    requires d in s.kids && OnFile(s.kids[d], rec)
    requires Undecided(s.kids[d].core.ledger, rec.eventId)
    requires Safety.Inv(p, s)
    ensures Gets(p, s, t) && Runs(p, s, t) && t.b == s.b && rec in t.records
  {
    var name, i: nat :| Outbox.OnLine(s.kids[d], name, i, rec);
    var s1 := Do(p, s, Restart(d));
    GetsByStep(p, s, Restart(d));
    RunsByStep(p, s, Restart(d));
    Safety.StepKeeps(p, s, Restart(d));
    assert Outbox.OnLine(s1.kids[d], name, i, rec);
    t := SendFromFile(p, s1, d, name, i, rec);
    GetsByLead(p, s1, t);
    GetsOn(p, s, s1, t);
    RunsOn(p, s, s1, t);
  }

  // -------------------------------------------------------------------
  // The theorems

  /** Some run without edits decides the row. */
  ghost predicate CanDecide(p: Params, s: State, c: string, id: Id) {
    exists steps, t :: IsRun(p, s, steps, t) && Unedited(steps) && IsDecided(t, c, id)
  }

  lemma DecidedSoFar(p: Params, s: State, t: State, u: State, c: string, id: Id)
    requires IsDecided(u, c, id)
    requires Gets(p, s, t) && Gets(p, t, u)
    ensures CanDecide(p, s, c, id)
  {
    GetsOn(p, s, t, u);
    var steps :| IsRun(p, s, steps, u) && Unedited(steps);
  }

  /** A row that was never published and whose line is in no file, nor before any pass,
      stays open however the system goes on, unless somebody edits a file. */
  lemma StrandedRow(p: Params, s: State, steps: seq<Step>, t: State, c: string, id: Id)
    requires c in s.kids && id in s.kids[c].core.ledger
    requires s.kids[c].core.ledger[id].status == D.Pending && !Sendable(s, s.kids[c].core.ledger[id].payload)
    requires Unedited(steps)
    requires Reachable(p, s) && IsRun(p, s, steps, t)
    ensures !IsDecided(t, c, id)
  {
    PendingRow(p, s, c, id);
    Safety.ReachableInv(p, s);
    StaysOpen(p, s, steps, t, c, s.kids[c].core.ledger[id].payload);
  }

  /** Not doomed: the row is answered, if need be after another program took the key. */
  lemma NotDoomedIsDecided(p: Params, s: State, c: string, rec: Record) returns (t: State)
    requires Pends(s, c, rec) && rec in s.records && !Doomed(p.cfg, s.b.table, rec)
    requires Safety.Inv(p, s)
    ensures Gets(p, s, t) && IsDecided(t, c, rec.eventId)
  {
    if Answerable(p.cfg, s.b.table, rec) {
      t := DecidePublished(p, s, c, rec);
      GetsByLead(p, s, t);
    } else {
      var taken := Foreign(PkOf(rec), rec.t1 + 1);
      var s1 := Do(p, s, taken);
      GetsByStep(p, s, taken);
      Safety.StepKeeps(p, s, taken);
      t := DecidePublished(p, s1, c, rec);
      GetsByLead(p, s1, t);
      GetsOn(p, s, s1, t);
    }
  }

  /** Without an edit of a file, a pending row can still be decided if and only if its
      record is on its way and it is not doomed: for either success test. With the
      test as meant, doomed says that another row has the key and ORA-00001 is not
      given up on; the shipped configurations list no such code. */
  lemma DecidableIff(p: Params, s: State, c: string, id: Id)
    requires c in s.kids && id in s.kids[c].core.ledger
    requires s.kids[c].core.ledger[id].status == D.Pending
    requires Reachable(p, s)
    ensures var rec := s.kids[c].core.ledger[id].payload;
            CanDecide(p, s, c, id) <==> Sendable(s, rec) && !Doomed(p.cfg, s.b.table, rec)
  {
    var rec := s.kids[c].core.ledger[id].payload;
    PendingRow(p, s, c, id);
    Safety.ReachableInv(p, s);
    if CanDecide(p, s, c, id) {
      var steps, t :| IsRun(p, s, steps, t) && Unedited(steps) && IsDecided(t, c, id);
      if Doomed(p.cfg, s.b.table, rec) {
        DeadEnd(p, s, c, id, steps, t);
      }
      if !Sendable(s, rec) {
        StrandedRow(p, s, steps, t, c, id);
      }
    }
    if Sendable(s, rec) && !Doomed(p.cfg, s.b.table, rec) {
      WayOut(p, s, c, rec);
    }
  }

  lemma WayOut(p: Params, s: State, c: string, rec: Record)
    requires Pends(s, c, rec) && Sendable(s, rec) && !Doomed(p.cfg, s.b.table, rec)
    requires Safety.Inv(p, s)
    ensures CanDecide(p, s, c, rec.eventId)
  {
    var s1 := SendableIsPublished(p, s, rec);
    StillPends(p, s, s1, c, rec);
    if Pends(s1, c, rec) {
      var steps :| IsRun(p, s, steps, s1);
      Safety.RunKeeps(p, s, steps, s1);
      var t := NotDoomedIsDecided(p, s1, c, rec);
      DecidedSoFar(p, s, s1, t, c, rec.eventId);
    } else {
      LeadsNowhere(p, s1);
      GetsByLead(p, s1, s1);
      DecidedSoFar(p, s, s1, s1, c, rec.eventId);
    }
  }

  // -------------------------------------------------------------------
  // With edits

  /** The record stood on a line of this child's. */
  ghost predicate WasParsed(k: Kid, rec: Record) {
    exists text, i: nat :: i < |A.KindsIn(text, k.device)| && A.KindsIn(text, k.device)[i] == A.Carries(rec)
  }

  ghost predicate RowsParsed(k: Kid) {
    forall id | id in k.core.ledger && k.core.ledger[id].status == D.Pending :: WasParsed(k, k.core.ledger[id].payload)
  }

  lemma KidStepParsed(p: Params, s: State, k: Kid, step: Step)
    requires IsKidStep(step) && KidEnabled(s, k, step) && RowsParsed(k)
    ensures RowsParsed(KidDo(p, s, k, step))
  {
    var k' := KidDo(p, s, k, step);
    assert k'.device == k.device by {
      if !step.Edit? {
        OutboxShrinks(p, s, k, step);
      }
    }
    forall id | id in k'.core.ledger && k'.core.ledger[id].status == D.Pending
      ensures WasParsed(k, k'.core.ledger[id].payload)
    {
      PendingBefore(p, s, k, step, id);
    }
    SameDevice(k, k');
  }

  lemma SameDevice(k: Kid, k': Kid)
    requires k'.device == k.device
    requires forall id | id in k'.core.ledger && k'.core.ledger[id].status == D.Pending ::
               WasParsed(k, k'.core.ledger[id].payload)
    ensures RowsParsed(k')
  {
    forall id | id in k'.core.ledger && k'.core.ledger[id].status == D.Pending
      ensures WasParsed(k', k'.core.ledger[id].payload)
    {
      var rec := k'.core.ledger[id].payload;
      assert WasParsed(k, rec);
      var text, i: nat :| i < |A.KindsIn(text, k.device)| && A.KindsIn(text, k.device)[i] == A.Carries(rec);
      assert A.KindsIn(text, k'.device)[i] == A.Carries(rec);
    }
  }

  lemma CurrentWasParsed(k: Kid, rec: Record)
    requires IsCurrent(k, rec) && RowsParsed(k)
    ensures WasParsed(k, rec)
  {
    assert A.KindsIn(k.scan.pass.text, k.device)[k.scan.pass.next] == A.Carries(rec);
  }

  lemma PendingBefore(p: Params, s: State, k: Kid, step: Step, id: Id)
    requires IsKidStep(step) && KidEnabled(s, k, step) && RowsParsed(k)
    requires id in KidDo(p, s, k, step).core.ledger && KidDo(p, s, k, step).core.ledger[id].status == D.Pending
    ensures WasParsed(k, KidDo(p, s, k, step).core.ledger[id].payload)
  {
    if step.Call? {
      D.CallbackKeeps(k.core, step.cb);
    } else if step.Start? {
      Sessions.StartLedger(k, step.rec, step.now, p.resendAfter);
      CurrentWasParsed(k, step.rec);
    } else {
      Sessions.LedgerUnwritten(p, s, k, step);
    }
  }

  lemma {:induction false} RunParsed(p: Params, s: State, steps: seq<Step>, t: State, c: string)
    requires c in s.kids && RowsParsed(s.kids[c])
    requires IsRun(p, s, steps, t)
    ensures c in t.kids && RowsParsed(t.kids[c])
    decreases |steps|
  {
    if steps != [] {
      if IsKidStep(steps[0]) && steps[0].kid == c {
        KidStepParsed(p, s, s.kids[c], steps[0]);
      }
      RunParsed(p, Do(p, s, steps[0]), steps[1..], t, c);
    }
  }

  /** Put back into the outbox, the line is on its way again. */
  lemma LinePutBack(p: Params, s: State, c: string, id: Id) returns (t: State)
    requires c in s.kids && id in s.kids[c].core.ledger
    requires s.kids[c].core.ledger[id].status == D.Pending
    requires Reachable(p, s)
    ensures Runs(p, s, t) && c in t.kids && t.kids[c].core.ledger == s.kids[c].core.ledger && t.b == s.b
    ensures Sendable(t, s.kids[c].core.ledger[id].payload)
  {
    var rec := s.kids[c].core.ledger[id].payload;
    PendingRow(p, s, c, id);
    var s0, before :| Init(s0) && IsRun(p, s0, before, s);
    Sessions.KidsAreFixed(p, s0, before, s);
    assert KidInit(s0.kids[c]);
    RunParsed(p, s0, before, s, c);
    assert WasParsed(s.kids[c], rec);
    var text, i: nat :| i < |A.KindsIn(text, s.kids[c].device)|
                        && A.KindsIn(text, s.kids[c].device)[i] == A.Carries(rec);
    var step := Edit(c, "again", text);
    RunsByStep(p, s, step);
    t := Do(p, s, step);
    assert Outbox.OnLine(t.kids[c], "again", i, rec);
    assert CanSend(t.kids[c], rec);
  }

  /** With edits of files allowed, only a doomed row is lost. */
  lemma DecidableWithEditsIff(p: Params, s: State, c: string, id: Id)
    requires c in s.kids && id in s.kids[c].core.ledger
    requires s.kids[c].core.ledger[id].status == D.Pending
    requires Reachable(p, s)
    ensures (exists t :: Runs(p, s, t) && IsDecided(t, c, id)) <==>
            !Doomed(p.cfg, s.b.table, s.kids[c].core.ledger[id].payload)
  {
    var rec := s.kids[c].core.ledger[id].payload;
    if t :| Runs(p, s, t) && IsDecided(t, c, id) {
      if Doomed(p.cfg, s.b.table, rec) {
        var steps :| IsRun(p, s, steps, t);
        DeadEnd(p, s, c, id, steps, t);
      }
    }
    if !Doomed(p.cfg, s.b.table, rec) {
      PutBackIsDecided(p, s, c, id);
    }
  }

  lemma PutBackIsDecided(p: Params, s: State, c: string, id: Id)
    requires c in s.kids && id in s.kids[c].core.ledger
    requires s.kids[c].core.ledger[id].status == D.Pending
    requires !Doomed(p.cfg, s.b.table, s.kids[c].core.ledger[id].payload)
    requires Reachable(p, s)
    ensures exists t :: Runs(p, s, t) && IsDecided(t, c, id)
  {
    var s1 := LinePutBack(p, s, c, id);
    ReachableOn(p, s, s1);
    DecidableIff(p, s1, c, id);
    var steps, t :| IsRun(p, s1, steps, t) && Unedited(steps) && IsDecided(t, c, id);
    assert Runs(p, s1, t);
    RunsOn(p, s, s1, t);
  }
}
