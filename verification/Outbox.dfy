/** Files that are only appended to: as long as nobody rewrites a file, every pending
    row's line stays in the outbox, so the next passes come back to it. */
module Outbox {
  import opened Records
  import opened Oracle
  import opened Protocol
  import D = Delivery
  import A = Archiving
  import Safety
  import Sessions
  import Archives

  /** An edit only adds text at the end of a file, or makes a new file. */
  predicate Appends(s: State, step: Step) {
    step.Edit? && step.kid in s.kids && step.name in s.kids[step.kid].outbox ==>
      s.kids[step.kid].outbox[step.name].text <= step.text
  }

  ghost predicate IsAppendRun(p: Params, s: State, steps: seq<Step>, t: State)
    decreases |steps|
  {
    if steps == [] then s == t
    else Enabled(p, s, steps[0]) && Appends(s, steps[0]) && IsAppendRun(p, Do(p, s, steps[0]), steps[1..], t)
  }

  ghost predicate ReachableByAppends(p: Params, t: State) {
    exists s, steps :: Init(s) && IsAppendRun(p, s, steps, t)
  }

  lemma {:induction false} AppendRunIsRun(p: Params, s: State, steps: seq<Step>, t: State)
    requires IsAppendRun(p, s, steps, t)
    ensures IsRun(p, s, steps, t)
    decreases |steps|
  {
    if steps != [] {
      AppendRunIsRun(p, Do(p, s, steps[0]), steps[1..], t);
    }
  }

  lemma AppendsReach(p: Params, t: State)
    requires ReachableByAppends(p, t)
    ensures Reachable(p, t)
  {
    var s, steps :| Init(s) && IsAppendRun(p, s, steps, t);
    AppendRunIsRun(p, s, steps, t);
  }

  // -------------------------------------------------------------------
  // The invariant of one child

  predicate HasPass(k: Kid) { k.scan.Reading? || k.scan.Complete? || k.scan.Listed? }

  /** Line `i` of the outbox file carries the record. */
  predicate OnLine(k: Kid, name: string, i: nat, rec: Record) {
    && name in k.outbox && i < |A.KindsIn(k.outbox[name].text, k.device)|
    && A.KindsIn(k.outbox[name].text, k.device)[i] == A.Carries(rec)
  }

  /** Line `i` is not beyond what the pass over this file has read. */
  predicate WasRead(k: Kid, name: string, i: nat) {
    HasPass(k) && k.scan.pass.name == name ==> i < |Kinds(k)|
  }

  /** Some file has the record's line, in the part a pass over that file knows. */
  ghost predicate Kept(k: Kid, rec: Record) {
    exists name, i: nat :: OnLine(k, name, i, rec) && WasRead(k, name, i)
  }

  ghost predicate RowsKept(k: Kid) {
    forall id | id in k.core.ledger && k.core.ledger[id].status == D.Pending :: Kept(k, k.core.ledger[id].payload)
  }

  predicate PassGrows(k: Kid) {
    HasPass(k) ==> k.scan.pass.name in k.outbox && k.scan.pass.text <= k.outbox[k.scan.pass.name].text
  }

  predicate MovesGrow(k: Kid) {
    forall i | 0 <= i < |k.moves| :: k.moves[i].read <= k.moves[i].moved
  }

  ghost predicate GrowsOk(k: Kid) { RowsKept(k) && PassGrows(k) && MovesGrow(k) }

  // -------------------------------------------------------------------
  // Steps

  /** No file gets shorter, and a pass that is new has read its file as it is. */
  predicate FilesGrow(k: Kid, k': Kid) {
    && k'.device == k.device
    && (forall n | n in k.outbox :: n in k'.outbox && k.outbox[n].text <= k'.outbox[n].text)
    && (HasPass(k') ==>
          || (HasPass(k) && k'.scan.pass.name == k.scan.pass.name && k'.scan.pass.text == k.scan.pass.text)
          || (k'.scan.pass.name in k'.outbox && k'.scan.pass.text == k'.outbox[k'.scan.pass.name].text))
  }

  lemma KeptStays(k: Kid, k': Kid, rec: Record)
    requires Kept(k, rec) && FilesGrow(k, k')
    ensures Kept(k', rec)
  {
    var name, i: nat :| OnLine(k, name, i, rec) && WasRead(k, name, i);
    A.KindsStay(k.outbox[name].text, k'.outbox[name].text, k.device);
    assert OnLine(k', name, i, rec);
    assert WasRead(k', name, i);
  }

  /** Rows that were there are kept; a new one is the record of the current line. */
  lemma RowsStayKept(k: Kid, k': Kid)
    requires RowsKept(k) && FilesGrow(k, k') && D.Keeps(k.core.ledger, k'.core.ledger)
    requires forall id | id in k'.core.ledger && id !in k.core.ledger :: Kept(k', k'.core.ledger[id].payload)
    ensures RowsKept(k')
  {
    forall id | id in k'.core.ledger && k'.core.ledger[id].status == D.Pending
      ensures Kept(k', k'.core.ledger[id].payload)
    {
      if id in k.core.ledger {
        KeptStays(k, k', k.core.ledger[id].payload);
      }
    }
  }

  lemma CurrentIsKept(k: Kid, rec: Record)
    requires PassGrows(k) && IsCurrent(k, rec)
    ensures Kept(k, rec)
  {
    var name := k.scan.pass.name;
    A.KindsStay(k.scan.pass.text, k.outbox[name].text, k.device);
    assert OnLine(k, name, k.scan.pass.next, rec) && WasRead(k, name, k.scan.pass.next);
  }

  lemma StartKept(k: Kid, rec: Record, now: real, resendAfter: real)
    requires GrowsOk(k) && IsCurrent(k, rec)
    ensures GrowsOk(Started(k, rec, now, resendAfter))
  {
    match D.Checked(k.core, rec, now, resendAfter) {
      case Return(_) => RowsStayKept(k, Started(k, rec, now, resendAfter));
      case Raise => RowsStayKept(k, Rebooted(k));
      case Publish(ledger) => PublishKept(k, rec, now, resendAfter, ledger);
    }
  }

  lemma PublishKept(k: Kid, rec: Record, now: real, resendAfter: real, ledger: D.Ledger)
    requires GrowsOk(k) && IsCurrent(k, rec) && D.Checked(k.core, rec, now, resendAfter) == D.Publish(ledger)
    ensures GrowsOk(k.(core := k.core.(ledger := ledger), task := Saved(rec, now, |k.notes|)))
  {
    var k' := k.(core := k.core.(ledger := ledger), task := Saved(rec, now, |k.notes|));
    D.CheckKeeps(k.core, rec, now, resendAfter);
    CurrentIsKept(k, rec);
    KeptStays(k, k', rec);
    forall id | id in ledger && id !in k.core.ledger ensures ledger[id].payload == rec {}
    RowsStayKept(k, k');
  }

  /** What a finished pass has read is decided. */
  lemma ReadIsDecided(k: Kid, i: nat, rec: Record)
    requires Archives.FilesOk(k) && (k.scan.Complete? || k.scan.Listed?) && PassGrows(k)
    requires OnLine(k, k.scan.pass.name, i, rec) && i < |Kinds(k)|
    ensures A.HasDecided(k.core.ledger, rec.eventId)
  {
    A.KindsStay(k.scan.pass.text, k.outbox[k.scan.pass.name].text, k.device);
    assert A.LineSettled(k.core.ledger, Kinds(k)[i]);
  }

  /** A row still open has its line in a file other than the one that is moved: all
      lines that were read of that one are decided. */
  lemma MoveKept(k: Kid, target: string, toSent: bool)
    requires GrowsOk(k) && Archives.FilesOk(k) && (k.scan.Complete? || k.scan.Listed?)
    requires forall id | id in k.core.ledger :: k.core.ledger[id].payload.eventId == id
    ensures GrowsOk(Moved(k, target, toSent))
  {
    forall id | id in k.core.ledger && k.core.ledger[id].status == D.Pending
      ensures Kept(Moved(k, target, toSent), k.core.ledger[id].payload)
    {
      RowMoveKept(k, target, toSent, id);
    }
  }

  lemma RowMoveKept(k: Kid, target: string, toSent: bool, id: Id)
    requires GrowsOk(k) && Archives.FilesOk(k) && (k.scan.Complete? || k.scan.Listed?)
    requires id in k.core.ledger && k.core.ledger[id].status == D.Pending && k.core.ledger[id].payload.eventId == id
    ensures Kept(Moved(k, target, toSent), k.core.ledger[id].payload)
  {
    var k', rec := Moved(k, target, toSent), k.core.ledger[id].payload;
    assert Kept(k, rec);
    var name, i: nat :| OnLine(k, name, i, rec) && WasRead(k, name, i);
    if name == k.scan.pass.name {
      ReadIsDecided(k, i, rec);
    } else {
      assert OnLine(k', name, i, rec) && WasRead(k', name, i);
    }
  }

  lemma KidStepGrows(p: Params, s: State, k: Kid, step: Step)
    requires IsKidStep(step) && KidEnabled(s, k, step) && GrowsOk(k) && Archives.FilesOk(k)
    requires forall id | id in k.core.ledger :: k.core.ledger[id].payload.eventId == id
    requires step.Edit? && step.name in k.outbox ==> k.outbox[step.name].text <= step.text
    ensures GrowsOk(KidDo(p, s, k, step))
  {
    match step {
      case Call(_, cb) => CallKept(k, cb);
      case Start(_, rec, now) => StartKept(k, rec, now, p.resendAfter);
      case MoveToSent(_, target) => MoveKept(k, target, true);
      case MoveToNacked(_) => MoveKept(k, k.scan.target, false);
      case _ => OtherStepKept(p, s, k, step);
    }
  }

  lemma CallKept(k: Kid, cb: D.Callback)
    requires GrowsOk(k)
    ensures GrowsOk(k.(core := D.After(k.core, cb), notes := k.notes + [Called(cb)]))
  {
    D.CallbackKeeps(k.core, cb);
    RowsStayKept(k, k.(core := D.After(k.core, cb), notes := k.notes + [Called(cb)]));
  }

  lemma OtherStepKept(p: Params, s: State, k: Kid, step: Step)
    requires IsKidStep(step) && KidEnabled(s, k, step) && GrowsOk(k)
    requires !step.Call? && !step.Start? && !step.MoveToSent? && !step.MoveToNacked?
    requires step.Edit? && step.name in k.outbox ==> k.outbox[step.name].text <= step.text
    ensures GrowsOk(KidDo(p, s, k, step))
  {
    Sessions.LedgerUnwritten(p, s, k, step);
    OtherStepGrows(p, s, k, step);
    RowsStayKept(k, KidDo(p, s, k, step));
  }

  lemma StartOutbox(k: Kid, rec: Record, now: real, resendAfter: real)
    ensures var k' := Started(k, rec, now, resendAfter); k'.device == k.device && k'.outbox == k.outbox
  {}

  lemma OutboxStays(p: Params, s: State, k: Kid, step: Step)
    requires IsKidStep(step) && KidEnabled(s, k, step)
    requires !step.Start? && !step.MoveToSent? && !step.MoveToNacked? && !step.Edit?
    ensures var k' := KidDo(p, s, k, step); k'.device == k.device && k'.outbox == k.outbox
  {
    match step
    case Call(_, _) =>
    case Publish(_) =>
    case Settle(_, _) =>
    case Restart(_) =>
    case Open(_, _) =>
    case Read(_) =>
    case Skip(_) =>
    case Finish(_, _) =>
    case WriteSidecar(_, _) =>
  }

  /** Where the pass stands keeps with the file: the same text, or the file's as it is. */
  lemma PassText(p: Params, s: State, k: Kid, step: Step)
    requires IsKidStep(step) && KidEnabled(s, k, step)
    requires !step.Start? && !step.MoveToSent? && !step.MoveToNacked? && !step.Edit?
    ensures var k' := KidDo(p, s, k, step);
            && k'.moves == k.moves
            && (HasPass(k') ==>
                  || (HasPass(k) && k'.scan.pass.name == k.scan.pass.name && k'.scan.pass.text == k.scan.pass.text)
                  || (k'.scan.pass.name in k.outbox && k'.scan.pass.text == k.outbox[k'.scan.pass.name].text))
  {
    match step
    case Call(_, _) =>
    case Publish(_) =>
    case Settle(_, _) =>
    case Restart(_) =>
    case Open(_, _) =>
    case Read(_) =>
    case Skip(_) =>
    case Finish(_, _) =>
    case WriteSidecar(_, _) =>
  }

  lemma OtherStepGrows(p: Params, s: State, k: Kid, step: Step)
    requires IsKidStep(step) && KidEnabled(s, k, step) && GrowsOk(k)
    requires !step.Call? && !step.Start? && !step.MoveToSent? && !step.MoveToNacked?
    requires step.Edit? && step.name in k.outbox ==> k.outbox[step.name].text <= step.text
    ensures FilesGrow(k, KidDo(p, s, k, step)) && PassGrows(KidDo(p, s, k, step)) && MovesGrow(KidDo(p, s, k, step))
  {
    if !step.Edit? {
      OutboxStays(p, s, k, step);
      PassText(p, s, k, step);
    }
  }

  lemma StepGrows(p: Params, s: State, step: Step, c: string)
    requires c in s.kids && GrowsOk(s.kids[c]) && Archives.FilesOk(s.kids[c])
    requires Enabled(p, s, step) && Appends(s, step) && Safety.KidsOk(s.b.table, s.kids)
    ensures c in Do(p, s, step).kids
    ensures GrowsOk(Do(p, s, step).kids[c]) && Archives.FilesOk(Do(p, s, step).kids[c])
  {
    if IsKidStep(step) && step.kid == c {
      assert Safety.KidOk(s.b.table, s.kids[c]);
      RowsNamed(s.b.table, s.kids[c]);
      Archives.KidStepOk(p, s, s.kids[c], step);
      KidStepGrows(p, s, s.kids[c], step);
    }
  }

  lemma {:induction false} RunGrows(p: Params, s: State, steps: seq<Step>, t: State, c: string)
    requires c in s.kids && GrowsOk(s.kids[c]) && Archives.FilesOk(s.kids[c])
    requires IsAppendRun(p, s, steps, t) && Safety.Inv(p, s)
    ensures c in t.kids && GrowsOk(t.kids[c])
    decreases |steps|
  {
    if steps != [] {
      Safety.StepKeeps(p, s, steps[0]);
      StepGrows(p, s, steps[0], c);
      RunGrows(p, Do(p, s, steps[0]), steps[1..], t, c);
    }
  }

  lemma RowsNamed(t: Table, k: Kid)
    requires Safety.KidOk(t, k)
    ensures forall id | id in k.core.ledger :: k.core.ledger[id].payload.eventId == id
  {
    forall id | id in k.core.ledger ensures k.core.ledger[id].payload.eventId == id {
      assert Safety.LedgerRowOk(t, k.device, id, k.core.ledger[id]);
    }
  }

  lemma ReachableGrows(p: Params, t: State, c: string)
    requires c in t.kids
    requires ReachableByAppends(p, t)
    ensures GrowsOk(t.kids[c])
  {
    var s, steps :| Init(s) && IsAppendRun(p, s, steps, t);
    AppendRunIsRun(p, s, steps, t);
    Sessions.KidsAreFixed(p, s, steps, t);
    assert KidInit(s.kids[c]);
    Safety.InitKeeps(p, s);
    RunGrows(p, s, steps, t, c);
  }

  // -------------------------------------------------------------------
  // The theorems

  /** Every pending row's line is in the outbox, and not in a file about to be moved. */
  lemma PendingHasLine(p: Params, t: State, c: string, id: Id)
    requires c in t.kids && id in t.kids[c].core.ledger
    requires t.kids[c].core.ledger[id].status == D.Pending
    requires ReachableByAppends(p, t)
    ensures exists name, i: nat ::
              && OnLine(t.kids[c], name, i, t.kids[c].core.ledger[id].payload)
              && (t.kids[c].scan.Complete? || t.kids[c].scan.Listed? ==> t.kids[c].scan.pass.name != name)
  {
    var k := t.kids[c];
    var rec := k.core.ledger[id].payload;
    ReachableGrows(p, t, c);
    AppendsReach(p, t);
    Archives.ReachableOk(p, t, c);
    Safety.ReachableInv(p, t);
    assert Safety.KidOk(t.b.table, k);
    RowsNamed(t.b.table, k);
    assert Kept(k, rec);
    var name, i: nat :| OnLine(k, name, i, rec) && WasRead(k, name, i);
    if (k.scan.Complete? || k.scan.Listed?) && k.scan.pass.name == name {
      ReadIsDecided(k, i, rec);
    }
  }

  /** Every move: the file is sound if and only if each line behind the text that was
      read is blank or in Oracle. */
  lemma MovedSoundIff(p: Params, t: State, c: string, i: nat)
    requires c in t.kids && i < |t.kids[c].moves|
    requires ReachableByAppends(p, t)
    ensures var k, m := t.kids[c], t.kids[c].moves[i];
            && m.read <= m.moved
            && (Archives.FileSound(t.b.table, k, m) <==>
                Archives.AllSound(t.b.table, A.KindsIn(m.moved[|m.read|..], k.device)))
  {
    ReachableGrows(p, t, c);
    AppendsReach(p, t);
    var m := t.kids[c].moves[i];
    assert m.moved == m.read + m.moved[|m.read|..];
    Archives.AppendedBeforeMove(p, t, c, i, m.moved[|m.read|..]);
  }
}
