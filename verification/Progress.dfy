/** No dead end: from every reachable state an undecided row can still be decided,
    whatever the inbox holds for it, and exactly when it cannot. */
module Progress {
  import opened Text
  import opened Records
  import opened Oracle
  import opened Protocol
  import Breaker
  import Eviction
  import D = Delivery
  import A = Archiving
  import I = RecordInbox
  import B = RecordSending
  import Safety
  import Sessions
  import Archives
  import Outbox

  // -------------------------------------------------------------------
  // Ordinary runs

  /** ORA-00001 is given up on and success is recognised: whatever a MERGE meets, a
      clean reply decides the row. */
  predicate Calm(cfg: B.Config) { !cfg.literalTest && ORA_UNIQUE in cfg.unretryable }

  /** Steps without a crash, a restart, an edit of a file, an eviction or a write by
      another program. MERGEs of other rows may fail for a while; they need not with
      a calm configuration, and then do not. Without one, a row in front of ours could
      take its key, so the run lets that row wait. */
  predicate Ordinary(p: Params, step: Step) {
    && !(step.Crash? || step.Restart? || step.Edit? || step.DeleteSent? || step.RingEvict? || step.Foreign?
         || step.EventSender?)
    && (step.Merge? && Calm(p.cfg) ==> step.fault.Clean?)
  }

  ghost predicate OrdinaryRun(p: Params, s: State, steps: seq<Step>, t: State) {
    IsRun(p, s, steps, t) && forall i | 0 <= i < |steps| :: Ordinary(p, steps[i])
  }

  /** Some ordinary run leads from `s` to `t`. */
  ghost predicate Leads(p: Params, s: State, t: State) {
    exists steps :: OrdinaryRun(p, s, steps, t)
  }

  lemma LeadsNowhere(p: Params, s: State)
    ensures Leads(p, s, s)
  {
    assert OrdinaryRun(p, s, [], s);
  }

  lemma LeadsByStep(p: Params, s: State, step: Step)
    requires Enabled(p, s, step) && Ordinary(p, step)
    ensures Leads(p, s, Do(p, s, step))
  {
    var t := Do(p, s, step);
    assert IsRun(p, t, [], t);
    assert [step][1..] == [];
    assert OrdinaryRun(p, s, [step], t);
  }

  lemma LeadsOn(p: Params, s: State, t: State, u: State)
    requires Leads(p, s, t) && Leads(p, t, u)
    ensures Leads(p, s, u)
  {
    var a :| OrdinaryRun(p, s, a, t);
    var b :| OrdinaryRun(p, t, b, u);
    RunsCompose(p, s, a, t, b, u);
    assert OrdinaryRun(p, s, a + b, u);
  }

  lemma LeadsRuns(p: Params, s: State, t: State)
    requires Leads(p, s, t)
    ensures Runs(p, s, t)
  {
    var a :| OrdinaryRun(p, s, a, t);
    assert IsRun(p, s, a, t);
  }

  lemma LeadsKeepsInv(p: Params, s: State, t: State)
    requires Safety.Inv(p, s) && Leads(p, s, t)
    ensures Safety.Inv(p, t)
  {
    var a :| OrdinaryRun(p, s, a, t);
    Safety.RunKeeps(p, s, a, t);
  }

  // -------------------------------------------------------------------
  // The hub comes to rest

  /** The run so far was about other things. */
  predicate Aside(p: Params, s: State, t: State) {
    && t.kids == s.kids && t.records == s.records
    && Grown(s.b.table, t.b.table) && (!Calm(p.cfg) ==> t.b.table == s.b.table)
  }

  const TRANSIENT := ErrorBeforeCommit(None, "unreachable")

  /** What happens to the MERGEs of other rows on the way. */
  function Passing(cfg: B.Config): Fault { if Calm(cfg) then Clean else TRANSIENT }

  lemma MergeAside(p: Params, s: State) returns (t: State)
    requires s.main.Merging? && s.main.batch != []
    ensures Leads(p, s, t) && Aside(p, s, t) && t.recv == s.recv
    ensures t.main.Marking? && t.main.batch == s.main.batch && t.main.now == s.main.now
  {
    var step := Merge(Passing(p.cfg));
    assert FaultOk(step.fault, p.cfg.unretryable);
    LeadsByStep(p, s, step);
    t := Do(p, s, step);
    MergeMeaning(s.b.table, s.main.batch[0].rec, step.fault, p.cfg.unretryable, p.cfg.literalTest);
  }

  lemma FinishHead(p: Params, s: State) returns (t: State)
    requires !s.main.Resting? && s.main.batch != []
    ensures Leads(p, s, t) && Aside(p, s, t) && t.recv == s.recv
    ensures t.main == AfterHead(s.main.batch, s.main.now)
  {
    var s1 := s;
    LeadsNowhere(p, s);
    if s1.main.Merging? {
      s1 := MergeAside(p, s);
    }
    t := MarkAside(p, s1);
    LeadsOn(p, s, s1, t);
  }

  lemma MarkAside(p: Params, s: State) returns (t: State)
    requires (s.main.Marking? || s.main.Replying?) && s.main.batch != []
    ensures Leads(p, s, t) && Aside(p, s, t) && t.recv == s.recv
    ensures t.main == AfterHead(s.main.batch, s.main.now)
  {
    var s1 := s;
    LeadsNowhere(p, s);
    if s.main.Marking? {
      LeadsByStep(p, s, Mark);
      s1 := Do(p, s, Mark);
    }
    LeadsByStep(p, s1, Reply);
    t := Do(p, s1, Reply);
    LeadsOn(p, s, s1, t);
  }

  /** The first `n` rows of a batch are passed. */
  lemma {:induction false} FinishRows(p: Params, s: State, n: nat) returns (t: State)
    requires !s.main.Resting? && n < |s.main.batch|
    requires n == 0 ==> s.main.Merging?
    ensures Leads(p, s, t) && Aside(p, s, t) && t.recv == s.recv
    ensures t.main == Merging(s.main.batch[n..], s.main.now)
    decreases n
  {
    if n == 0 {
      t := s;
      LeadsNowhere(p, s);
    } else {
      var s1 := FinishHead(p, s);
      t := FinishRows(p, s1, n - 1);
      LeadsOn(p, s, s1, t);
    }
  }

  lemma RestMain(p: Params, s: State) returns (t: State)
    requires Safety.Inv(p, s)
    ensures Leads(p, s, t) && Aside(p, s, t) && t.recv == s.recv && t.main.Resting?
  {
    t := s;
    LeadsNowhere(p, s);
    if !s.main.Resting? {
      var n := |s.main.batch| - 1;
      var s1 := s;
      if n > 0 {
        s1 := FinishRows(p, s, n);
      }
      t := FinishHead(p, s1);
      LeadsOn(p, s, s1, t);
    }
  }

  lemma RestRecv(p: Params, s: State) returns (t: State)
    ensures Leads(p, s, t) && Aside(p, s, t) && t.main == s.main && t.recv.Free?
  {
    t := s;
    LeadsNowhere(p, s);
    if s.recv.Got? {
      LeadsByStep(p, s, Answer(0));
      t := Do(p, s, Answer(0));
    }
  }

  // -------------------------------------------------------------------
  // The child comes to rest

  predicate Undecided(l: D.Ledger, id: Id) { id in l ==> l[id].status == D.Pending }

  /** Only child `d` moved, and it decided nothing. */
  ghost predicate ChildMoved(s: State, t: State, d: string) {
    && t.b == s.b && t.main == s.main && t.recv == s.recv && s.records <= t.records
    && d in s.kids && d in t.kids && t.kids[d].device == s.kids[d].device
    && t.kids[d].core.session == s.kids[d].core.session
    && forall id | Undecided(s.kids[d].core.ledger, id) :: Undecided(t.kids[d].core.ledger, id)
  }

  /** The pass is the same but stands at line `n`. */
  predicate PassAt(s: State, t: State, d: string, n: nat)
    requires d in s.kids && d in t.kids
  {
    && s.kids[d].scan.Reading? && t.kids[d].scan.Reading? && t.kids[d].task.Idle?
    && t.kids[d].scan.pass.name == s.kids[d].scan.pass.name && t.kids[d].scan.pass.text == s.kids[d].scan.pass.text
    && t.kids[d].scan.pass.next == n
  }

  lemma RestTask(p: Params, s: State, d: string) returns (t: State)
    requires d in s.kids
    ensures Leads(p, s, t) && ChildMoved(s, t, d) && t.kids[d].task.Idle? && t.kids[d].outbox == s.kids[d].outbox
    ensures t.kids[d].core == s.kids[d].core
    ensures s.kids[d].scan.Reading? ==>
              PassAt(s, t, d, s.kids[d].scan.pass.next + if s.kids[d].task.Idle? then 0 else 1)
    ensures !s.kids[d].scan.Reading? ==> t.kids[d].scan == s.kids[d].scan
  {
    var s1 := s;
    LeadsNowhere(p, s);
    if s.kids[d].task.Saved? {
      LeadsByStep(p, s, Publish(d));
      s1 := Do(p, s, Publish(d));
    }
    t := s1;
    LeadsNowhere(p, s1);
    if s1.kids[d].task.Waiting? {
      LeadsByStep(p, s1, Settle(d, false));
      t := Do(p, s1, Settle(d, false));
    }
    LeadsOn(p, s, s1, t);
  }

  /** The child's row for `rec` is open. */
  predicate Pends(t: State, c: string, rec: Record) {
    && c in t.kids && rec.eventId in t.kids[c].core.ledger
    && t.kids[c].core.ledger[rec.eventId].payload == rec
    && t.kids[c].core.ledger[rec.eventId].status == D.Pending
  }

  /** The file is there, line `i` carries the record, and no finished pass is about to
      move it. */
  predicate Waits(k: Kid, name: string, i: nat, rec: Record) {
    Outbox.OnLine(k, name, i, rec) && (k.scan.Complete? || k.scan.Listed? ==> k.scan.pass.name != name)
  }

  /** The file pass is cut short at the time limit, or ends. It is not complete if it
      was over a file with an open row: that file is as it was read, or has changed. */
  lemma RestReading(p: Params, s: State, c: string, name: string, i: nat, rec: Record) returns (t: State)
    requires Pends(s, c, rec) && s.kids[c].task.Idle? && Archives.FilesOk(s.kids[c]) && s.kids[c].scan.Reading?
    requires Waits(s.kids[c], name, i, rec)
    ensures Leads(p, s, t) && ChildMoved(s, t, c) && t.kids[c].core == s.kids[c].core && t.kids[c].task.Idle?
    ensures t.kids[c].outbox == s.kids[c].outbox && Waits(t.kids[c], name, i, rec)
    ensures t.kids[c].scan.NoScan? || t.kids[c].scan.Complete?
  {
    var k := s.kids[c];
    var step := Finish(c, AtLine(k));
    LeadsByStep(p, s, step);
    t := Do(p, s, step);
    Archives.FinishOk(k, step.timeUp);
    if t.kids[c].scan.Complete? && k.scan.pass.name == name {
      Outbox.ReadIsDecided(t.kids[c], i, rec);
    }
  }

  lemma RestComplete(p: Params, s: State, c: string, name: string, i: nat, rec: Record) returns (t: State)
    requires c in s.kids && s.kids[c].task.Idle? && Archives.FilesOk(s.kids[c])
    requires s.kids[c].scan.Complete? || s.kids[c].scan.Listed?
    requires Waits(s.kids[c], name, i, rec)
    ensures Leads(p, s, t) && ChildMoved(s, t, c) && t.kids[c].core == s.kids[c].core
    ensures t.kids[c].task.Idle? && t.kids[c].scan.NoScan? && Waits(t.kids[c], name, i, rec)
  {
    var k := s.kids[c];
    if k.scan.Complete? && k.scan.pass.tally.nacked == 0 {
      t := RestToSent(p, s, c, name, i, rec);
    } else if k.scan.Complete? {
      var target := A.TargetExists(k.scan.pass.name, k.nacked.Keys);
      LeadsByStep(p, s, WriteSidecar(c, target));
      var s1 := Do(p, s, WriteSidecar(c, target));
      t := RestToNacked(p, s1, c, name, i, rec);
      LeadsOn(p, s, s1, t);
    } else {
      t := RestToNacked(p, s, c, name, i, rec);
    }
  }

  lemma RestToSent(p: Params, s: State, c: string, name: string, i: nat, rec: Record) returns (t: State)
    requires c in s.kids && s.kids[c].task.Idle? && Archives.ScanOk(s.kids[c])
    requires s.kids[c].scan.Complete? && s.kids[c].scan.pass.tally.nacked == 0 && Waits(s.kids[c], name, i, rec)
    ensures Leads(p, s, t) && ChildMoved(s, t, c) && t.kids[c].core == s.kids[c].core
    ensures t.kids[c].task.Idle? && t.kids[c].scan.NoScan? && Waits(t.kids[c], name, i, rec)
  {
    var target := A.TargetExists(s.kids[c].scan.pass.name, s.kids[c].sent.Keys);
    LeadsByStep(p, s, MoveToSent(c, target));
    t := Do(p, s, MoveToSent(c, target));
  }

  lemma RestToNacked(p: Params, s: State, c: string, name: string, i: nat, rec: Record) returns (t: State)
    requires c in s.kids && s.kids[c].task.Idle? && s.kids[c].scan.Listed?
    requires s.kids[c].scan.pass.name in s.kids[c].outbox && Waits(s.kids[c], name, i, rec)
    ensures Leads(p, s, t) && ChildMoved(s, t, c) && t.kids[c].core == s.kids[c].core
    ensures t.kids[c].task.Idle? && t.kids[c].scan.NoScan? && Waits(t.kids[c], name, i, rec)
  {
    LeadsByStep(p, s, MoveToNacked(c));
    t := Do(p, s, MoveToNacked(c));
  }

  lemma FilesStayOk(p: Params, s: State, t: State, c: string)
    requires c in s.kids && Archives.FilesOk(s.kids[c])
    requires Leads(p, s, t)
    ensures c in t.kids && Archives.FilesOk(t.kids[c])
  {
    var a :| OrdinaryRun(p, s, a, t);
    Archives.RunOk(p, s, a, t, c);
  }

  /** The pass under way, if any, comes to its end without the waiting file. */
  lemma RestChild(p: Params, s: State, c: string, name: string, i: nat, rec: Record) returns (t: State)
    requires Pends(s, c, rec) && Archives.FilesOk(s.kids[c]) && Waits(s.kids[c], name, i, rec)
    ensures Leads(p, s, t) && ChildMoved(s, t, c) && t.kids[c].core == s.kids[c].core
    ensures t.kids[c].task.Idle? && t.kids[c].scan.NoScan? && Waits(t.kids[c], name, i, rec)
  {
    var s1 := RestTask(p, s, c);
    FilesStayOk(p, s, s1, c);
    var s2 := s1;
    LeadsNowhere(p, s1);
    if s1.kids[c].scan.Opened? {
      LeadsByStep(p, s1, Read(c));
      s2 := Do(p, s1, Read(c));
    }
    LeadsOn(p, s, s1, s2);
    FilesStayOk(p, s, s2, c);
    var s3 := s2;
    LeadsNowhere(p, s2);
    if s2.kids[c].scan.Reading? {
      s3 := RestReading(p, s2, c, name, i, rec);
    }
    LeadsOn(p, s, s2, s3);
    FilesStayOk(p, s, s3, c);
    t := s3;
    LeadsNowhere(p, s3);
    if !s3.kids[c].scan.NoScan? {
      t := RestComplete(p, s3, c, name, i, rec);
    }
    LeadsOn(p, s, s3, t);
  }

  // -------------------------------------------------------------------
  // Reconnect and resend

  lemma Reconnect(p: Params, s: State, c: string) returns (t: State)
    requires c in s.kids
    ensures Leads(p, s, t) && c in t.kids
    ensures t.b == s.b && t.main == s.main && t.recv == s.recv && t.records == s.records
    ensures t.kids[c].core == D.Core(s.kids[c].core.ledger, D.Session(true, true, Some(0)))
    ensures t.kids[c].task == s.kids[c].task && t.kids[c].scan == s.kids[c].scan
    ensures t.kids[c].device == s.kids[c].device && t.kids[c].outbox == s.kids[c].outbox
  {
    var connect, suback := Call(c, D.OnConnect(0)), Call(c, D.OnSubscribe(0, [2, 2]));
    LeadsByStep(p, s, connect);
    var s1 := Do(p, s, connect);
    LeadsByStep(p, s1, suback);
    t := Do(p, s1, suback);
    LeadsOn(p, s, s1, t);
  }

  /** A line the pass sends on the way, with no answer in time. */
  /** The check at the start of `send` raises for no line of the child's own files. */
  lemma CurrentCanStart(p: Params, s: State, d: string, rec: Record, now: real)
    requires d in s.kids && IsCurrent(s.kids[d], rec)
    requires Safety.KidsOk(s.b.table, s.kids)
    ensures !D.Checked(s.kids[d].core, rec, now, p.resendAfter).Raise?
  {
    assert Safety.KidOk(s.b.table, s.kids[d]);
    Safety.CurrentIsValid(s.kids[d], rec);
    Safety.NoMismatch(s.b.table, s.kids[d], rec, now, p.resendAfter);
  }

  /** What the check does to the pass: over the line, or `send` goes on with it. */
  lemma StartedPass(k: Kid, rec: Record, now: real, resendAfter: real)
    requires k.task.Idle? && k.scan.Reading? && !D.Checked(k.core, rec, now, resendAfter).Raise?
    ensures var k' := Started(k, rec, now, resendAfter);
            && k'.device == k.device && k'.core.session == k.core.session && k'.scan.Reading?
            && (forall id | Undecided(k.core.ledger, id) :: Undecided(k'.core.ledger, id))
            && k'.scan.pass.name == k.scan.pass.name && k'.scan.pass.text == k.scan.pass.text
            && k'.scan.pass.next == k.scan.pass.next + (if k'.task.Idle? then 1 else 0)
  {
    match D.Checked(k.core, rec, now, resendAfter) {
      case Return(_) =>
      case Publish(ledger) =>
        forall id | Undecided(k.core.ledger, id) ensures Undecided(ledger, id) {}
    }
  }

  lemma SendOver(p: Params, s: State, d: string, rec: Record) returns (t: State)
    requires d in s.kids && s.kids[d].task.Idle? && IsCurrent(s.kids[d], rec)
    requires Safety.KidsOk(s.b.table, s.kids)
    ensures Leads(p, s, t) && ChildMoved(s, t, d) && PassAt(s, t, d, s.kids[d].scan.pass.next + 1)
  {
    CurrentCanStart(p, s, d, rec, 0.0);
    StartedPass(s.kids[d], rec, 0.0, p.resendAfter);
    LeadsByStep(p, s, Start(d, rec, 0.0));
    var s1 := Do(p, s, Start(d, rec, 0.0));
    t := RestTask(p, s1, d);
    LeadsOn(p, s, s1, t);
  }

  lemma StepOver(p: Params, s: State, d: string) returns (t: State)
    requires d in s.kids && s.kids[d].task.Idle? && AtLine(s.kids[d])
    requires Safety.Inv(p, s)
    ensures Leads(p, s, t) && ChildMoved(s, t, d) && PassAt(s, t, d, s.kids[d].scan.pass.next + 1)
  {
    var kind := Kinds(s.kids[d])[s.kids[d].scan.pass.next];
    if kind.Carries? {
      t := SendOver(p, s, d, kind.rec);
    } else {
      LeadsByStep(p, s, Skip(d));
      t := Do(p, s, Skip(d));
    }
  }

  lemma {:induction false} ReachLine(p: Params, s: State, d: string, n: nat) returns (t: State)
    requires d in s.kids && s.kids[d].task.Idle? && s.kids[d].scan.Reading?
    requires s.kids[d].scan.pass.next <= n < |Kinds(s.kids[d])|
    requires Safety.Inv(p, s)
    ensures Leads(p, s, t) && ChildMoved(s, t, d) && PassAt(s, t, d, n)
    decreases n - s.kids[d].scan.pass.next
  {
    if s.kids[d].scan.pass.next == n {
      t := s;
      LeadsNowhere(p, s);
    } else {
      var s1 := StepOver(p, s, d);
      LeadsKeepsInv(p, s, s1);
      t := ReachLine(p, s1, d, n);
      LeadsOn(p, s, s1, t);
    }
  }

  /** The record's own line: `send` is called late enough and publishes. */
  /** Subscribed, and long enough after the last attempt, an undecided record goes out. */
  lemma CheckLetsThrough(core: D.Core, rec: Record, resendAfter: real) returns (now: real)
    requires core.session.subscribed && Undecided(core.ledger, rec.eventId)
    ensures var check := D.Checked(core, rec, now, resendAfter); check.Publish? || check.Raise?
  {
    now := if rec.eventId in core.ledger && core.ledger[rec.eventId].lastAttempt.Some?
           then core.ledger[rec.eventId].lastAttempt.value + resendAfter else 0.0;
  }

  lemma SendCurrent(p: Params, s: State, d: string, rec: Record) returns (t: State)
    requires d in s.kids && s.kids[d].task.Idle? && IsCurrent(s.kids[d], rec)
    requires s.kids[d].core.session.subscribed && Undecided(s.kids[d].core.ledger, rec.eventId)
    requires Safety.KidsOk(s.b.table, s.kids)
    ensures Leads(p, s, t) && t.b == s.b && rec in t.records
  {
    var now := CheckLetsThrough(s.kids[d].core, rec, p.resendAfter);
    CurrentCanStart(p, s, d, rec, now);
    LeadsByStep(p, s, Start(d, rec, now));
    var s1 := Do(p, s, Start(d, rec, now));
    LeadsByStep(p, s1, Publish(d));
    t := Do(p, s1, Publish(d));
    LeadsOn(p, s, s1, t);
  }

  /** A pass under way comes to the record's line. */
  lemma SendAhead(p: Params, s: State, d: string, n: nat, rec: Record) returns (t: State)
    requires d in s.kids && s.kids[d].task.Idle? && s.kids[d].scan.Reading?
    requires s.kids[d].scan.pass.next <= n < |Kinds(s.kids[d])| && Kinds(s.kids[d])[n] == A.Carries(rec)
    requires Undecided(s.kids[d].core.ledger, rec.eventId)
    requires Safety.Inv(p, s)
    ensures Leads(p, s, t) && t.b == s.b && rec in t.records
  {
    var s1 := Reconnect(p, s, d);
    LeadsKeepsInv(p, s, s1);
    var s2 := ReachLine(p, s1, d, n);
    LeadsOn(p, s, s1, s2);
    LeadsKeepsInv(p, s, s2);
    t := SendCurrent(p, s2, d, rec);
    LeadsOn(p, s, s2, t);
  }

  /** A pass over the file is begun: `stat`, then the text is read. */
  lemma SendFromFile(p: Params, s: State, d: string, name: string, i: nat, rec: Record) returns (t: State)
    requires d in s.kids && s.kids[d].task.Idle? && s.kids[d].scan.NoScan?
    requires Outbox.OnLine(s.kids[d], name, i, rec) && Undecided(s.kids[d].core.ledger, rec.eventId)
    requires Safety.Inv(p, s)
    ensures Leads(p, s, t) && t.b == s.b && rec in t.records
  {
    LeadsByStep(p, s, Open(d, name));
    var s1 := Do(p, s, Open(d, name));
    LeadsByStep(p, s1, Read(d));
    var s2 := Do(p, s1, Read(d));
    LeadsOn(p, s, s1, s2);
    LeadsKeepsInv(p, s, s2);
    t := SendAhead(p, s2, d, i, rec);
    LeadsOn(p, s, s2, t);
  }

  // -------------------------------------------------------------------
  // The bridge answers

  /** The child is connected to both answer topics, its row for `rec` is open and the
      record has been published. */
  predicate Ready(t: State, c: string, rec: Record) {
    Pends(t, c, rec) && t.kids[c].core.session.nackEnabled && rec in t.records
  }

  predicate IsDecided(t: State, c: string, id: Id) {
    c in t.kids && id in t.kids[c].core.ledger && D.Decided(t.kids[c].core.ledger[id])
  }

  lemma IdNotEmpty(rec: Record)
    requires Valid(rec)
    ensures rec.eventId != ""
  {
    assert rec.eventId[|rec.device|] == '|';
  }

  /** An ACK of the pending row decides it. */
  lemma AckDecides(t: Table, device: string, core: D.Core, rec: Record)
    requires Safety.LedgerOk(t, device, core.ledger)
    requires rec.eventId in core.ledger && core.ledger[rec.eventId].status == D.Pending
    requires core.ledger[rec.eventId].payload == rec
    ensures var after := D.After(core, D.OnMessage(D.AckTopic, false, AckBody(B.Ack(rec.eventId, Some(rec.mkDate)))));
            rec.eventId in after.ledger && D.Decided(after.ledger[rec.eventId])
  {
    assert Safety.LedgerRowOk(t, device, rec.eventId, core.ledger[rec.eventId]);
    IdNotEmpty(rec);
  }

  lemma AckArrives(p: Params, s: State, c: string, rec: Record) returns (t: State)
    requires Ready(s, c, rec)
    requires s.b.acks != [] && s.b.acks[|s.b.acks| - 1] == B.Ack(rec.eventId, Some(rec.mkDate))
    requires Safety.KidsOk(s.b.table, s.kids)
    ensures Leads(p, s, t) && IsDecided(t, c, rec.eventId)
  {
    assert Safety.KidOk(s.b.table, s.kids[c]);
    AckDecides(s.b.table, s.kids[c].device, s.kids[c].core, rec);
    var step := Call(c, D.OnMessage(D.AckTopic, false, AckBody(s.b.acks[|s.b.acks| - 1])));
    LeadsByStep(p, s, step);
    t := Do(p, s, step);
  }

  lemma NackDecides(t: Table, device: string, core: D.Core, rec: Record, n: B.Nack)
    requires Safety.LedgerOk(t, device, core.ledger) && core.session.nackEnabled && n.eventId == rec.eventId
    requires rec.eventId in core.ledger && core.ledger[rec.eventId].status == D.Pending
    requires core.ledger[rec.eventId].payload == rec
    ensures var after := D.After(core, D.OnMessage(D.NackTopic, false, NackBody(n)));
            rec.eventId in after.ledger && D.Decided(after.ledger[rec.eventId])
  {
    assert Safety.LedgerRowOk(t, device, rec.eventId, core.ledger[rec.eventId]);
    IdNotEmpty(rec);
  }

  lemma NackArrives(p: Params, s: State, c: string, rec: Record) returns (t: State)
    requires Ready(s, c, rec)
    requires s.b.nacks != [] && s.b.nacks[|s.b.nacks| - 1].eventId == rec.eventId
    requires Safety.KidsOk(s.b.table, s.kids)
    ensures Leads(p, s, t) && IsDecided(t, c, rec.eventId)
  {
    var n := s.b.nacks[|s.b.nacks| - 1];
    assert Safety.KidOk(s.b.table, s.kids[c]);
    NackDecides(s.b.table, s.kids[c].device, s.kids[c].core, rec, n);
    var step := Call(c, D.OnMessage(D.NackTopic, false, NackBody(n)));
    LeadsByStep(p, s, step);
    t := Do(p, s, step);
  }

  /** The bridge takes the resent record in. */
  lemma TakeIn(p: Params, s: State, rec: Record) returns (t: State)
    requires s.recv.Free? && rec in s.records
    ensures Leads(p, s, t) && t.b == B.Handled(s.b, rec, 0)
    ensures t.kids == s.kids && t.records == s.records && t.main == s.main && t.recv.Free?
  {
    LeadsByStep(p, s, Receive(rec));
    var s1 := Do(p, s, Receive(rec));
    LeadsByStep(p, s1, Answer(0));
    t := Do(p, s1, Answer(0));
    LeadsOn(p, s, s1, t);
  }

  lemma TakenIn(b: B.Bridge, rec: Record)
    requires rec.eventId in b.rows ==> b.rows[rec.eventId].status == I.Received
    ensures var b' := B.Handled(b, rec, 0);
            rec.eventId in b'.rows && b'.rows[rec.eventId].status == I.Received && b'.table == b.table
  {}

  /** A decided row is answered again. */
  /** What the bridge publishes when a record comes again. */
  lemma HandledAgain(records: set<Record>, b: B.Bridge, rec: Record)
    requires Valid(rec) && Safety.RecordsOk(records) && Safety.InboxOk(records, b.table, b.rows)
    requires rec.eventId in b.rows
    ensures var b' := B.Handled(b, rec, 0);
            && (b.rows[rec.eventId].status == I.Sent ==>
                  b'.acks != [] && b'.acks[|b'.acks| - 1] == B.Ack(rec.eventId, Some(rec.mkDate)))
            && (b.rows[rec.eventId].status == I.Failed ==>
                  b'.nacks != [] && b'.nacks[|b'.nacks| - 1].eventId == rec.eventId)
  {
    assert Safety.RowOk(records, b.table, b.rows[rec.eventId]);
    EventIdInjective(rec, b.rows[rec.eventId].rec);
  }

  lemma AnswerAgain(p: Params, s: State, c: string, rec: Record) returns (t: State)
    requires Ready(s, c, rec) && s.recv.Free?
    requires rec.eventId in s.b.rows && s.b.rows[rec.eventId].status != I.Received
    requires Safety.Inv(p, s)
    ensures Leads(p, s, t) && IsDecided(t, c, rec.eventId)
  {
    HandledAgain(s.records, s.b, rec);
    var s1 := TakeIn(p, s, rec);
    LeadsKeepsInv(p, s, s1);
    if s.b.rows[rec.eventId].status == I.Sent {
      t := AckArrives(p, s1, c, rec);
    } else {
      t := NackArrives(p, s1, c, rec);
    }
    LeadsOn(p, s, s1, t);
  }

  /** A MERGE of this record would lead to an answer. */
  predicate Answerable(cfg: B.Config, t: Table, rec: Record) {
    if Conflicts(t, rec) then ORA_UNIQUE in cfg.unretryable else !cfg.literalTest
  }

  lemma AnswerableStays(p: Params, s: State, t: State, rec: Record)
    requires Aside(p, s, t) && Answerable(p.cfg, s.b.table, rec)
    ensures Answerable(p.cfg, t.b.table, rec)
  {}

  /** The three steps of one row are one call of `_send_one`. */
  lemma MarkAndReply(p: Params, s: State) returns (t: State)
    requires s.main.Marking? && s.main.batch != []
    ensures Leads(p, s, t) && t.kids == s.kids && t.records == s.records && t.recv == s.recv
    ensures var m := s.main;
            && t.b == B.Replied(B.Marked(s.b, m.batch[0], m.result, m.now, p.cfg), m.batch[0], m.result, m.now, p.cfg)
            && t.main == AfterHead(m.batch, m.now)
  {
    LeadsByStep(p, s, Mark);
    var s1 := Do(p, s, Mark);
    LeadsByStep(p, s1, Reply);
    t := Do(p, s1, Reply);
    LeadsOn(p, s, s1, t);
  }

  lemma SendOneIsRun(p: Params, s: State, fault: Fault) returns (t: State)
    requires s.main.Merging? && s.main.batch != [] && FaultOk(fault, p.cfg.unretryable)
    ensures Runs(p, s, t) && (fault.Clean? ==> Leads(p, s, t))
    ensures t.kids == s.kids && t.records == s.records && t.recv == s.recv
    ensures t.b == B.SentOne(s.b, s.main.batch[0], fault, s.main.now, p.cfg)
    ensures t.main == AfterHead(s.main.batch, s.main.now)
  {
    RunsByStep(p, s, Merge(fault));
    var s1 := Do(p, s, Merge(fault));
    t := MarkAndReply(p, s1);
    LeadsRuns(p, s1, t);
    RunsOn(p, s, s1, t);
    if fault.Clean? {
      LeadsByStep(p, s, Merge(fault));
      LeadsOn(p, s, s1, t);
    }
  }

  /** A clean MERGE is answered. */
  lemma SentOneAnswers(b: B.Bridge, row: I.InboxRow, now: int, cfg: B.Config)
    requires Answerable(cfg, b.table, row.rec)
    ensures var b' := B.SentOne(b, row, Clean, now, cfg);
            if Conflicts(b.table, row.rec) then
              b'.nacks != [] && b'.nacks[|b'.nacks| - 1].eventId == row.rec.eventId
            else
              b'.acks != [] && b'.acks[|b'.acks| - 1] == B.Ack(row.rec.eventId, Some(row.rec.mkDate))
  {}

  lemma MergeHead(p: Params, s: State, c: string, rec: Record) returns (t: State)
    requires Ready(s, c, rec) && Answerable(p.cfg, s.b.table, rec)
    requires s.main.Merging? && s.main.batch != [] && s.main.batch[0].rec == rec
    requires Safety.Inv(p, s)
    ensures Leads(p, s, t) && IsDecided(t, c, rec.eventId)
  {
    var s3 := SendOneIsRun(p, s, Clean);
    SentOneAnswers(s.b, s.main.batch[0], s.main.now, p.cfg);
    LeadsKeepsInv(p, s, s3);
    if Conflicts(s.b.table, rec) {
      t := NackArrives(p, s3, c, rec);
    } else {
      t := AckArrives(p, s3, c, rec);
    }
    LeadsOn(p, s, s3, t);
  }

  /** Late enough, the breaker lets the scan through and the row is due. */
  function LateEnough(b: Breaker.Entry, row: I.InboxRow, halfOpenAfter: int): int {
    var a := if row.nextRetryAt.Some? then row.nextRetryAt.value else 0;
    var o := if b.openedAt.Some? then b.openedAt.value + halfOpenAfter else 0;
    if a < o then o else a
  }

  lemma ScanFinds(rows: I.Rows, clock: int, id: Id) returns (batch: seq<I.InboxRow>, i: nat)
    requires id in rows && I.IsDue(rows[id], clock)
    ensures B.IsScan(rows, clock, batch) && i < |batch| && batch[i] == rows[id]
  {
    var places := I.DuePlaces(rows, clock);
    var ids := Eviction.SortExists(places);
    forall j | 0 <= j < |ids| ensures ids[j] in rows {
      assert ids[j] in places;
    }
    batch := seq(|ids|, j requires 0 <= j < |ids| && ids[j] in rows => rows[ids[j]]);
    assert id in places;
    i :| 0 <= i < |ids| && ids[i] == id;
  }

  /** A late scan brings the row to the head of the batch. */
  lemma ScanReaches(p: Params, s: State, id: Id) returns (t: State)
    requires s.main.Resting? && id in s.b.rows && s.b.rows[id].status == I.Received && Breaker.Dated(s.b.breaker)
    ensures Leads(p, s, t) && Aside(p, s, t)
    ensures t.main.Merging? && t.main.batch != [] && t.main.batch[0] == s.b.rows[id]
  {
    var clock := LateEnough(s.b.breaker, s.b.rows[id], p.cfg.halfOpenAfter);
    var batch, i := ScanFinds(s.b.rows, clock, id);
    LeadsByStep(p, s, RunOnce(clock, batch));
    var s1 := Do(p, s, RunOnce(clock, batch));
    assert s1.main == Merging(batch, clock);
    t := FinishRows(p, s1, i);
    LeadsOn(p, s, s1, t);
  }

  lemma SendReceived(p: Params, s: State, c: string, rec: Record) returns (t: State)
    requires Ready(s, c, rec) && Answerable(p.cfg, s.b.table, rec)
    requires s.main.Resting? && rec.eventId in s.b.rows && s.b.rows[rec.eventId].status == I.Received
    requires Safety.Inv(p, s)
    ensures Leads(p, s, t) && IsDecided(t, c, rec.eventId)
  {
    assert Safety.RowOk(s.records, s.b.table, s.b.rows[rec.eventId]);
    EventIdInjective(rec, s.b.rows[rec.eventId].rec);
    var s2 := ScanReaches(p, s, rec.eventId);
    LeadsKeepsInv(p, s, s2);
    AnswerableStays(p, s, s2, rec);
    t := MergeHead(p, s2, c, rec);
    LeadsOn(p, s, s2, t);
  }

  /** Whatever the inbox holds: nothing, an undecided row, a sent row whose ACK was
      lost, or a failed row whose NACK was lost. */
  lemma Answers(p: Params, s: State, c: string, rec: Record) returns (t: State)
    requires Ready(s, c, rec) && Answerable(p.cfg, s.b.table, rec)
    requires s.main.Resting? && s.recv.Free?
    requires Safety.Inv(p, s)
    ensures Leads(p, s, t) && IsDecided(t, c, rec.eventId)
  {
    if rec.eventId in s.b.rows && s.b.rows[rec.eventId].status != I.Received {
      t := AnswerAgain(p, s, c, rec);
    } else {
      var s1 := TakeIn(p, s, rec);
      TakenIn(s.b, rec);
      LeadsKeepsInv(p, s, s1);
      t := SendReceived(p, s1, c, rec);
      LeadsOn(p, s, s1, t);
    }
  }

  /** A published record is answered, and the child hears of it. */
  lemma DecidePublished(p: Params, s: State, c: string, rec: Record) returns (t: State)
    requires Pends(s, c, rec) && rec in s.records && Answerable(p.cfg, s.b.table, rec)
    requires Safety.Inv(p, s)
    ensures Leads(p, s, t) && IsDecided(t, c, rec.eventId)
  {
    var s1 := RestMain(p, s);
    LeadsKeepsInv(p, s, s1);
    AnswerableStays(p, s, s1, rec);
    var s2 := RestRecv(p, s1);
    LeadsOn(p, s, s1, s2);
    LeadsKeepsInv(p, s, s2);
    AnswerableStays(p, s1, s2, rec);
    var s3 := Reconnect(p, s2, c);
    LeadsOn(p, s, s2, s3);
    LeadsKeepsInv(p, s, s3);
    t := Answers(p, s3, c, rec);
    LeadsOn(p, s, s3, t);
  }

  /** The row is as it was, or decided meanwhile. */
  lemma StillPends(p: Params, s: State, t: State, c: string, rec: Record)
    requires Pends(s, c, rec)
    requires Runs(p, s, t)
    ensures Pends(t, c, rec) || IsDecided(t, c, rec.eventId)
  {
    var steps :| IsRun(p, s, steps, t);
    Sessions.RowsStay(p, s, steps, t, c, rec.eventId);
  }

  lemma DecideLater(p: Params, s: State, s1: State, c: string, rec: Record) returns (t: State)
    requires Pends(s, c, rec) && Answerable(p.cfg, s.b.table, rec)
    requires s1.b == s.b && rec in s1.records
    requires Safety.Inv(p, s) && Leads(p, s, s1)
    ensures Leads(p, s, t) && IsDecided(t, c, rec.eventId)
  {
    LeadsRuns(p, s, s1);
    StillPends(p, s, s1, c, rec);
    LeadsKeepsInv(p, s, s1);
    t := s1;
    LeadsNowhere(p, s1);
    if Pends(s1, c, rec) {
      t := DecidePublished(p, s1, c, rec);
    }
    LeadsOn(p, s, s1, t);
  }

  // -------------------------------------------------------------------
  // The theorems

  /** Some run without crashes, restarts, file edits, evictions or other writers
      decides the row. */
  ghost predicate DecidesInOrder(p: Params, s: State, c: string, id: Id) {
    exists steps, t :: OrdinaryRun(p, s, steps, t) && IsDecided(t, c, id)
  }

  lemma PendingRow(p: Params, s: State, c: string, id: Id)
    requires c in s.kids && id in s.kids[c].core.ledger
    requires s.kids[c].core.ledger[id].status == D.Pending
    requires Reachable(p, s)
    ensures var rec := s.kids[c].core.ledger[id].payload;
            rec.eventId == id && Pends(s, c, rec) && Valid(rec) && rec.device == s.kids[c].device
  {
    Safety.ReachableInv(p, s);
    assert Safety.KidOk(s.b.table, s.kids[c]);
    assert Safety.LedgerRowOk(s.b.table, s.kids[c].device, id, s.kids[c].core.ledger[id]);
  }

  /** From every reachable state, a pending row whose line is in a waiting file can be
      decided: the file's next pass goes over the earlier lines and sends it, the
      bridge takes it in, a due scan MERGEs it, and the answer arrives. */
  lemma LineIsDecided(p: Params, s: State, c: string, id: Id, name: string, i: nat)
    requires c in s.kids && id in s.kids[c].core.ledger
    requires s.kids[c].core.ledger[id].status == D.Pending
    requires Answerable(p.cfg, s.b.table, s.kids[c].core.ledger[id].payload)
    requires Waits(s.kids[c], name, i, s.kids[c].core.ledger[id].payload)
    requires Reachable(p, s)
    ensures DecidesInOrder(p, s, c, id)
  {
    var rec := s.kids[c].core.ledger[id].payload;
    PendingRow(p, s, c, id);
    Safety.ReachableInv(p, s);
    Archives.ReachableOk(p, s, c);
    var s1 := RestChild(p, s, c, name, i, rec);
    LeadsKeepsInv(p, s, s1);
    var s2 := SendFromFile(p, s1, c, name, i, rec);
    LeadsOn(p, s, s1, s2);
    var t := DecideLater(p, s, s2, c, rec);
    var steps :| OrdinaryRun(p, s, steps, t);
  }

  /** No dead end: as long as files are only appended to, every pending row can be
      decided from every reachable state, if a MERGE of it would be answered. Its
      line is then still in a file, whatever became of earlier attempts. */
  lemma NoDeadEnd(p: Params, s: State, c: string, id: Id)
    requires c in s.kids && id in s.kids[c].core.ledger
    requires s.kids[c].core.ledger[id].status == D.Pending
    requires Answerable(p.cfg, s.b.table, s.kids[c].core.ledger[id].payload)
    requires Outbox.ReachableByAppends(p, s)
    ensures DecidesInOrder(p, s, c, id)
  {
    Outbox.PendingHasLine(p, s, c, id);
    Outbox.AppendsReach(p, s);
    var rec := s.kids[c].core.ledger[id].payload;
    var k := s.kids[c];
    var name, i: nat :| Outbox.OnLine(k, name, i, rec)
                        && (k.scan.Complete? || k.scan.Listed? ==> k.scan.pass.name != name);
    LineIsDecided(p, s, c, id, name, i);
  }

  // -------------------------------------------------------------------
  // When there is no way out

  /** Nothing was ever given up on. */
  ghost predicate NoGiveUps(p: Params, s: State) {
    && s.b.nacks == []
    && (forall id | id in s.b.rows :: s.b.rows[id].status != I.Failed)
    && (s.main.Marking? || s.main.Replying? ==> !GivesUp(s.main.result, p.cfg.unretryable))
    && (s.recv.Got? && s.recv.existing.Some? ==> s.recv.existing.value.status != I.Failed)
    && (forall c, id | c in s.kids && id in s.kids[c].core.ledger :: s.kids[c].core.ledger[id].status != D.Nacked)
  }

  /** Nothing was ever found to have succeeded. */
  ghost predicate NoSuccesses(p: Params, s: State) {
    && s.b.acks == []
    && (forall id | id in s.b.rows :: s.b.rows[id].status != I.Sent)
    && (s.main.Marking? || s.main.Replying? ==> !IsSuccess(s.main.result, p.cfg.literalTest))
    && (s.recv.Got? && s.recv.existing.Some? ==> s.recv.existing.value.status != I.Sent)
    && (forall c, id | c in s.kids && id in s.kids[c].core.ledger :: s.kids[c].core.ledger[id].status != D.Acked)
  }

  lemma CallDecides(b: B.Bridge, c: D.Core, cb: D.Callback, id: Id)
    requires Genuine(b, cb) && id in c.ledger
    ensures id in D.After(c, cb).ledger
    ensures var status := D.After(c, cb).ledger[id].status;
            || status == c.ledger[id].status
            || (status == D.Acked && b.acks != []) || (status == D.Nacked && b.nacks != [])
  {}

  /** A child's step decides a row only by delivering an answer. */
  lemma KidStepDecides(p: Params, s: State, step: Step, id: Id)
    requires Enabled(p, s, step) && IsKidStep(step)
    requires id in Do(p, s, step).kids[step.kid].core.ledger
    ensures var k := s.kids[step.kid];
            var status := Do(p, s, step).kids[step.kid].core.ledger[id].status;
            || status == D.Pending || (id in k.core.ledger && status == k.core.ledger[id].status)
            || (status == D.Acked && s.b.acks != []) || (status == D.Nacked && s.b.nacks != [])
  {
    var k := s.kids[step.kid];
    if step.Call? {
      if id in k.core.ledger {
        CallDecides(s.b, k.core, step.cb, id);
      }
    } else if step.Start? {
      Sessions.StartLedger(k, step.rec, step.now, p.resendAfter);
    } else {
      Sessions.LedgerUnwritten(p, s, k, step);
    }
  }

  lemma KidStepKeepsNoGiveUps(p: Params, s: State, step: Step)
    requires NoGiveUps(p, s) && Enabled(p, s, step) && IsKidStep(step)
    ensures NoGiveUps(p, Do(p, s, step))
  {
    var s' := Do(p, s, step);
    forall c, id | c in s'.kids && id in s'.kids[c].core.ledger
      ensures s'.kids[c].core.ledger[id].status != D.Nacked
    {
      if c == step.kid {
        KidStepDecides(p, s, step, id);
      }
    }
  }

  lemma StepKeepsNoGiveUps(p: Params, s: State, step: Step)
    requires ORA_UNIQUE !in p.cfg.unretryable && NoGiveUps(p, s) && Enabled(p, s, step)
    ensures NoGiveUps(p, Do(p, s, step))
  {
    if IsKidStep(step) {
      KidStepKeepsNoGiveUps(p, s, step);
    }
  }

  lemma KidStepKeepsNoSuccesses(p: Params, s: State, step: Step)
    requires NoSuccesses(p, s) && Enabled(p, s, step) && IsKidStep(step)
    ensures NoSuccesses(p, Do(p, s, step))
  {
    var s' := Do(p, s, step);
    forall c, id | c in s'.kids && id in s'.kids[c].core.ledger
      ensures s'.kids[c].core.ledger[id].status != D.Acked
    {
      if c == step.kid {
        KidStepDecides(p, s, step, id);
      }
    }
  }

  lemma StepKeepsNoSuccesses(p: Params, s: State, step: Step)
    requires p.cfg.literalTest && NoSuccesses(p, s) && Enabled(p, s, step)
    ensures NoSuccesses(p, Do(p, s, step))
  {
    if IsKidStep(step) {
      KidStepKeepsNoSuccesses(p, s, step);
    }
  }

  lemma {:induction false} RunKeepsBoth(p: Params, s: State, steps: seq<Step>, t: State)
    requires IsRun(p, s, steps, t)
    ensures ORA_UNIQUE !in p.cfg.unretryable && NoGiveUps(p, s) ==> NoGiveUps(p, t)
    ensures p.cfg.literalTest && NoSuccesses(p, s) ==> NoSuccesses(p, t)
    decreases |steps|
  {
    if steps != [] {
      if ORA_UNIQUE !in p.cfg.unretryable && NoGiveUps(p, s) {
        StepKeepsNoGiveUps(p, s, steps[0]);
      }
      if p.cfg.literalTest && NoSuccesses(p, s) {
        StepKeepsNoSuccesses(p, s, steps[0]);
      }
      RunKeepsBoth(p, Do(p, s, steps[0]), steps[1..], t);
    }
  }

  lemma ReachableBoth(p: Params, t: State)
    requires Reachable(p, t)
    ensures ORA_UNIQUE !in p.cfg.unretryable ==> NoGiveUps(p, t)
    ensures p.cfg.literalTest ==> NoSuccesses(p, t)
  {
    var s, steps :| Init(s) && IsRun(p, s, steps, t);
    forall c | c in s.kids ensures KidInit(s.kids[c]) {}
    RunKeepsBoth(p, s, steps, t);
  }

  /** With the success test as written, no run ever marks a row sent or publishes
      an ACK, because the adapters always return a message. */
  lemma LiteralTestNeverAcks(p: Params, t: State)
    requires p.cfg.literalTest
    requires Reachable(p, t)
    ensures t.b.acks == [] && forall id | id in t.b.rows :: t.b.rows[id].status != I.Sent
  {
    ReachableBoth(p, t);
  }

  /** No run whatsoever can decide the row. */
  predicate Doomed(cfg: B.Config, t: Table, rec: Record) {
    || (Conflicts(t, rec) && ORA_UNIQUE !in cfg.unretryable)
    || (cfg.literalTest && (Holds(t, rec) || ORA_UNIQUE !in cfg.unretryable))
  }

  /** A dead end: the key is held by another row and ORA-00001 is not among the
      codes given up on, or the test as written hides every success. */
  lemma DeadEnd(p: Params, s: State, c: string, id: Id, steps: seq<Step>, t: State)
    requires c in s.kids && id in s.kids[c].core.ledger
    requires s.kids[c].core.ledger[id].status == D.Pending
    requires Doomed(p.cfg, s.b.table, s.kids[c].core.ledger[id].payload)
    requires Reachable(p, s) && IsRun(p, s, steps, t)
    ensures !IsDecided(t, c, id)
  {
    var rec := s.kids[c].core.ledger[id].payload;
    Safety.ReachableInv(p, s);
    Safety.RunKeeps(p, s, steps, t);
    assert Runs(p, s, t);
    ReachableOn(p, s, t);
    ReachableBoth(p, t);
    GrownKeeps(s.b.table, t.b.table, rec);
    Sessions.RowsStay(p, s, steps, t, c, id);
    Safety.NoFalseAck(p, t, c, id);
  }

}
