/** Record delivery as one transition system: any number of children, a network
    that may lose, repeat and reorder messages, the bridge with its two threads
    and Oracle. Crashes can fall between any two durable writes. */
module Protocol {
  import opened Text
  import opened Records
  import opened Oracle
  import Breaker
  import D = Delivery
  import A = Archiving
  import I = RecordInbox
  import B = RecordSending

  datatype Params = Params(cfg: B.Config, resendAfter: real)

  // -------------------------------------------------------------------
  // A child

  /** `stamp` stands for (st_size, st_mtime_ns): every edit gives a new one. */
  datatype File = File(text: string, stamp: nat)

  /** The thread that calls `send`: between calls, about to publish, or waiting.
      `seen` is how many session notes there were at the check. */
  datatype Task = Idle | Saved(rec: Record, now: real, seen: nat) | Waiting(rec: Record)

  /** A pass over a file that has been read. */
  datatype Pass = Pass(name: string, stamp: nat, text: string, next: nat, tally: A.Tally)

  /** Where the file pass stands. */
  datatype Scan =
    | NoScan
    | Opened(name: string, stamp: nat)
    | Reading(pass: Pass)
    | Complete(pass: Pass)
    | Listed(pass: Pass, target: string)

  /** A file that was moved: what the pass had read and what was moved. */
  datatype Move = Move(target: string, toSent: bool, read: string, moved: string)

  /** The session's history. */
  datatype Note = Called(cb: D.Callback) | Restarted

  /** A publish: `seen` notes when `send` checked, `at` notes when it published. */
  datatype Attempt = Attempt(id: Id, now: real, seen: nat, at: nat)

  datatype Kid = Kid(
    device: string, core: D.Core, task: Task, scan: Scan,
    outbox: map<string, File>, clock: nat, sent: map<string, string>, nacked: map<string, string>,
    sidecars: map<string, seq<A.SidecarRow>>,
    notes: seq<Note>, attempts: seq<Attempt>, moves: seq<Move>)

  // -------------------------------------------------------------------
  // The hub

  /** The main loop inside `run_once`; the head of `batch` is being sent. */
  datatype Main =
    | Resting
    | Merging(batch: seq<I.InboxRow>, now: int)
    | Marking(batch: seq<I.InboxRow>, now: int, result: MergeResult)
    | Replying(batch: seq<I.InboxRow>, now: int, result: MergeResult)

  /** The MQTT thread inside `receive`, after it has read the row. */
  datatype Recv = Free | Got(rec: Record, existing: Option<I.InboxRow>)

  datatype State = State(
    kids: map<string, Kid>,
    records: set<Record>,      // every record ever published
    b: B.Bridge,               // inbox, Oracle table, every ACK and NACK ever published, breaker
    main: Main,
    recv: Recv,
    inserts: seq<Record>,      // the records whose MERGE inserted a row, in order
    foreign: set<Pk>,          // keys of rows that other programs wrote
    accepted: set<Record>,     // records that entered the inbox
    lost: set<Record>)         // records evicted from the inbox undecided

  // -------------------------------------------------------------------
  // Steps

  datatype Step =
    | Call(kid: string, cb: D.Callback)
    | Start(kid: string, rec: Record, now: real)
    | Publish(kid: string)
    | Settle(kid: string, refused: bool)
    | Restart(kid: string)
    | Open(kid: string, name: string)
    | Read(kid: string)
    | Skip(kid: string)
    | Finish(kid: string, timeUp: bool)
    | MoveToSent(kid: string, target: string)
    | WriteSidecar(kid: string, target: string)
    | MoveToNacked(kid: string)
    | Edit(kid: string, name: string, text: string)
    | Receive(rec: Record)
    | Answer(at: int)
    | RunOnce(clock: int, batch: seq<I.InboxRow>)
    | Merge(fault: Fault)
    | Mark
    | Reply
    | Crash
    | DeleteSent(keep: int, gone: set<Id>)
    | RingEvict(maxRows: int, gone: set<Id>)
    | Foreign(pk: Pk, t1: int)
    | EventSender(run: Breaker.Run)

  function AckBody(a: B.Ack): D.Body { D.Fields(Some(a.eventId), a.mkDate, None, None) }

  function NackBody(n: B.Nack): D.Body { D.Fields(Some(n.eventId), None, Some(n.reason), n.failedAt) }

  /** Only what the bridge has published arrives on the two topics, apart from
      retained and malformed messages. */
  predicate Genuine(b: B.Bridge, cb: D.Callback) {
    cb.OnMessage? && !cb.retain && !cb.body.Malformed? ==>
      && (cb.topic == D.AckTopic ==> exists i | 0 <= i < |b.acks| :: cb.body == AckBody(b.acks[i]))
      && (cb.topic == D.NackTopic ==> exists i | 0 <= i < |b.nacks| :: cb.body == NackBody(b.nacks[i]))
  }

  /** The lines of the text a pass has read. */
  function Kinds(k: Kid): seq<A.Kind>
    requires k.scan.Reading? || k.scan.Complete? || k.scan.Listed?
  {
    A.KindsIn(k.scan.pass.text, k.device)
  }

  predicate AtLine(k: Kid) { k.scan.Reading? && k.scan.pass.next < |Kinds(k)| }

  predicate IsCurrent(k: Kid, rec: Record) {
    AtLine(k) && Kinds(k)[k.scan.pass.next] == A.Carries(rec)
  }

  ghost predicate KidEnabled(s: State, k: Kid, step: Step) {
    match step
    case Call(_, cb) => Genuine(s.b, cb)
    case Start(_, rec, _) => k.task.Idle? && IsCurrent(k, rec)
    case Publish(_) => k.task.Saved?
    case Settle(_, _) => k.task.Waiting?
    case Restart(_) => true
    case Open(_, name) => k.task.Idle? && k.scan.NoScan? && name in k.outbox
    case Read(_) => k.scan.Opened? && k.scan.name in k.outbox
    case Skip(_) => k.task.Idle? && AtLine(k) && !Kinds(k)[k.scan.pass.next].Carries?
    case Finish(_, timeUp) => k.task.Idle? && k.scan.Reading? && (timeUp <==> AtLine(k))
    case MoveToSent(_, target) =>
      && k.scan.Complete? && k.scan.pass.tally.nacked == 0 && k.scan.pass.name in k.outbox
      && A.IsTarget(k.scan.pass.name, k.sent.Keys, target)
    case WriteSidecar(_, target) =>
      && k.scan.Complete? && k.scan.pass.tally.nacked > 0
      && A.IsTarget(k.scan.pass.name, k.nacked.Keys, target)
    case MoveToNacked(_) => k.scan.Listed? && k.scan.pass.name in k.outbox
    case Edit(_, _, _) => true
    case _ => false
  }

  predicate IsKidStep(step: Step) {
    || step.Call? || step.Start? || step.Publish? || step.Settle? || step.Restart? || step.Open? || step.Read?
    || step.Skip? || step.Finish? || step.MoveToSent? || step.WriteSidecar? || step.MoveToNacked? || step.Edit?
  }

  ghost predicate Enabled(p: Params, s: State, step: Step) {
    if IsKidStep(step) then step.kid in s.kids && KidEnabled(s, s.kids[step.kid], step)
    else match step
      case Receive(rec) => s.recv.Free? && rec in s.records
      case Answer(_) => s.recv.Got?
      case RunOnce(clock, batch) => s.main.Resting? && B.IsScan(s.b.rows, clock, batch)
      case Merge(fault) => s.main.Merging? && s.main.batch != [] && FaultOk(fault, p.cfg.unretryable)
      case Mark => s.main.Marking? && s.main.batch != []
      case Reply => s.main.Replying? && s.main.batch != []
      case Crash => true
      case DeleteSent(keep, gone) => s.main.Resting? && I.SentVictims(s.b.rows, gone, keep)
      case RingEvict(maxRows, gone) => s.main.Resting? && I.RingVictims(s.b.rows, gone, maxRows)
      case Foreign(pk, _) => pk !in s.b.table
      case EventSender(_) => s.main.Resting?
      case _ => false
  }

  // -------------------------------------------------------------------
  // What a child's step does to the child

  /** The pass counts the outcome of its current line. */
  function Noted(scan: Scan, id: Id, outcome: D.Outcome): Scan {
    if scan.Reading? then
      var p := scan.pass;
      Reading(p.(next := p.next + 1, tally := A.Counted(p.tally, p.next + 1, id, outcome)))
    else scan
  }

  function Rebooted(k: Kid): Kid {
    k.(core := k.core.(session := D.OFFLINE), task := Idle, scan := NoScan, notes := k.notes + [Restarted])
  }

  function Started(k: Kid, rec: Record, now: real, resendAfter: real): Kid {
    match D.Checked(k.core, rec, now, resendAfter)
    case Return(outcome) => k.(scan := Noted(k.scan, rec.eventId, outcome))
    case Raise => Rebooted(k)
    case Publish(ledger) => k.(core := k.core.(ledger := ledger), task := Saved(rec, now, |k.notes|))
  }

  function Skipped(k: Kid): Kid
    requires AtLine(k)
  {
    var p := k.scan.pass;
    var invalid := Kinds(k)[p.next].Invalid?;
    k.(scan := Reading(p.(next := p.next + 1,
                          tally := if invalid then p.tally.(invalid := p.tally.invalid + 1) else p.tally)))
  }

  predicate IsComplete(k: Kid, p: Pass, timeUp: bool) {
    && !timeUp && A.EndsWithNewline(p.text)
    && p.name in k.outbox && k.outbox[p.name].stamp == p.stamp
    && p.tally.invalid == 0 && p.tally.pending == 0
  }

  function Moved(k: Kid, target: string, toSent: bool): Kid
    requires (k.scan.Complete? || k.scan.Listed?) && k.scan.pass.name in k.outbox
  {
    var p := k.scan.pass;
    var text := k.outbox[p.name].text;
    k.(outbox := map n | n in k.outbox && n != p.name :: k.outbox[n],
       sent := if toSent then k.sent[target := text] else k.sent,
       nacked := if toSent then k.nacked else k.nacked[target := text],
       moves := k.moves + [Move(target, toSent, p.text, text)],
       scan := NoScan)
  }

  function AttemptOf(k: Kid): Attempt
    requires k.task.Saved?
  {
    Attempt(k.task.rec.eventId, k.task.now, k.task.seen, |k.notes|)
  }

  ghost function KidDo(p: Params, s: State, k: Kid, step: Step): Kid
    requires IsKidStep(step) && KidEnabled(s, k, step)
  {
    match step
    case Call(_, cb) => k.(core := D.After(k.core, cb), notes := k.notes + [Called(cb)])
    case Start(_, rec, now) => Started(k, rec, now, p.resendAfter)
    case Publish(_) =>
      k.(task := Waiting(k.task.rec), attempts := k.attempts + [AttemptOf(k)])
    case Settle(_, refused) =>
      var id := k.task.rec.eventId;
      k.(task := Idle, scan := Noted(k.scan, id, if refused then D.PendingOutcome else D.OutcomeOf(k.core.ledger, id)))
    case Restart(_) => Rebooted(k)
    case Open(_, name) => k.(scan := Opened(name, k.outbox[name].stamp))
    case Read(_) => k.(scan := Reading(Pass(k.scan.name, k.scan.stamp, k.outbox[k.scan.name].text, 0, A.EMPTY)))
    case Skip(_) => Skipped(k)
    case Finish(_, timeUp) => k.(scan := if IsComplete(k, k.scan.pass, timeUp) then Complete(k.scan.pass) else NoScan)
    case MoveToSent(_, target) => Moved(k, target, true)
    case WriteSidecar(_, target) =>
      k.(sidecars := k.sidecars[target := A.SidecarOf(k.core.ledger, k.scan.pass.tally.nackedRows)],
         scan := Listed(k.scan.pass, target))
    case MoveToNacked(_) => Moved(k, k.scan.target, false)
    case Edit(_, name, text) => k.(outbox := k.outbox[name := File(text, k.clock)], clock := k.clock + 1)
  }

  // -------------------------------------------------------------------
  // What a hub step does

  function AfterHead(batch: seq<I.InboxRow>, now: int): Main
    requires batch != []
  {
    if |batch| == 1 then Resting else Merging(batch[1..], now)
  }

  ghost function Do(p: Params, s: State, step: Step): State
    requires Enabled(p, s, step)
  {
    if IsKidStep(step) then
      s.(kids := s.kids[step.kid := KidDo(p, s, s.kids[step.kid], step)],
         records := s.records + if step.Publish? then {s.kids[step.kid].task.rec} else {})
    else match step
      case Receive(rec) =>
        s.(recv := Got(rec, if rec.eventId in s.b.rows then Some(s.b.rows[rec.eventId]) else None))
      case Answer(at) =>
        s.(b := B.Answered(s.b, s.recv.rec, s.recv.existing, at), recv := Free,
           accepted := s.accepted + if s.recv.existing.None? then {s.recv.rec} else {})
      case RunOnce(clock, batch) =>
        var b := s.b.(breaker := Breaker.Looked(s.b.breaker, Some(clock), p.cfg.halfOpenAfter));
        s.(b := b, main := if b.breaker.state == Breaker.Open || batch == [] then Resting else Merging(batch, clock))
      case Merge(fault) =>
        var rec := s.main.batch[0].rec;
        s.(b := B.Merged(s.b, rec, fault),
           main := Marking(s.main.batch, s.main.now, ResultOf(s.b.table, rec, fault)),
           inserts := s.inserts + if TableAfter(s.b.table, rec, fault) != s.b.table then [rec] else [])
      case Mark =>
        s.(b := B.Marked(s.b, s.main.batch[0], s.main.result, s.main.now, p.cfg),
           main := Replying(s.main.batch, s.main.now, s.main.result))
      case Reply =>
        s.(b := B.Replied(s.b, s.main.batch[0], s.main.result, s.main.now, p.cfg),
           main := AfterHead(s.main.batch, s.main.now))
      case Crash => s.(main := Resting, recv := Free, b := s.b.(breaker := Breaker.FRESH))
      case DeleteSent(_, gone) => s.(b := s.b.(rows := I.Eviction.Without(s.b.rows, gone)))
      case RingEvict(_, gone) =>
        s.(b := s.b.(rows := I.Eviction.Without(s.b.rows, gone)),
           lost := s.lost +
                   set id | id in gone && id in s.b.rows && s.b.rows[id].status == I.Received :: s.b.rows[id].rec)
      case Foreign(pk, t1) => s.(b := s.b.(table := s.b.table[pk := t1]), foreign := s.foreign + {pk})
      case EventSender(run) =>
        s.(b := s.b.(breaker := Breaker.AfterRun(s.b.breaker, run, p.cfg.halfOpenAfter, p.cfg.permanent)))
  }

  // -------------------------------------------------------------------
  // Runs

  /** A child that starts from an old ledger has only rows whose delivery was
      never verified. */
  ghost predicate KidInit(k: Kid) {
    && (forall id | id in k.core.ledger ::
          var row := k.core.ledger[id];
          row.status == D.Legacy && Valid(row.payload) && row.payload.eventId == id
          && row.payload.device == k.device && row.mkDate == row.payload.mkDate)
    && k.core.session == D.OFFLINE && k.task.Idle? && k.scan.NoScan?
    && (forall name | name in k.outbox :: k.outbox[name].stamp < k.clock)
    && k.notes == [] && k.attempts == [] && k.moves == []
  }

  ghost predicate Init(s: State) {
    && (forall c | c in s.kids :: KidInit(s.kids[c]))
    && s.records == {} && s.b.rows == map[] && s.b.acks == [] && s.b.nacks == []
    && s.b.breaker == Breaker.FRESH
    && s.main == Resting && s.recv == Free
    && s.inserts == [] && s.foreign == s.b.table.Keys && s.accepted == {} && s.lost == {}
  }

  ghost predicate IsRun(p: Params, s: State, steps: seq<Step>, t: State)
    decreases |steps|
  {
    if steps == [] then s == t
    else Enabled(p, s, steps[0]) && IsRun(p, Do(p, s, steps[0]), steps[1..], t)
  }

  ghost predicate Reachable(p: Params, t: State) {
    exists s, steps :: Init(s) && IsRun(p, s, steps, t)
  }

  /** Some run leads from `s` to `t`. */
  ghost predicate Runs(p: Params, s: State, t: State) {
    exists steps :: IsRun(p, s, steps, t)
  }

  lemma RunsNowhere(p: Params, s: State)
    ensures Runs(p, s, s)
  {
    assert IsRun(p, s, [], s);
  }

  lemma RunsByStep(p: Params, s: State, step: Step)
    requires Enabled(p, s, step)
    ensures Runs(p, s, Do(p, s, step))
  {
    var t := Do(p, s, step);
    assert [step][1..] == [];
    assert IsRun(p, t, [], t);
    assert IsRun(p, s, [step], t);
  }

  lemma RunsOn(p: Params, s: State, t: State, u: State)
    requires Runs(p, s, t) && Runs(p, t, u)
    ensures Runs(p, s, u)
  {
    var a :| IsRun(p, s, a, t);
    var b :| IsRun(p, t, b, u);
    RunsCompose(p, s, a, t, b, u);
  }

  lemma ReachableOn(p: Params, s: State, t: State)
    requires Reachable(p, s) && Runs(p, s, t)
    ensures Reachable(p, t)
  {
    var s0, before :| Init(s0) && IsRun(p, s0, before, s);
    var steps :| IsRun(p, s, steps, t);
    RunsCompose(p, s0, before, s, steps, t);
  }

  lemma {:induction false} RunsCompose(p: Params, s: State, a: seq<Step>, t: State, b: seq<Step>, u: State)
    requires IsRun(p, s, a, t) && IsRun(p, t, b, u)
    ensures IsRun(p, s, a + b, u)
    decreases |a|
  {
    if a == [] {
      assert a + b == b;
    } else {
      RunsCompose(p, Do(p, s, a[0]), a[1..], t, b, u);
      assert (a + b)[1..] == a[1..] + b;
    }
  }
}
