/** A child's session over any interleaving of callbacks, sends and restarts. */
module Sessions {
  import opened Text
  import opened Records
  import opened Protocol
  import D = Delivery

  // -------------------------------------------------------------------
  // Decisions are final

  /** The steps that have to do with files only. */
  predicate IsFileStep(step: Step) {
    || step.Open? || step.Read? || step.Skip? || step.Finish?
    || step.MoveToSent? || step.WriteSidecar? || step.MoveToNacked? || step.Edit?
  }

  /** Session, ledger, `send` and history of a child are as they were. */
  predicate SendingSame(k: Kid, k': Kid) {
    k'.core == k.core && k'.task == k.task && k'.notes == k.notes && k'.attempts == k.attempts
  }

  lemma FileStepFrame(p: Params, s: State, k: Kid, step: Step)
    requires IsFileStep(step) && KidEnabled(s, k, step)
    ensures SendingSame(k, KidDo(p, s, k, step))
  {
    match step
    case Open(_, _) =>
    case Read(_) =>
    case Skip(_) =>
    case Finish(_, _) =>
    case MoveToSent(_, _) =>
    case WriteSidecar(_, _) =>
    case MoveToNacked(_) =>
    case Edit(_, _, _) =>
  }

  /** Only callbacks and the check in `send` write the ledger. */
  lemma LedgerUnwritten(p: Params, s: State, k: Kid, step: Step)
    requires IsKidStep(step) && KidEnabled(s, k, step) && !step.Call? && !step.Start?
    ensures KidDo(p, s, k, step).core.ledger == k.core.ledger
  {
    if IsFileStep(step) {
      FileStepFrame(p, s, k, step);
    }
  }

  lemma StartLedger(k: Kid, rec: Record, now: real, resendAfter: real)
    ensures var check := D.Checked(k.core, rec, now, resendAfter);
            Started(k, rec, now, resendAfter).core.ledger ==
            if check.Publish? then check.ledger else k.core.ledger
  {}

  lemma KidKeepsDecisions(p: Params, s: State, k: Kid, step: Step)
    requires IsKidStep(step) && KidEnabled(s, k, step)
    ensures D.Keeps(k.core.ledger, KidDo(p, s, k, step).core.ledger)
  {
    if step.Call? {
      D.CallbackKeeps(k.core, step.cb);
    } else if step.Start? {
      StartLedger(k, step.rec, step.now, p.resendAfter);
      D.CheckKeeps(k.core, step.rec, step.now, p.resendAfter);
    } else {
      LedgerUnwritten(p, s, k, step);
    }
  }

  lemma StepKeepsDecisions(p: Params, s: State, step: Step, c: string)
    requires Enabled(p, s, step) && c in s.kids
    ensures c in Do(p, s, step).kids
    ensures D.Keeps(s.kids[c].core.ledger, Do(p, s, step).kids[c].core.ledger)
  {
    if IsKidStep(step) && step.kid == c {
      KidKeepsDecisions(p, s, s.kids[c], step);
    } else {
      assert Do(p, s, step).kids[c] == s.kids[c];
    }
  }

  /** The row keeps its record; it is open, or decided from then on. */
  predicate RowKept(a: D.LedgerRow, b: D.LedgerRow) {
    && b.payload == a.payload
    && (a.status != D.Pending ==> b == a)
    && (a.status == D.Pending ==> b.status != D.Legacy)
  }

  lemma {:induction false} RowsStay(p: Params, s: State, steps: seq<Step>, t: State, c: string, id: Id)
    requires c in s.kids && id in s.kids[c].core.ledger
    requires IsRun(p, s, steps, t)
    ensures c in t.kids && id in t.kids[c].core.ledger
    ensures RowKept(s.kids[c].core.ledger[id], t.kids[c].core.ledger[id])
    decreases |steps|
  {
    if steps != [] {
      StepKeepsDecisions(p, s, steps[0], c);
      RowsStay(p, Do(p, s, steps[0]), steps[1..], t, c, id);
    }
  }

  /** Over any run an acked or nacked row stays exactly as it is. */
  lemma DecisionsAreFinal(p: Params, s: State, steps: seq<Step>, t: State, c: string, id: Id)
    requires c in s.kids && id in s.kids[c].core.ledger
    requires IsRun(p, s, steps, t)
    ensures c in t.kids && id in t.kids[c].core.ledger
    ensures D.Decided(s.kids[c].core.ledger[id]) ==> t.kids[c].core.ledger[id] == s.kids[c].core.ledger[id]
  {
    RowsStay(p, s, steps, t, c, id);
  }

  // -------------------------------------------------------------------
  // What the session flags mean

  /** The message id of the latest SUBSCRIBE of this process. */
  function LatestMid(notes: seq<Note>): Option<int> {
    if notes == [] then None
    else match notes[|notes| - 1]
      case Restarted => None
      case Called(OnConnect(mid)) => Some(mid)
      case _ => LatestMid(notes[..|notes| - 1])
  }

  /** The note is a connect, a disconnect, a restart, or the SUBACK of the latest
      SUBSCRIBE. */
  predicate Matters(notes: seq<Note>, i: nat)
    requires i < |notes|
  {
    match notes[i]
    case Restarted => true
    case Called(OnConnect(_)) => true
    case Called(OnDisconnect) => true
    case Called(OnSubscribe(mid, _)) => LatestMid(notes[..i]) == Some(mid)
    case Called(OnMessage(_, _, _)) => false
  }

  /** A SUBACK that grants the topic at this place of the SUBSCRIBE: the ACK topic comes
      first, the NACK topic second. 0x80 stands for a refusal. */
  predicate Grants(note: Note, place: nat := 0) {
    note.Called? && note.cb.OnSubscribe? && |note.cb.granted| > place && note.cb.granted[place] != 0x80
  }

  /** The latest note that matters is a SUBACK granting the topic. */
  ghost predicate LatestGrants(notes: seq<Note>, place: nat := 0) {
    exists i | 0 <= i < |notes| ::
      Matters(notes, i) && Grants(notes[i], place) && forall j | i < j < |notes| :: !Matters(notes, j)
  }

  lemma LatestGrantsNext(notes: seq<Note>, note: Note, place: nat := 0)
    ensures var all := notes + [note];
            LatestGrants(all, place) <==>
            if Matters(all, |notes|) then Grants(note, place) else LatestGrants(notes, place)
  {
    var all := notes + [note];
    var n := |notes|;
    assert forall i | 0 <= i <= n :: all[..i] == notes[..i];
    assert forall i | 0 <= i < n :: Matters(all, i) == Matters(notes, i);
    if Matters(all, n) {
      if Grants(note, place) {
        assert Matters(all, n) && Grants(all[n], place);
      }
    } else {
      if LatestGrants(notes, place) {
        var i :| && 0 <= i < n && Matters(notes, i) && Grants(notes[i], place)
                 && forall j | i < j < n :: !Matters(notes, j);
        assert Matters(all, i) && Grants(all[i], place) && forall j | i < j <= n :: !Matters(all, j);
      }
      if LatestGrants(all, place) {
        var i :| && 0 <= i <= n && Matters(all, i) && Grants(all[i], place)
                 && forall j | i < j <= n :: !Matters(all, j);
        assert Matters(notes, i) && Grants(notes[i], place) && forall j | i < j < n :: !Matters(notes, j);
      }
    }
  }

  /** Among notes `seen` to `n - 1` the last one that matters, if any, is a grant. */
  predicate StillGranted(notes: seq<Note>, seen: nat, n: nat)
    requires seen <= n <= |notes|
  {
    if n == seen then true
    else if Matters(notes, n - 1) then Grants(notes[n - 1])
    else StillGranted(notes, seen, n - 1)
  }

  lemma {:induction false} GrantHolds(notes: seq<Note>, seen: nat, n: nat)
    requires seen <= n <= |notes| && LatestGrants(notes[..seen])
    ensures LatestGrants(notes[..n]) <==> StillGranted(notes, seen, n)
  {
    if seen < n {
      GrantHolds(notes, seen, n - 1);
      LatestGrantsNext(notes[..n - 1], notes[n - 1]);
      assert notes[..n - 1] + [notes[n - 1]] == notes[..n];
      assert notes[..n][..n - 1] == notes[..n - 1];
    }
  }

  // -------------------------------------------------------------------
  // The invariant of one child

  ghost predicate FlagsOk(k: Kid) {
    && k.core.session.expectedMid == LatestMid(k.notes)
    && (k.core.session.subscribed <==> LatestGrants(k.notes))
    && (k.core.session.nackEnabled <==> LatestGrants(k.notes, 1))
  }

  /** The ledger remembers a time no earlier than any attempt, and attempts for
      the same event are at least `resendAfter` apart. */
  ghost predicate AttemptsOk(k: Kid, resendAfter: real) {
    && (forall i | 0 <= i < |k.attempts| :: AttemptOk(k, k.attempts[i]))
    && (forall i, j | 0 <= i < j < |k.attempts| && k.attempts[i].id == k.attempts[j].id ::
          k.attempts[j].now - k.attempts[i].now >= resendAfter)
  }

  ghost predicate AttemptOk(k: Kid, a: Attempt) {
    && a.seen <= a.at <= |k.notes| && LatestGrants(k.notes[..a.seen])
    && a.id in k.core.ledger
    && k.core.ledger[a.id].lastAttempt.Some? && a.now <= k.core.ledger[a.id].lastAttempt.value
  }

  ghost predicate SavedOk(k: Kid, resendAfter: real) {
    k.task.Saved? ==>
      && k.task.seen <= |k.notes| && LatestGrants(k.notes[..k.task.seen])
      && k.task.rec.eventId in k.core.ledger
      && k.core.ledger[k.task.rec.eventId].lastAttempt == Some(k.task.now)
      && forall i | 0 <= i < |k.attempts| && k.attempts[i].id == k.task.rec.eventId ::
           k.task.now - k.attempts[i].now >= resendAfter
  }

  ghost predicate SessionOk(k: Kid, resendAfter: real) {
    FlagsOk(k) && AttemptsOk(k, resendAfter) && SavedOk(k, resendAfter)
  }

  lemma CallFlags(k: Kid, cb: D.Callback)
    requires FlagsOk(k)
    ensures FlagsOk(k.(core := D.After(k.core, cb), notes := k.notes + [Called(cb)]))
  {
    assert (k.notes + [Called(cb)])[..|k.notes|] == k.notes;
    LatestGrantsNext(k.notes, Called(cb));
    LatestGrantsNext(k.notes, Called(cb), 1);
  }

  lemma RebootFlags(k: Kid)
    requires FlagsOk(k)
    ensures FlagsOk(Rebooted(k))
  {
    assert (k.notes + [Restarted])[..|k.notes|] == k.notes;
    LatestGrantsNext(k.notes, Restarted);
    LatestGrantsNext(k.notes, Restarted, 1);
  }

  lemma SameFlags(k: Kid, k': Kid)
    requires FlagsOk(k) && k'.notes == k.notes && k'.core.session == k.core.session
    ensures FlagsOk(k')
  {}

  lemma StartFlags(k: Kid, rec: Record, now: real, resendAfter: real)
    requires FlagsOk(k)
    ensures FlagsOk(Started(k, rec, now, resendAfter))
  {
    match D.Checked(k.core, rec, now, resendAfter) {
      case Return(_) =>
      case Raise => RebootFlags(k);
      case Publish(_) =>
    }
  }

  lemma FlagsKeep(p: Params, s: State, k: Kid, step: Step)
    requires IsKidStep(step) && KidEnabled(s, k, step) && FlagsOk(k)
    ensures FlagsOk(KidDo(p, s, k, step))
  {
    if step.Call? {
      CallFlags(k, step.cb);
    } else if step.Start? {
      StartFlags(k, step.rec, step.now, p.resendAfter);
    } else if step.Restart? {
      RebootFlags(k);
    } else {
      if IsFileStep(step) {
        FileStepFrame(p, s, k, step);
      }
      SameFlags(k, KidDo(p, s, k, step));
    }
  }

  lemma StartHistory(k: Kid, rec: Record, now: real, resendAfter: real)
    ensures var k' := Started(k, rec, now, resendAfter); k.notes <= k'.notes && k'.attempts == k.attempts
  {
    match D.Checked(k.core, rec, now, resendAfter) {
      case Return(_) =>
      case Raise =>
      case Publish(_) =>
    }
  }

  /** Notes are only added, and attempts only by publishing. */
  lemma HistoryGrows(p: Params, s: State, k: Kid, step: Step)
    requires IsKidStep(step) && KidEnabled(s, k, step)
    ensures var k' := KidDo(p, s, k, step);
            && k.notes <= k'.notes
            && k'.attempts == (if step.Publish? then
                                 k.attempts + [AttemptOf(k)]
                               else k.attempts)
  {
    if IsFileStep(step) {
      FileStepFrame(p, s, k, step);
    } else if step.Start? {
      StartHistory(k, step.rec, step.now, p.resendAfter);
    }
  }

  lemma StartOrigin(k: Kid, rec: Record, now: real, resendAfter: real)
    requires k.task.Idle? && Started(k, rec, now, resendAfter).task.Saved?
    ensures var k', check := Started(k, rec, now, resendAfter), D.Checked(k.core, rec, now, resendAfter);
            check.Publish? && k'.task == Saved(rec, now, |k.notes|) && k'.core.ledger == check.ledger
  {}

  /** A record is saved by a check that lets it through, and stays saved only
      while callbacks and the file pass go on. */
  lemma SavedOrigin(p: Params, s: State, k: Kid, step: Step)
    requires IsKidStep(step) && KidEnabled(s, k, step) && KidDo(p, s, k, step).task.Saved?
    ensures var k' := KidDo(p, s, k, step);
            if step.Start? && k'.task != k.task then
              && D.Checked(k.core, step.rec, step.now, p.resendAfter).Publish?
              && k'.task == Saved(step.rec, step.now, |k.notes|)
              && k'.core.ledger == D.Checked(k.core, step.rec, step.now, p.resendAfter).ledger
            else
              && k'.task == k.task
              && k'.core.ledger == (if step.Call? then D.After(k.core, step.cb).ledger else k.core.ledger)
  {
    if IsFileStep(step) {
      FileStepFrame(p, s, k, step);
    } else if step.Start? {
      StartOrigin(k, step.rec, step.now, p.resendAfter);
    }
  }

  /** The attempt time on file only moves forward. */
  lemma AttemptTimeGrows(p: Params, s: State, k: Kid, step: Step, id: Id)
    requires IsKidStep(step) && KidEnabled(s, k, step) && p.resendAfter >= 0.0
    requires id in k.core.ledger && k.core.ledger[id].lastAttempt.Some?
    ensures var l' := KidDo(p, s, k, step).core.ledger;
            && id in l' && l'[id].lastAttempt.Some?
            && k.core.ledger[id].lastAttempt.value <= l'[id].lastAttempt.value
  {
    match step {
      case Call(_, cb) => D.CallbackKeepsAttempt(k.core, cb, id);
      case Start(_, rec, now) =>
        StartLedger(k, rec, now, p.resendAfter);
        if D.Checked(k.core, rec, now, p.resendAfter).Publish? {
          D.CheckMovesAttempt(k.core, rec, now, p.resendAfter, id);
        }
      case _ => LedgerUnwritten(p, s, k, step);
    }
  }

  lemma AttemptsKeep(p: Params, s: State, k: Kid, step: Step)
    requires IsKidStep(step) && KidEnabled(s, k, step) && p.resendAfter >= 0.0 && SessionOk(k, p.resendAfter)
    ensures AttemptsOk(KidDo(p, s, k, step), p.resendAfter)
  {
    var k' := KidDo(p, s, k, step);
    HistoryGrows(p, s, k, step);
    forall a | AttemptOk(k, a) ensures AttemptOk(k', a) {
      assert k'.notes[..a.seen] == k.notes[..a.seen];
      AttemptTimeGrows(p, s, k, step, a.id);
    }
  }

  lemma SavedKeeps(p: Params, s: State, k: Kid, step: Step)
    requires IsKidStep(step) && KidEnabled(s, k, step) && p.resendAfter >= 0.0 && SessionOk(k, p.resendAfter)
    ensures SavedOk(KidDo(p, s, k, step), p.resendAfter)
  {
    var k' := KidDo(p, s, k, step);
    HistoryGrows(p, s, k, step);
    if k'.task.Saved? {
      SavedOrigin(p, s, k, step);
      if k'.task == k.task {
        assert k'.notes[..k.task.seen] == k.notes[..k.task.seen];
        if step.Call? {
          D.CallbackKeepsAttempt(k.core, step.cb, k.task.rec.eventId);
        }
      } else {
        SavedByCheck(k, k', step.rec, step.now, p.resendAfter);
      }
    }
  }

  lemma SavedByCheck(k: Kid, k': Kid, rec: Record, now: real, resendAfter: real)
    requires FlagsOk(k) && AttemptsOk(k, resendAfter) && D.Checked(k.core, rec, now, resendAfter).Publish?
    requires k'.task == Saved(rec, now, |k.notes|) && k.notes <= k'.notes && k'.attempts == k.attempts
    requires k'.core.ledger == D.Checked(k.core, rec, now, resendAfter).ledger
    ensures SavedOk(k', resendAfter)
  {
    assert k'.notes[..|k.notes|] == k.notes;
    forall i | 0 <= i < |k.attempts| && k.attempts[i].id == rec.eventId
      ensures now - k.attempts[i].now >= resendAfter
    {
      assert AttemptOk(k, k.attempts[i]);
      D.CheckMovesAttempt(k.core, rec, now, resendAfter, rec.eventId);
    }
  }

  lemma StepKeepsSession(p: Params, s: State, step: Step, c: string)
    requires Enabled(p, s, step) && p.resendAfter >= 0.0
    requires c in s.kids && SessionOk(s.kids[c], p.resendAfter)
    ensures c in Do(p, s, step).kids && SessionOk(Do(p, s, step).kids[c], p.resendAfter)
  {
    if IsKidStep(step) && step.kid == c {
      FlagsKeep(p, s, s.kids[c], step);
      AttemptsKeep(p, s, s.kids[c], step);
      SavedKeeps(p, s, s.kids[c], step);
    }
  }

  lemma {:induction false} RunKeepsSession(p: Params, s: State, steps: seq<Step>, t: State, c: string)
    requires p.resendAfter >= 0.0
    requires c in s.kids && SessionOk(s.kids[c], p.resendAfter)
    requires IsRun(p, s, steps, t)
    ensures c in t.kids && SessionOk(t.kids[c], p.resendAfter)
    decreases |steps|
  {
    if steps != [] {
      StepKeepsSession(p, s, steps[0], c);
      RunKeepsSession(p, Do(p, s, steps[0]), steps[1..], t, c);
    }
  }

  lemma {:induction false} KidsAreFixed(p: Params, s: State, steps: seq<Step>, t: State)
    requires IsRun(p, s, steps, t)
    ensures t.kids.Keys == s.kids.Keys
    decreases |steps|
  {
    if steps != [] {
      KidsAreFixed(p, Do(p, s, steps[0]), steps[1..], t);
    }
  }

  lemma ReachableSession(p: Params, t: State, c: string)
    requires c in t.kids && p.resendAfter >= 0.0
    requires Reachable(p, t)
    ensures SessionOk(t.kids[c], p.resendAfter)
  {
    var s, steps :| Init(s) && IsRun(p, s, steps, t);
    KidsAreFixed(p, s, steps, t);
    assert KidInit(s.kids[c]);
    RunKeepsSession(p, s, steps, t, c);
  }

  // -------------------------------------------------------------------
  // The theorems

  /** Two publishes of one event to one destination are at least `resendAfter`
      apart on the clock `send` was given, whatever that clock did in between. */
  lemma ResendsAreSpaced(p: Params, t: State, c: string, i: nat, j: nat)
    requires c in t.kids && p.resendAfter >= 0.0
    requires i < j < |t.kids[c].attempts| && t.kids[c].attempts[i].id == t.kids[c].attempts[j].id
    requires Reachable(p, t)
    ensures t.kids[c].attempts[j].now - t.kids[c].attempts[i].now >= p.resendAfter
  {
    ReachableSession(p, t, c);
  }

  /** Every publish follows a check made when the latest connect, disconnect,
      restart or matching SUBACK was a SUBACK granting the ack topic; it still is at
      the publish itself exactly if none of them but a grant came in between. */
  lemma PublishNeedsGrant(p: Params, t: State, c: string, i: nat)
    requires c in t.kids && p.resendAfter >= 0.0 && i < |t.kids[c].attempts|
    requires Reachable(p, t)
    ensures var k := t.kids[c];
            var a := k.attempts[i];
            && a.seen <= a.at <= |k.notes| && LatestGrants(k.notes[..a.seen])
            && (LatestGrants(k.notes[..a.at]) <==> StillGranted(k.notes, a.seen, a.at))
  {
    ReachableSession(p, t, c);
    var k := t.kids[c];
    assert AttemptOk(k, k.attempts[i]);
    GrantHolds(k.notes, k.attempts[i].seen, k.attempts[i].at);
  }

  lemma {:induction false} RunKeepsFlags(p: Params, s: State, steps: seq<Step>, t: State, c: string)
    requires c in s.kids && FlagsOk(s.kids[c])
    requires IsRun(p, s, steps, t)
    ensures c in t.kids && FlagsOk(t.kids[c])
    decreases |steps|
  {
    if steps != [] {
      if IsKidStep(steps[0]) && steps[0].kid == c {
        FlagsKeep(p, s, s.kids[c], steps[0]);
      }
      RunKeepsFlags(p, Do(p, s, steps[0]), steps[1..], t, c);
    }
  }

  /** In every state the flag that lets `send` publish and the flag that lets NACKs count
      say what the callbacks so far say. */
  lemma SubscribedMeansGranted(p: Params, t: State, c: string)
    requires c in t.kids
    requires Reachable(p, t)
    ensures t.kids[c].core.session.subscribed <==> LatestGrants(t.kids[c].notes)
    ensures t.kids[c].core.session.nackEnabled <==> LatestGrants(t.kids[c].notes, 1)
  {
    var s, steps :| Init(s) && IsRun(p, s, steps, t);
    KidsAreFixed(p, s, steps, t);
    assert KidInit(s.kids[c]);
    RunKeepsFlags(p, s, steps, t, c);
  }

  /** The callback thread can still run between the check and the publish: from
      any state with a record saved, a disconnect may come first, and then the
      publish happens although the latest callback was no grant. */
  lemma DisconnectMaySlipIn(p: Params, s: State, c: string)
    requires c in s.kids && s.kids[c].task.Saved?
    ensures exists t ::
              && IsRun(p, s, [Call(c, D.OnDisconnect), Publish(c)], t)
              && c in t.kids && |t.kids[c].attempts| == |s.kids[c].attempts| + 1
              && t.kids[c].attempts[|s.kids[c].attempts|].at == |t.kids[c].notes|
              && !LatestGrants(t.kids[c].notes)
  {
    var steps := [Call(c, D.OnDisconnect), Publish(c)];
    var s1 := Do(p, s, steps[0]);
    var t := Do(p, s1, steps[1]);
    assert steps[1..][1..] == [];
    assert IsRun(p, t, [], t);
    assert IsRun(p, s1, steps[1..], t);
    assert IsRun(p, s, steps, t);
    LatestGrantsNext(s.kids[c].notes, Called(D.OnDisconnect));
  }
}
