/** The classes and the transition system are about the same code: whatever a whole
    call of a method does, a run of the system does step by step, while the other
    threads, the other children and the hub go on. */
module Calls {
  import opened Text
  import opened Records
  import opened Oracle
  import opened Protocol
  import Breaker
  import D = Delivery
  import A = Archiving
  import I = RecordInbox
  import B = RecordSending
  import Safety
  import Progress

  /** `RecordSender.RunOnce` on a known profile is a run. */
  lemma RunOnceIsRun(p: Params, s: State, clock: int, batch: seq<I.InboxRow>, faults: seq<Fault>) returns (t: State)
    requires s.main.Resting? && B.IsScan(s.b.rows, clock, batch)
    requires forall i | 0 <= i < |faults| :: FaultOk(faults[i], p.cfg.unretryable)
    ensures Runs(p, s, t) && t.main.Resting? && t.kids == s.kids && t.recv == s.recv
    ensures t.b == B.Scanned(s.b, batch, faults, clock, p.cfg)
  {
    var step := RunOnce(clock, batch);
    RunsByStep(p, s, step);
    var s1 := Do(p, s, step);
    t := s1;
    if s1.b.breaker.state != Breaker.Open {
      assert batch[0..] == batch;
      t := RestOfBatch(p, s1, s1.b, batch, 0, faults, clock);
      RunsOn(p, s, s1, t);
    }
  }

  lemma FirstOfRest(batch: seq<I.InboxRow>, n: nat, clock: int)
    requires n < |batch|
    ensures batch[n..] != [] && batch[n..][0] == batch[n]
    ensures AfterHead(batch[n..], clock) == if n + 1 == |batch| then Resting else Merging(batch[n + 1..], clock)
  {
    assert batch[n..][1..] == batch[n + 1..];
  }

  lemma NextOfBatch(p: Params, s: State, batch: seq<I.InboxRow>, n: nat, fault: Fault, clock: int) returns (t: State)
    requires n < |batch| && s.main == Merging(batch[n..], clock) && FaultOk(fault, p.cfg.unretryable)
    ensures Runs(p, s, t) && t.kids == s.kids && t.recv == s.recv
    ensures t.b == B.SentOne(s.b, batch[n], fault, clock, p.cfg)
    ensures t.main == if n + 1 == |batch| then Resting else Merging(batch[n + 1..], clock)
  {
    FirstOfRest(batch, n, clock);
    t := Progress.SendOneIsRun(p, s, fault);
  }

  lemma FaultAtOk(p: Params, faults: seq<Fault>, n: nat)
    requires forall i | 0 <= i < |faults| :: FaultOk(faults[i], p.cfg.unretryable)
    ensures FaultOk(B.FaultAt(faults, n), p.cfg.unretryable)
  {}

  lemma {:induction false} RestOfBatch(p: Params, s: State, seen: B.Bridge, batch: seq<I.InboxRow>, n: nat,
                                       faults: seq<Fault>, clock: int) returns (t: State)
    requires n <= |batch| && s.b == B.SentFirst(seen, batch, n, faults, clock, p.cfg)
    requires s.main == if n == |batch| then Resting else Merging(batch[n..], clock)
    requires forall i | 0 <= i < |faults| :: FaultOk(faults[i], p.cfg.unretryable)
    ensures Runs(p, s, t) && t.main.Resting? && t.kids == s.kids && t.recv == s.recv
    ensures t.b == B.SentFirst(seen, batch, |batch|, faults, clock, p.cfg)
    decreases |batch| - n
  {
    if n == |batch| {
      t := s;
      RunsNowhere(p, s);
    } else {
      FaultAtOk(p, faults, n);
      var s1 := NextOfBatch(p, s, batch, n, B.FaultAt(faults, n), clock);
      t := RestOfBatch(p, s1, seen, batch, n + 1, faults, clock);
      RunsOn(p, s, s1, t);
    }
  }

  /** `RecordSender.Receive` is a run. */
  lemma ReceiveIsRun(p: Params, s: State, rec: Record, at: int) returns (t: State)
    requires s.recv.Free? && rec in s.records
    ensures Runs(p, s, t) && t.b == B.Handled(s.b, rec, at)
    ensures t.kids == s.kids && t.main == s.main && t.recv.Free?
  {
    RunsByStep(p, s, Receive(rec));
    var s1 := Do(p, s, Receive(rec));
    RunsByStep(p, s1, Answer(at));
    t := Do(p, s1, Answer(at));
    RunsOn(p, s, s1, t);
  }

  // -------------------------------------------------------------------
  // What goes on meanwhile

  /** The child's main thread takes no part in the step: it belongs to the hub or to
      another child, is a callback of this child's MQTT thread, or edits a file. */
  predicate IsAside(c: string, step: Step) {
    !(IsKidStep(step) && step.kid == c) || step.Call? || step.Edit?
  }

  ghost predicate Meanwhile(p: Params, s: State, c: string, steps: seq<Step>, t: State) {
    IsRun(p, s, steps, t) && forall i | 0 <= i < |steps| :: IsAside(c, steps[i])
  }

  /** The callbacks of this child among the steps. */
  function CallsIn(c: string, steps: seq<Step>): seq<D.Callback> {
    if steps == [] then []
    else (if steps[0].Call? && steps[0].kid == c then [steps[0].cb] else []) + CallsIn(c, steps[1..])
  }

  /** The child's thread is where it was. */
  ghost predicate Untouched(k: Kid, k': Kid) {
    && k'.device == k.device && k'.task == k.task && k'.scan == k.scan
    && k'.sent == k.sent && k'.nacked == k.nacked && k'.sidecars == k.sidecars
  }

  lemma CallsOfOne(c: string, step: Step, core: D.Core)
    ensures D.AfterAll(core, CallsIn(c, [step])) ==
            if step.Call? && step.kid == c then D.After(core, step.cb) else core
  {
    assert [step][1..] == [];
    if step.Call? && step.kid == c {
      assert CallsIn(c, [step]) == [step.cb] && [step.cb][1..] == [];
    }
  }

  lemma AsideStep(p: Params, s: State, c: string, step: Step)
    requires c in s.kids && Enabled(p, s, step) && IsAside(c, step)
    ensures c in Do(p, s, step).kids
    ensures var k, k' := s.kids[c], Do(p, s, step).kids[c];
            Untouched(k, k') && k'.core == D.AfterAll(k.core, CallsIn(c, [step]))
  {
    CallsOfOne(c, step, s.kids[c].core);
  }

  lemma {:induction false} AfterBoth(core: D.Core, a: seq<D.Callback>, b: seq<D.Callback>)
    ensures D.AfterAll(core, a + b) == D.AfterAll(D.AfterAll(core, a), b)
    decreases |a|
  {
    if a == [] {
      assert a + b == b;
    } else {
      AfterBoth(D.After(core, a[0]), a[1..], b);
      assert (a + b)[1..] == a[1..] + b;
    }
  }

  lemma {:induction false} MeanwhileEffect(p: Params, s: State, c: string, steps: seq<Step>, t: State)
    requires c in s.kids && Meanwhile(p, s, c, steps, t)
    ensures Runs(p, s, t) && c in t.kids && Untouched(s.kids[c], t.kids[c])
    ensures t.kids[c].core == D.AfterAll(s.kids[c].core, CallsIn(c, steps))
    decreases |steps|
  {
    if steps != [] {
      var s1 := Do(p, s, steps[0]);
      AsideStep(p, s, c, steps[0]);
      assert forall i | 0 <= i < |steps[1..]| :: steps[1..][i] == steps[i + 1];
      MeanwhileEffect(p, s1, c, steps[1..], t);
      assert [steps[0]][1..] == [];
      AfterBoth(s.kids[c].core, CallsIn(c, [steps[0]]), CallsIn(c, steps[1..]));
    }
  }

  // -------------------------------------------------------------------
  // send

  function Rounds(c: string, rounds: seq<seq<Step>>): seq<seq<D.Callback>> {
    if rounds == [] then [] else [CallsIn(c, rounds[0])] + Rounds(c, rounds[1..])
  }

  /** The wait for an answer leads from `s` to `t`; during each sleep the system goes on. */
  ghost predicate WaitPlays(p: Params, s: State, c: string, id: Id, rounds: seq<seq<Step>>, t: State)
    requires c in s.kids
    decreases |rounds|
  {
    if D.OutcomeOf(s.kids[c].core.ledger, id) != D.PendingOutcome || rounds == [] then t == s
    else exists u: State :: c in u.kids && Meanwhile(p, s, c, rounds[0], u) && WaitPlays(p, u, c, id, rounds[1..], t)
  }

  lemma {:induction false} WaitIsRun(p: Params, s: State, c: string, id: Id, rounds: seq<seq<Step>>, t: State)
    requires c in s.kids && WaitPlays(p, s, c, id, rounds, t)
    ensures Runs(p, s, t) && c in t.kids && Untouched(s.kids[c], t.kids[c])
    ensures t.kids[c].core == D.Waited(s.kids[c].core, id, Rounds(c, rounds))
    decreases |rounds|
  {
    RunsNowhere(p, s);
    if D.OutcomeOf(s.kids[c].core.ledger, id) == D.PendingOutcome && rounds != [] {
      var u: State :| c in u.kids && Meanwhile(p, s, c, rounds[0], u) && WaitPlays(p, u, c, id, rounds[1..], t);
      MeanwhileEffect(p, s, c, rounds[0], u);
      WaitIsRun(p, u, c, id, rounds[1..], t);
      RunsOn(p, s, u, t);
      assert Rounds(c, rounds)[1..] == Rounds(c, rounds[1..]);
    }
  }

  /** How one call of `send` is made: when, whether the client takes the message, and
      what goes on during each sleep. */
  datatype Sending = Sending(now: real, accepted: bool, rounds: seq<seq<Step>>)

  /** A call of `send` for the current line leads from `s` to `t`. */
  ghost predicate SendPlays(p: Params, s: State, c: string, rec: Record, how: Sending, t: State)
    requires c in s.kids && s.kids[c].task.Idle? && IsCurrent(s.kids[c], rec)
  {
    var s1 := Do(p, s, Start(c, rec, how.now));
    if !s1.kids[c].task.Saved? then t == s1
    else
      var s2 := Do(p, s1, Publish(c));
      exists u :: && (if how.accepted then WaitPlays(p, s2, c, rec.eventId, how.rounds, u) else u == s2)
                  && c in u.kids && u.kids[c].task.Waiting? && t == Do(p, u, Settle(c, !how.accepted))
  }

  /** `AckSession.Send`, as the pass calls it, is a run; the bridge may well answer
      while it waits. */
  lemma SendIsRun(p: Params, s: State, c: string, rec: Record, how: Sending, t: State)
    requires c in s.kids && s.kids[c].task.Idle? && IsCurrent(s.kids[c], rec)
    requires SendPlays(p, s, c, rec, how, t)
    requires Reachable(p, s)
    ensures Runs(p, s, t) && c in t.kids && t.kids[c].task.Idle? && t.kids[c].device == s.kids[c].device
    ensures var core, rounds := s.kids[c].core, Rounds(c, how.rounds);
            var result := D.ResultOfSend(core, rec, how.now, p.resendAfter, how.accepted, rounds);
            && t.kids[c].core == D.AfterSend(core, rec, how.now, p.resendAfter, how.accepted, rounds)
            && result.Sent? && t.kids[c].scan == Noted(s.kids[c].scan, rec.eventId, result.outcome)
  {
    var k := s.kids[c];
    Safety.ReachableInv(p, s);
    Safety.CurrentIsValid(k, rec);
    Safety.NeverRaises(p, s, c, rec, how.now);
    var start := Start(c, rec, how.now);
    var s1 := Do(p, s, start);
    RunsByStep(p, s, start);
    match D.Checked(k.core, rec, how.now, p.resendAfter) {
      case Return(_) =>
      case Publish(ledger) => PublishedIsRun(p, s1, c, rec, how, t);
        RunsOn(p, s, s1, t);
    }
  }

  lemma PublishedIsRun(p: Params, s: State, c: string, rec: Record, how: Sending, t: State)
    requires c in s.kids && s.kids[c].task.Saved? && s.kids[c].task.rec == rec
    requires var s2 := Do(p, s, Publish(c));
             exists u :: && (if how.accepted then WaitPlays(p, s2, c, rec.eventId, how.rounds, u) else u == s2)
                         && c in u.kids && u.kids[c].task.Waiting? && t == Do(p, u, Settle(c, !how.accepted))
    ensures Runs(p, s, t) && c in t.kids && t.kids[c].task.Idle? && t.kids[c].device == s.kids[c].device
    ensures t.kids[c].core == if how.accepted then D.Waited(s.kids[c].core, rec.eventId, Rounds(c, how.rounds))
                              else s.kids[c].core
    ensures t.kids[c].scan == Noted(s.kids[c].scan, rec.eventId, if how.accepted then
                                      D.OutcomeOf(t.kids[c].core.ledger, rec.eventId) else D.PendingOutcome)
  {
    var s2 := Do(p, s, Publish(c));
    RunsByStep(p, s, Publish(c));
    var u :| && (if how.accepted then WaitPlays(p, s2, c, rec.eventId, how.rounds, u) else u == s2)
             && c in u.kids && u.kids[c].task.Waiting? && t == Do(p, u, Settle(c, !how.accepted));
    if how.accepted {
      WaitIsRun(p, s2, c, rec.eventId, how.rounds, u);
    } else {
      RunsNowhere(p, s2);
    }
    RunsOn(p, s, s2, u);
    RunsByStep(p, u, Settle(c, !how.accepted));
    RunsOn(p, s, u, t);
  }

  // -------------------------------------------------------------------
  // deliver_file

  /** What happens around one line: before it, and in its `send`. */
  datatype Env = Env(before: seq<Step>, how: Sending)

  function EnvOf(c: string, e: Env): A.LineEnv {
    A.LineEnv(CallsIn(c, e.before), e.how.now, e.how.accepted, Rounds(c, e.how.rounds))
  }

  function EnvsOf(c: string, envs: seq<Env>): (r: seq<A.LineEnv>)
    ensures |r| == |envs|
    ensures forall i | 0 <= i < |r| :: r[i] == EnvOf(c, envs[i])
  {
    seq(|envs|, i requires 0 <= i < |envs| => EnvOf(c, envs[i]))
  }

  /** The child's thread is between two lines of a pass. */
  ghost predicate Between(s: State, c: string) { c in s.kids && s.kids[c].task.Idle? && s.kids[c].scan.Reading? }

  function NextKind(k: Kid): A.Kind
    requires AtLine(k)
  {
    Kinds(k)[k.scan.pass.next]
  }

  /** The loop's body for the next line leads from `s` to `t`. */
  ghost predicate BodyPlays(p: Params, s: State, c: string, how: Sending, t: State)
    requires Between(s, c) && AtLine(s.kids[c])
  {
    if NextKind(s.kids[c]).Carries? then SendPlays(p, s, c, NextKind(s.kids[c]).rec, how, t) else t == Do(p, s, Skip(c))
  }

  ghost predicate LinePlays(p: Params, s: State, c: string, e: Env, t: State)
    requires Between(s, c)
  {
    exists u :: Meanwhile(p, s, c, e.before, u) && Between(u, c) && AtLine(u.kids[c]) && BodyPlays(p, u, c, e.how, t)
  }

  /** Between two lines, with this pass, ledger and session. */
  ghost predicate PassIs(s: State, c: string, pass: Pass, core: D.Core, device: string) {
    Between(s, c) && s.kids[c].scan.pass == pass && s.kids[c].core == core && s.kids[c].device == device
  }

  /** The pass stands at line `n` in the state `st` of the method's loop. */
  ghost predicate PassAs(t: State, c: string, pass: Pass, n: nat, st: A.PassState, device: string) {
    !st.raised && PassIs(t, c, pass.(next := n, tally := st.tally), st.core, device)
  }

  ghost predicate Followed(p: Params, k: Kid, c: string, e: Env, t: State)
    requires AtLine(k)
  {
    var before := A.PassState(k.core, k.scan.pass.tally, false);
    PassAs(t, c, k.scan.pass, k.scan.pass.next + 1,
           A.AfterLine(before, NextKind(k), k.scan.pass.next + 1, EnvOf(c, e), p.resendAfter), k.device)
  }

  lemma BodyIsRun(p: Params, s: State, c: string, how: Sending, t: State)
    requires Between(s, c) && AtLine(s.kids[c]) && BodyPlays(p, s, c, how, t)
    requires Reachable(p, s)
    ensures Runs(p, s, t)
    ensures Followed(p, s.kids[c], c, Env([], how), t)
  {
    if NextKind(s.kids[c]).Carries? {
      SendIsRun(p, s, c, NextKind(s.kids[c]).rec, how, t);
    } else {
      RunsByStep(p, s, Skip(c));
    }
  }

  /** From a reachable state, a run to `t` has done what the loop's body does with the
      next line. */
  ghost predicate LineDone(p: Params, s: State, c: string, e: Env, t: State)
    requires Between(s, c)
  {
    Reachable(p, s) ==> Runs(p, s, t) && AtLine(s.kids[c]) && Followed(p, s.kids[c], c, e, t)
  }

  lemma LineIsRun(p: Params, s: State, c: string, e: Env, t: State)
    requires Between(s, c) && LinePlays(p, s, c, e, t)
    ensures LineDone(p, s, c, e, t)
  {
    if Reachable(p, s) {
      var u :| Meanwhile(p, s, c, e.before, u) && Between(u, c) && AtLine(u.kids[c]) && BodyPlays(p, u, c, e.how, t);
      MeanwhileEffect(p, s, c, e.before, u);
      ReachableOn(p, s, u);
      BodyIsRun(p, u, c, e.how, t);
      RunsOn(p, s, u, t);
      SameFollowed(p, s.kids[c], u.kids[c], c, e, t);
    }
  }

  lemma SameFollowed(p: Params, k: Kid, j: Kid, c: string, e: Env, t: State)
    requires Untouched(k, j) && AtLine(j) && j.core == D.AfterAll(k.core, CallsIn(c, e.before))
    requires Followed(p, j, c, Env([], e.how), t)
    ensures AtLine(k) && Followed(p, k, c, e, t)
  {
    A.CallbacksFirst(A.PassState(k.core, k.scan.pass.tally, false), NextKind(k), k.scan.pass.next + 1, EnvOf(c, e),
                     p.resendAfter);
    assert EnvOf(c, e).(before := []) == EnvOf(c, Env([], e.how));
  }

  /** The loop's body runs `n` times, from each state to the next. */
  ghost predicate PassPlays(p: Params, c: string, envs: seq<Env>, n: nat, states: seq<State>)
    requires n <= |envs|
  {
    |states| == n + 1 &&
    forall i | 0 <= i < n :: Between(states[i], c) && LinePlays(p, states[i], c, envs[i], states[i + 1])
  }

  ghost predicate LinesDone(p: Params, c: string, envs: seq<Env>, n: nat, states: seq<State>)
    requires n <= |envs|
  {
    |states| == n + 1 &&
    forall i | 0 <= i < n :: Between(states[i], c) && LineDone(p, states[i], c, envs[i], states[i + 1])
  }

  lemma LinesAreRuns(p: Params, c: string, envs: seq<Env>, n: nat, states: seq<State>)
    requires n <= |envs| && PassPlays(p, c, envs, n, states)
    ensures LinesDone(p, c, envs, n, states)
  {
    forall i | 0 <= i < n ensures Between(states[i], c) && LineDone(p, states[i], c, envs[i], states[i + 1]) {
      LineIsRun(p, states[i], c, envs[i], states[i + 1]);
    }
  }

  function PlanOf(p: Params, c: string, k: Kid, envs: seq<Env>): A.Plan
    requires k.scan.Reading?
  {
    A.Plan(Kinds(k), EnvsOf(c, envs), p.resendAfter)
  }

  /** A run from `s` to `t` has done what the pass does with its first `n` lines. */
  ghost predicate PassDone(p: Params, s: State, c: string, envs: seq<Env>, n: nat, t: State)
    requires Between(s, c) && n <= |envs| == |Kinds(s.kids[c])|
  {
    var k := s.kids[c];
    Runs(p, s, t) && PassAs(t, c, k.scan.pass, n, A.AfterLines(k.core, PlanOf(p, c, k, envs), n), k.device)
  }

  predicate AtStart(pass: Pass) { pass.next == 0 && pass.tally == A.EMPTY }

  lemma {:induction false} PassIsRun(p: Params, c: string, envs: seq<Env>, n: nat, states: seq<State>, m: nat)
    requires n <= |envs| && LinesDone(p, c, envs, n, states) && m <= n
    requires Reachable(p, states[0]) && Between(states[0], c) && AtStart(states[0].kids[c].scan.pass)
    requires |envs| == |Kinds(states[0].kids[c])|
    ensures PassDone(p, states[0], c, envs, m, states[m])
  {
    if m == 0 {
      RunsNowhere(p, states[0]);
    } else {
      PassIsRun(p, c, envs, n, states, m - 1);
      assert LineDone(p, states[m - 1], c, envs[m - 1], states[m - 1 + 1]);
      NextLine(p, states[0], c, envs, m, states[m - 1], states[m]);
    }
  }

  lemma NextLine(p: Params, s: State, c: string, envs: seq<Env>, n: nat, u: State, t: State)
    requires Between(s, c) && 1 <= n <= |envs| == |Kinds(s.kids[c])|
    requires PassDone(p, s, c, envs, n - 1, u) && LineDone(p, u, c, envs[n - 1], t)
    requires Reachable(p, s)
    ensures PassDone(p, s, c, envs, n, t)
  {
    ReachableOn(p, s, u);
    RunsOn(p, s, u, t);
  }

  /** `DeliverFile` is a run: `stat`, a pause, the text is read, the lines up to the time
      limit, `stat` again. The pass is then complete, or over, as the method's contract
      says of the same text, counts and comparison. */
  lemma DeliverFileIsRun(p: Params, s: State, c: string, name: string, pause: seq<Step>, s2: State,
                         envs: seq<Env>, timeUp: Option<nat>, states: seq<State>) returns (t: State)
    requires c in s.kids && Enabled(p, s, Open(c, name))
    requires Meanwhile(p, Do(p, s, Open(c, name)), c, pause, s2) && c in s2.kids && name in s2.kids[c].outbox
    requires Enabled(p, s2, Read(c)) && |envs| == |A.KindsIn(s2.kids[c].outbox[name].text, s2.kids[c].device)|
    requires PassPlays(p, c, envs, A.Stop(|envs|, timeUp), states) && states[0] == Do(p, s2, Read(c))
    requires Reachable(p, s)
    ensures Runs(p, s, t) && c in t.kids && t.kids[c].task.Idle?
    ensures c in states[A.Stop(|envs|, timeUp)].kids
    ensures var s4 := states[A.Stop(|envs|, timeUp)];
            var text, stamp := s2.kids[c].outbox[name].text, s.kids[c].outbox[name].stamp;
            var sameStat := name in s4.kids[c].outbox && s4.kids[c].outbox[name].stamp == stamp;
            var plan := A.Plan(A.KindsIn(text, s.kids[c].device), EnvsOf(c, envs), p.resendAfter);
            var st := A.AfterLines(s2.kids[c].core, plan, A.Reached(text, timeUp));
            && t.kids[c].core == st.core
            && t.kids[c].scan == if A.IsComplete(text, timeUp, sameStat, st.tally)
                                 then Complete(Pass(name, stamp, text, A.Reached(text, timeUp), st.tally)) else NoScan
  {
    var s1 := Do(p, s, Open(c, name));
    RunsByStep(p, s, Open(c, name));
    MeanwhileEffect(p, s1, c, pause, s2);
    RunsOn(p, s, s1, s2);
    var s3 := Do(p, s2, Read(c));
    RunsByStep(p, s2, Read(c));
    RunsOn(p, s, s2, s3);
    ReachableOn(p, s, s3);
    var n := A.Stop(|envs|, timeUp);
    var s4 := states[n];
    LinesAreRuns(p, c, envs, n, states);
    PassIsRun(p, c, envs, n, states, n);
    RunsOn(p, s, s3, s4);
    var finish := Finish(c, n < |envs|);
    RunsByStep(p, s4, finish);
    t := Do(p, s4, finish);
    RunsOn(p, s, s4, t);
  }

  // -------------------------------------------------------------------
  // archive_to_destination

  function ShelvesOf(k: Kid): A.Shelves {
    A.Shelves(map n | n in k.outbox :: k.outbox[n].text, k.sent, k.nacked, k.sidecars)
  }

  /** `Folders.ArchiveToDestination` after a complete pass is a run. */
  lemma ArchiveIsRun(p: Params, s: State, c: string, target: string) returns (t: State)
    requires c in s.kids && s.kids[c].scan.Complete? && s.kids[c].scan.pass.name in s.kids[c].outbox
    requires var k := s.kids[c];
             A.IsTarget(k.scan.pass.name, if k.scan.pass.tally.nacked == 0 then k.sent.Keys else k.nacked.Keys, target)
    ensures Runs(p, s, t) && c in t.kids && t.kids[c].scan.NoScan?
    ensures var k := s.kids[c];
            A.IsArchived(ShelvesOf(k), k.scan.pass.name, A.DeliveryResult(k.scan.pass.tally, true), k.core.ledger,
                         Some(target), ShelvesOf(t.kids[c]))
  {
    if s.kids[c].scan.pass.tally.nacked == 0 {
      t := Do(p, s, MoveToSent(c, target));
      RunsByStep(p, s, MoveToSent(c, target));
      ShelvedBy(s.kids[c], target, true);
    } else {
      var s1 := Do(p, s, WriteSidecar(c, target));
      RunsByStep(p, s, WriteSidecar(c, target));
      RunsByStep(p, s1, MoveToNacked(c));
      t := Do(p, s1, MoveToNacked(c));
      RunsOn(p, s, s1, t);
      ShelvedBy(s1.kids[c], target, false);
    }
  }

  lemma ShelvedBy(k: Kid, target: string, toSent: bool)
    requires (k.scan.Complete? || k.scan.Listed?) && k.scan.pass.name in k.outbox
    ensures ShelvesOf(Moved(k, target, toSent)) == A.Shelved(ShelvesOf(k), k.scan.pass.name, target, toSent)
  {
    assert ShelvesOf(Moved(k, target, toSent)).outbox
           == A.Shelved(ShelvesOf(k), k.scan.pass.name, target, toSent).outbox;
  }
}
