/** Runs that show the failures the theorems speak of: each is reached from a fresh
    device with one log file. */
module Witnesses {
  import opened Text
  import opened Records
  import opened Oracle
  import opened Protocol
  import Breaker
  import D = Delivery
  import A = Archiving
  import B = RecordSending
  import Sessions
  import Archives
  import Outbox
  import Progress
  import DeadEnds

  const PI := "pi"
  const LOG := "log"

  function FreshKid(device: string, text: string): Kid {
    Kid(device, D.Core(map[], D.OFFLINE), Idle, NoScan, map[LOG := File(text, 0)], 1, map[], map[], map[], [], [], [])
  }

  /** The system with this one child, and nothing published or stored. */
  function World(k: Kid): State {
    State(map[PI := k], {}, B.Bridge(map[], map[], [], [], Breaker.FRESH), Resting, Free, [], {}, {}, {})
  }

  lemma WorldReached(p: Params, device: string, text: string)
    ensures Outbox.ReachableByAppends(p, World(FreshKid(device, text)))
  {
    var s := World(FreshKid(device, text));
    assert KidInit(s.kids[PI]);
    assert Init(s) && Outbox.IsAppendRun(p, s, [], s);
  }

  lemma StepReached(p: Params, s: State, step: Step)
    requires Enabled(p, s, step)
    requires Reachable(p, s)
    ensures Reachable(p, Do(p, s, step))
  {
    RunsByStep(p, s, step);
    ReachableOn(p, s, Do(p, s, step));
  }

  /** The child's next step, with appends at most. */
  lemma KidReached(p: Params, k: Kid, step: Step, k': Kid)
    requires Outbox.ReachableByAppends(p, World(k)) && IsKidStep(step) && step.kid == PI && !step.Publish?
    requires KidEnabled(World(k), k, step) && KidDo(p, World(k), k, step) == k'
    requires step.Edit? && step.name in k.outbox ==> k.outbox[step.name].text <= step.text
    ensures Outbox.ReachableByAppends(p, World(k'))
  {
    var s := World(k);
    var t := Do(p, s, step);
    assert t.kids == map[PI := k'] && t.records == {};
    assert t == World(k');
    var s0, steps :| Init(s0) && Outbox.IsAppendRun(p, s0, steps, s);
    AppendStep(p, s0, steps, s, step);
    assert Init(s0) && Outbox.IsAppendRun(p, s0, steps + [step], t);
  }

  lemma {:induction false} AppendStep(p: Params, s: State, steps: seq<Step>, t: State, step: Step)
    requires Enabled(p, t, step) && Outbox.Appends(t, step)
    requires Outbox.IsAppendRun(p, s, steps, t)
    ensures Outbox.IsAppendRun(p, s, steps + [step], Do(p, t, step))
    decreases |steps|
  {
    var all := steps + [step];
    if steps == [] {
      assert all[1..] == [];
      assert Outbox.IsAppendRun(p, Do(p, t, step), [], Do(p, t, step));
    } else {
      AppendStep(p, Do(p, s, steps[0]), steps[1..], t, step);
      assert all[1..] == steps[1..] + [step];
    }
  }

  predicate OneLine(rec: Record) { Valid(rec) && '\n' !in PrintLine(rec) }

  function LineOf(rec: Record): string { PrintLine(rec) + "\n" }

  lemma LineCarries(rec: Record)
    requires OneLine(rec)
    ensures A.KindsIn(LineOf(rec), rec.device) == [A.Carries(rec)]
  {
    var line := PrintLine(rec);
    SplitNone(line, '\n');
    SplitAt(line, [], '\n');
    assert LineOf(rec) == line + ['\n'] + [];
    assert A.CompleteLines(LineOf(rec)) == [line];
    PrintThenParse(rec);
    StripTrims(line);
    LineKind(line, rec);
    assert [line][..0] == [];
  }

  lemma LineKind(line: string, rec: Record)
    requires ParseLine(line, rec.device) == Some(rec)
    ensures A.KindOf(line, rec.device) == A.Carries(rec)
  {
    StripTrims(line);
  }

  const ONLINE := D.Session(true, true, Some(0))

  function OnlineKid(device: string, text: string): Kid {
    FreshKid(device, text).(core := D.Core(map[], ONLINE),
                            notes := [Called(D.OnConnect(0)), Called(D.OnSubscribe(0, [2, 2]))])
  }

  lemma OnlineReached(p: Params, device: string, text: string)
    ensures Outbox.ReachableByAppends(p, World(OnlineKid(device, text)))
  {
    var k0, k2 := FreshKid(device, text), OnlineKid(device, text);
    var k1 := k0.(core := D.Core(map[], D.Session(false, false, Some(0))), notes := [Called(D.OnConnect(0))]);
    WorldReached(p, device, text);
    assert k0.notes + [Called(D.OnConnect(0))] == k1.notes;
    KidReached(p, k0, Call(PI, D.OnConnect(0)), k1);
    assert k1.notes + [Called(D.OnSubscribe(0, [2, 2]))] == k2.notes;
    KidReached(p, k1, Call(PI, D.OnSubscribe(0, [2, 2])), k2);
  }

  function ReadingKid(k: Kid, text: string): Kid { k.(scan := Reading(Pass(LOG, 0, text, 0, A.EMPTY))) }

  lemma ReadingReached(p: Params, k: Kid, text: string)
    requires Outbox.ReachableByAppends(p, World(k)) && k.task.Idle? && k.scan.NoScan?
    requires LOG in k.outbox && k.outbox[LOG] == File(text, 0)
    ensures Outbox.ReachableByAppends(p, World(ReadingKid(k, text)))
  {
    var k1 := k.(scan := Opened(LOG, 0));
    KidReached(p, k, Open(PI, LOG), k1);
    KidReached(p, k1, Read(PI), ReadingKid(k, text));
  }

  function SavedKid(rec: Record): Kid {
    var k := ReadingKid(OnlineKid(rec.device, LineOf(rec)), LineOf(rec));
    k.(core := D.Core(map[rec.eventId := D.LedgerRow(rec.mkDate, rec, D.Pending, Some(0.0), None, None)], ONLINE),
       task := Saved(rec, 0.0, 2))
  }

  /** Connected and subscribed, a pass has come to the record's line and `send` has
      just written its row. */
  lemma SavedReached(p: Params, rec: Record)
    requires OneLine(rec)
    ensures Reachable(p, World(SavedKid(rec)))
  {
    var text := LineOf(rec);
    var k := ReadingKid(OnlineKid(rec.device, text), text);
    OnlineReached(p, rec.device, text);
    ReadingReached(p, OnlineKid(rec.device, text), text);
    LineCarries(rec);
    assert IsCurrent(k, rec);
    StartSaves(k, rec, p.resendAfter);
    KidReached(p, k, Start(PI, rec, 0.0), SavedKid(rec));
    Outbox.AppendsReach(p, World(SavedKid(rec)));
  }

  lemma StartSaves(k: Kid, rec: Record, resendAfter: real)
    requires k == ReadingKid(OnlineKid(rec.device, LineOf(rec)), LineOf(rec))
    ensures Started(k, rec, 0.0, resendAfter) == SavedKid(rec)
  {
    assert D.SavedPending(map[], rec, 0.0) == SavedKid(rec).core.ledger;
  }

  /** A doomed pending row is reachable exactly with a configuration that is not calm:
      another program only has to take the key. */
  lemma DoomReachedIff(p: Params, rec: Record)
    requires OneLine(rec)
    ensures (exists s, c :: Reachable(p, s) && Progress.Pends(s, c, rec) && Progress.Doomed(p.cfg, s.b.table, rec)) <==>
            !Progress.Calm(p.cfg)
  {
    if !Progress.Calm(p.cfg) {
      var s := World(SavedKid(rec));
      SavedReached(p, rec);
      var step := Foreign(PkOf(rec), if ORA_UNIQUE in p.cfg.unretryable then rec.t1 else rec.t1 + 1);
      StepReached(p, s, step);
      assert Progress.Pends(Do(p, s, step), PI, rec);
    }
  }

  /** A publish while the latest callback was a disconnect. */
  lemma UngrantedPublishReached(p: Params, rec: Record)
    requires OneLine(rec)
    ensures exists t ::
              && Reachable(p, t) && PI in t.kids && |t.kids[PI].attempts| == 1
              && t.kids[PI].attempts[0].at <= |t.kids[PI].notes|
              && !Sessions.LatestGrants(t.kids[PI].notes[..t.kids[PI].attempts[0].at])
  {
    var s := World(SavedKid(rec));
    SavedReached(p, rec);
    Sessions.DisconnectMaySlipIn(p, s, PI);
    var t :| && IsRun(p, s, [Call(PI, D.OnDisconnect), Publish(PI)], t)
             && PI in t.kids && |t.kids[PI].attempts| == |s.kids[PI].attempts| + 1
             && t.kids[PI].attempts[|s.kids[PI].attempts|].at == |t.kids[PI].notes|
             && !Sessions.LatestGrants(t.kids[PI].notes);
    assert Runs(p, s, t);
    ReachableOn(p, s, t);
    assert t.kids[PI].notes[..|t.kids[PI].notes|] == t.kids[PI].notes;
  }

  /** The child after a restart between the check and the publish, its file emptied. */
  function StrandedKid(rec: Record): Kid {
    var k := Rebooted(SavedKid(rec));
    k.(outbox := k.outbox[LOG := File("", k.clock)], clock := k.clock + 1)
  }

  lemma StrandedCannotSend(rec: Record)
    ensures !DeadEnds.CanSend(StrandedKid(rec), rec)
  {
    forall name, i: nat ensures !Outbox.OnLine(StrandedKid(rec), name, i, rec) {
      assert A.CompleteLines("") == [];
    }
  }

  lemma KidStepReached(p: Params, k: Kid, step: Step, k': Kid)
    requires IsKidStep(step) && step.kid == PI && !step.Publish?
    requires KidEnabled(World(k), k, step) && KidDo(p, World(k), k, step) == k'
    requires Reachable(p, World(k))
    ensures Reachable(p, World(k'))
  {
    var t := Do(p, World(k), step);
    assert t.kids == map[PI := k'] && t.records == {};
    assert t == World(k');
    StepReached(p, World(k), step);
  }

  lemma StrandedKidReached(p: Params, rec: Record)
    requires Reachable(p, World(SavedKid(rec)))
    ensures Reachable(p, World(StrandedKid(rec)))
  {
    KidStepReached(p, SavedKid(rec), Restart(PI), Rebooted(SavedKid(rec)));
    KidStepReached(p, Rebooted(SavedKid(rec)), Edit(PI, LOG, ""), StrandedKid(rec));
  }

  /** A row that stays open for ever: the child restarts between the check and the
      publish, and the line is deleted. */
  lemma StrandedReached(p: Params, rec: Record)
    requires OneLine(rec)
    ensures exists s :: Reachable(p, s) && Progress.Pends(s, PI, rec) && !DeadEnds.Sendable(s, rec)
  {
    var s := World(StrandedKid(rec));
    SavedReached(p, rec);
    StrandedKidReached(p, rec);
    StrandedCannotSend(rec);
    assert Reachable(p, s) && Progress.Pends(s, PI, rec) && !DeadEnds.Sendable(s, rec);
  }

  /** The pass over the empty file was complete, and then a line was appended. */
  function GrownKid(rec: Record): Kid {
    FreshKid(rec.device, "").(scan := Complete(Pass(LOG, 0, "", 0, A.EMPTY)),
                              outbox := map[LOG := File(LineOf(rec), 1)], clock := 2)
  }

  lemma GrownReached(p: Params, rec: Record)
    ensures Outbox.ReachableByAppends(p, World(GrownKid(rec)))
  {
    var k0 := FreshKid(rec.device, "");
    WorldReached(p, rec.device, "");
    ReadingReached(p, k0, "");
    assert A.CompleteLines("") == [];
    var k1 := k0.(scan := Complete(Pass(LOG, 0, "", 0, A.EMPTY)));
    KidReached(p, ReadingKid(k0, ""), Finish(PI, false), k1);
    assert k1.outbox[LOG := File(LineOf(rec), 1)] == GrownKid(rec).outbox;
    KidReached(p, k1, Edit(PI, LOG, LineOf(rec)), GrownKid(rec));
  }

  function LostKid(rec: Record): Kid {
    GrownKid(rec).(outbox := map[], sent := map[LOG := LineOf(rec)], scan := NoScan,
                   moves := [Move(LOG, true, "", LineOf(rec))])
  }

  lemma LostReached(p: Params, rec: Record)
    ensures Outbox.ReachableByAppends(p, World(LostKid(rec)))
  {
    GrownReached(p, rec);
    var k := GrownKid(rec);
    assert (map n | n in k.outbox && n != LOG :: k.outbox[n]) == map[];
    assert Moved(k, LOG, true) == LostKid(rec);
    KidReached(p, k, MoveToSent(PI, LOG), LostKid(rec));
  }

  /** A line appended between the check and the move ends in the sent directory although
      it was never sent and Oracle does not have it. */
  lemma LostLineReached(p: Params, rec: Record)
    requires OneLine(rec)
    ensures exists t ::
              && Outbox.ReachableByAppends(p, t) && PI in t.kids && |t.kids[PI].moves| == 1
              && t.kids[PI].moves[0].toSent && rec !in t.records
              && !Archives.FileSound(t.b.table, t.kids[PI], t.kids[PI].moves[0])
  {
    LostReached(p, rec);
    LineCarries(rec);
    var k := LostKid(rec);
    assert !Archives.LineSound(map[], A.KindsIn(LineOf(rec), rec.device)[0], Archives.ListedIn(k, k.moves[0], 0));
    assert !Archives.FileSound(map[], k, k.moves[0]);
    assert World(k).kids[PI] == k && World(k).b.table == map[];
  }
}
