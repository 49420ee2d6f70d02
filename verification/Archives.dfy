/** What the archive directories contain: a file is moved only when every line
    that was read is decided, and what happens when it grows before the move. */
module Archives {
  import opened Records
  import opened Oracle
  import opened Protocol
  import D = Delivery
  import A = Archiving
  import Safety
  import Sessions

  // -------------------------------------------------------------------
  // The invariant of one child

  /** An unchanged stamp means an unchanged file. */
  predicate StampOk(k: Kid, p: Pass) {
    && p.stamp < k.clock
    && (p.name in k.outbox && k.outbox[p.name].stamp == p.stamp ==> k.outbox[p.name].text == p.text)
  }

  /** Everything the pass read is decided, and it listed exactly the nacked lines. */
  ghost predicate Done(k: Kid, read: string, rows: seq<(nat, Id)>) {
    && A.Settled(k.core.ledger, A.KindsIn(read, k.device))
    && rows == A.NackedLines(k.core.ledger, A.KindsIn(read, k.device))
    && A.EndsWithNewline(read)
  }

  ghost predicate ReadingOk(k: Kid, p: Pass) {
    && p.next <= |A.KindsIn(p.text, k.device)|
    && A.Fits(p.tally, k.core.ledger, A.KindsIn(p.text, k.device)[..p.next])
    && (!k.task.Idle? ==> IsCurrent(k, k.task.rec))
    && StampOk(k, p)
  }

  ghost predicate CompleteOk(k: Kid, p: Pass) {
    && Done(k, p.text, p.tally.nackedRows) && p.tally.nacked == |p.tally.nackedRows|
    && k.task.Idle?
  }

  ghost predicate ScanOk(k: Kid) {
    && (forall name | name in k.outbox :: k.outbox[name].stamp < k.clock)
    && (k.scan.Opened? ==> k.scan.name in k.outbox)
    && (k.scan.Reading? || k.scan.Complete? || k.scan.Listed? ==> k.scan.pass.name in k.outbox)
    && match k.scan
       case NoScan => true
       case Opened(_, stamp) => stamp < k.clock && k.task.Idle?
       case Reading(p) => ReadingOk(k, p)
       case Complete(p) => CompleteOk(k, p) && StampOk(k, p)
       case Listed(p, target) =>
         && CompleteOk(k, p) && StampOk(k, p) && p.tally.nacked > 0 && target !in k.nacked
         && SidecarOk(k, target, p.tally.nackedRows)
  }

  ghost predicate SidecarOk(k: Kid, target: string, rows: seq<(nat, Id)>) {
    target in k.sidecars && k.sidecars[target] == A.SidecarOf(k.core.ledger, rows)
  }

  /** The rows a move's sidecar lists. */
  function RowsOf(k: Kid, m: Move): seq<(nat, Id)> {
    A.NackedLines(k.core.ledger, A.KindsIn(m.read, k.device))
  }

  ghost predicate MoveOk(k: Kid, m: Move) {
    && Done(k, m.read, RowsOf(k, m))
    && if m.toSent then
         RowsOf(k, m) == [] && m.target in k.sent && k.sent[m.target] == m.moved
       else
         && RowsOf(k, m) != [] && m.target in k.nacked && k.nacked[m.target] == m.moved
         && SidecarOk(k, m.target, RowsOf(k, m))
  }

  ghost predicate MovesOk(k: Kid) {
    forall i | 0 <= i < |k.moves| :: MoveOk(k, k.moves[i])
  }

  ghost predicate FilesOk(k: Kid) { ScanOk(k) && MovesOk(k) }

  // -------------------------------------------------------------------
  // Ledger changes

  lemma DoneStays(k: Kid, k': Kid, read: string, rows: seq<(nat, Id)>)
    requires Done(k, read, rows) && k'.device == k.device && D.Keeps(k.core.ledger, k'.core.ledger)
    ensures Done(k', read, rows)
  {
    A.SettledStays(k.core.ledger, k'.core.ledger, A.KindsIn(read, k.device));
  }

  /** The sidecar rows are about nacked rows, which never change. */
  lemma SidecarStays(k: Kid, k': Kid, target: string, read: string, rows: seq<(nat, Id)>)
    requires Done(k, read, rows) && SidecarOk(k, target, rows)
    requires D.Keeps(k.core.ledger, k'.core.ledger)
    requires target in k'.sidecars && k'.sidecars[target] == k.sidecars[target]
    ensures SidecarOk(k', target, rows)
  {
    var a, b := A.SidecarOf(k.core.ledger, rows), A.SidecarOf(k'.core.ledger, rows);
    forall i | 0 <= i < |rows| ensures a[i] == b[i] {
      A.NackedLinesAre(k.core.ledger, A.KindsIn(read, k.device), rows[i]);
      assert rows[i] in rows;
    }
  }

  lemma MoveStays(k: Kid, k': Kid, m: Move)
    requires MoveOk(k, m) && k'.device == k.device && D.Keeps(k.core.ledger, k'.core.ledger)
    requires m.toSent ==> m.target in k'.sent && k'.sent[m.target] == k.sent[m.target]
    requires !m.toSent ==>
               && m.target in k'.nacked && k'.nacked[m.target] == k.nacked[m.target]
               && m.target in k'.sidecars && k'.sidecars[m.target] == k.sidecars[m.target]
    ensures MoveOk(k', m)
  {
    DoneStays(k, k', m.read, RowsOf(k, m));
    if !m.toSent {
      SidecarStays(k, k', m.target, m.read, RowsOf(k, m));
    }
  }

  /** Moved files and their sidecars are not overwritten. */
  ghost predicate DirsGrow(k: Kid, k': Kid) {
    && k'.device == k.device && D.Keeps(k.core.ledger, k'.core.ledger)
    && (forall f | f in k.sent :: f in k'.sent && k'.sent[f] == k.sent[f])
    && (forall f | f in k.nacked :: f in k'.nacked && k'.nacked[f] == k.nacked[f])
    && (forall f | f in k.nacked && f in k.sidecars :: f in k'.sidecars && k'.sidecars[f] == k.sidecars[f])
  }

  lemma MovesStay(k: Kid, k': Kid)
    requires MovesOk(k) && DirsGrow(k, k')
    ensures forall i | 0 <= i < |k.moves| :: MoveOk(k', k.moves[i])
  {
    forall i | 0 <= i < |k.moves| ensures MoveOk(k', k.moves[i]) {
      MoveStays(k, k', k.moves[i]);
    }
  }

  /** A step that leaves the files, the pass and the task alone. */
  lemma LedgerStep(k: Kid, k': Kid)
    requires FilesOk(k) && D.Keeps(k.core.ledger, k'.core.ledger)
    requires k' == k.(core := k'.core, notes := k'.notes)
    ensures FilesOk(k')
  {
    MovesStay(k, k');
    match k.scan {
      case NoScan =>
      case Opened(_, _) =>
      case Reading(p) =>
        A.FitsStays(p.tally, k.core.ledger, k'.core.ledger, Kinds(k)[..p.next]);
      case Complete(p) => DoneStays(k, k', p.text, p.tally.nackedRows);
      case Listed(p, target) =>
        DoneStays(k, k', p.text, p.tally.nackedRows);
        SidecarStays(k, k', target, p.text, p.tally.nackedRows);
    }
  }

  /** The pass counts what became of its current line. */
  lemma NotedOk(k: Kid, rec: Record, outcome: D.Outcome)
    requires ScanOk(k) && (k.scan.Reading? ==> IsCurrent(k, rec))
    requires outcome == D.PendingOutcome || outcome == D.OutcomeOf(k.core.ledger, rec.eventId)
    ensures k.scan.Opened? || k.scan.Complete? || k.scan.Listed? ||
            ScanOk(k.(task := Idle, scan := Noted(k.scan, rec.eventId, outcome)))
  {
    if k.scan.Reading? {
      var p := k.scan.pass;
      var n := p.next;
      A.FitsNext(p.tally, k.core.ledger, Kinds(k)[..n], Kinds(k)[n]);
      assert Kinds(k)[..n + 1] == Kinds(k)[..n] + [Kinds(k)[n]];
    }
  }

  // -------------------------------------------------------------------
  // Steps

  lemma RebootOk(k: Kid)
    requires FilesOk(k)
    ensures FilesOk(Rebooted(k))
  {
    MovesStay(k, Rebooted(k));
  }

  lemma StartOk(k: Kid, rec: Record, now: real, resendAfter: real)
    requires FilesOk(k) && k.task.Idle? && IsCurrent(k, rec)
    ensures FilesOk(Started(k, rec, now, resendAfter))
  {
    var k' := Started(k, rec, now, resendAfter);
    match D.Checked(k.core, rec, now, resendAfter) {
      case Return(outcome) =>
        NotedOk(k, rec, outcome);
        MovesStay(k, k');
      case Raise => RebootOk(k);
      case Publish(ledger) =>
        D.CheckKeeps(k.core, rec, now, resendAfter);
        var k1 := k.(core := k'.core);
        LedgerStep(k, k1);
        MovesStay(k1, k');
        assert k.scan.Reading? ==> IsCurrent(k', rec);
    }
  }

  lemma SettleOk(k: Kid, refused: bool)
    requires FilesOk(k) && k.task.Waiting?
    ensures var id := k.task.rec.eventId;
            FilesOk(k.(task := Idle, scan := Noted(k.scan, id, if refused then D.PendingOutcome
                                                               else D.OutcomeOf(k.core.ledger, id))))
  {
    var outcome := if refused then D.PendingOutcome else D.OutcomeOf(k.core.ledger, k.task.rec.eventId);
    NotedOk(k, k.task.rec, outcome);
    MovesStay(k, k.(task := Idle, scan := Noted(k.scan, k.task.rec.eventId, outcome)));
  }

  lemma SkipOk(k: Kid)
    requires FilesOk(k) && k.task.Idle? && AtLine(k) && !Kinds(k)[k.scan.pass.next].Carries?
    ensures FilesOk(Skipped(k))
  {
    var p := k.scan.pass;
    var n := p.next;
    A.FitsNext(p.tally, k.core.ledger, Kinds(k)[..n], Kinds(k)[n]);
    assert Kinds(k)[..n + 1] == Kinds(k)[..n] + [Kinds(k)[n]];
    MovesStay(k, Skipped(k));
  }

  lemma FinishOk(k: Kid, timeUp: bool)
    requires FilesOk(k) && k.task.Idle? && k.scan.Reading?
    requires timeUp <==> AtLine(k)
    ensures FilesOk(k.(scan := if IsComplete(k, k.scan.pass, timeUp) then Complete(k.scan.pass) else NoScan))
  {
    var p := k.scan.pass;
    if !timeUp {
      assert Kinds(k)[..p.next] == Kinds(k);
    }
    MovesStay(k, k.(scan := if IsComplete(k, p, timeUp) then Complete(p) else NoScan));
  }

  lemma MovedOk(k: Kid, target: string, toSent: bool)
    requires FilesOk(k) && (k.scan.Complete? || k.scan.Listed?)
    requires k.scan.pass.name in k.outbox
    requires toSent ==> k.scan.Complete? && k.scan.pass.tally.nacked == 0 && target !in k.sent
    requires !toSent ==> k.scan.Listed? && k.scan.target == target
    ensures FilesOk(Moved(k, target, toSent))
  {
    var k' := Moved(k, target, toSent);
    MovesStay(k, k');
    var m := k'.moves[|k.moves|];
    assert MoveOk(k', m);
  }

  lemma WriteSidecarOk(k: Kid, target: string)
    requires FilesOk(k) && k.scan.Complete? && k.scan.pass.tally.nacked > 0 && target !in k.nacked
    ensures FilesOk(k.(sidecars := k.sidecars[target := A.SidecarOf(k.core.ledger, k.scan.pass.tally.nackedRows)],
                       scan := Listed(k.scan.pass, target)))
  {
    MovesStay(k, k.(sidecars := k.sidecars[target := A.SidecarOf(k.core.ledger, k.scan.pass.tally.nackedRows)],
                    scan := Listed(k.scan.pass, target)));
  }

  lemma EditOk(k: Kid, name: string, text: string)
    requires FilesOk(k)
    ensures FilesOk(k.(outbox := k.outbox[name := File(text, k.clock)], clock := k.clock + 1))
  {
    MovesStay(k, k.(outbox := k.outbox[name := File(text, k.clock)], clock := k.clock + 1));
  }

  lemma PlainOk(k: Kid, k': Kid)
    requires FilesOk(k) && ScanOk(k') && k' == k.(task := k'.task, scan := k'.scan, attempts := k'.attempts)
    ensures FilesOk(k')
  {
    MovesStay(k, k');
  }

  /** The steps of `send` and of the callbacks. */
  lemma SendStepOk(p: Params, s: State, k: Kid, step: Step)
    requires step.Call? || step.Start? || step.Settle?
    requires KidEnabled(s, k, step) && FilesOk(k)
    ensures FilesOk(KidDo(p, s, k, step))
  {
    if step.Call? {
      D.CallbackKeeps(k.core, step.cb);
      LedgerStep(k, KidDo(p, s, k, step));
    } else if step.Start? {
      StartOk(k, step.rec, step.now, p.resendAfter);
    } else {
      SettleOk(k, step.refused);
    }
  }

  lemma MoveStepOk(p: Params, s: State, k: Kid, step: Step)
    requires step.MoveToSent? || step.WriteSidecar? || step.MoveToNacked?
    requires KidEnabled(s, k, step) && FilesOk(k)
    ensures FilesOk(KidDo(p, s, k, step))
  {
    if step.MoveToSent? {
      MovedOk(k, step.target, true);
    } else if step.WriteSidecar? {
      WriteSidecarOk(k, step.target);
    } else {
      MovedOk(k, k.scan.target, false);
    }
  }

  lemma PassStepOk(p: Params, s: State, k: Kid, step: Step)
    requires step.Open? || step.Read? || step.Skip? || step.Finish?
    requires KidEnabled(s, k, step) && FilesOk(k)
    ensures FilesOk(KidDo(p, s, k, step))
  {
    if step.Skip? {
      SkipOk(k);
    } else if step.Finish? {
      FinishOk(k, step.timeUp);
    } else {
      PlainOk(k, KidDo(p, s, k, step));
    }
  }

  lemma KidStepOk(p: Params, s: State, k: Kid, step: Step)
    requires IsKidStep(step) && KidEnabled(s, k, step) && FilesOk(k)
    ensures FilesOk(KidDo(p, s, k, step))
  {
    if step.Call? || step.Start? || step.Settle? {
      SendStepOk(p, s, k, step);
    } else if step.MoveToSent? || step.WriteSidecar? || step.MoveToNacked? {
      MoveStepOk(p, s, k, step);
    } else if step.Publish? {
      PlainOk(k, KidDo(p, s, k, step));
    } else if step.Restart? {
      RebootOk(k);
    } else if step.Edit? {
      EditOk(k, step.name, step.text);
    } else {
      PassStepOk(p, s, k, step);
    }
  }

  lemma {:induction false} RunOk(p: Params, s: State, steps: seq<Step>, t: State, c: string)
    requires c in s.kids && FilesOk(s.kids[c])
    requires IsRun(p, s, steps, t)
    ensures c in t.kids && FilesOk(t.kids[c])
    decreases |steps|
  {
    if steps != [] {
      var s1 := Do(p, s, steps[0]);
      if IsKidStep(steps[0]) && steps[0].kid == c {
        KidStepOk(p, s, s.kids[c], steps[0]);
      }
      RunOk(p, s1, steps[1..], t, c);
    }
  }

  lemma ReachableOk(p: Params, t: State, c: string)
    requires c in t.kids
    requires Reachable(p, t)
    ensures FilesOk(t.kids[c])
  {
    var s, steps :| Init(s) && IsRun(p, s, steps, t);
    Sessions.KidsAreFixed(p, s, steps, t);
    assert KidInit(s.kids[c]);
    RunOk(p, s, steps, t, c);
  }

  // -------------------------------------------------------------------
  // The theorems

  /** What the archive owes to a line of a file: it is blank, or it parses and its
      record is in Oracle, or it is listed in the sidecar and another row has its key. */
  predicate LineSound(t: Table, kind: A.Kind, listed: bool) {
    match kind
    case Blank => !listed
    case Invalid => false
    case Carries(rec) => if listed then Conflicts(t, rec) else Holds(t, rec)
  }

  /** Every line is sound without being listed. */
  predicate AllSound(t: Table, kinds: seq<A.Kind>) {
    forall n | 0 <= n < |kinds| :: LineSound(t, kinds[n], false)
  }

  predicate Lists(rows: seq<A.SidecarRow>, n: nat) {
    exists i | 0 <= i < |rows| :: rows[i].lineNo == n
  }

  /** The file's sidecar lists the line with index `n`, whose number is one more; a
      file in the sent directory has no sidecar. */
  predicate ListedIn(k: Kid, m: Move, n: nat) {
    !m.toSent && m.target in k.sidecars && Lists(k.sidecars[m.target], n + 1)
  }

  /** The moved file is sound, line by line, with its sidecar. */
  ghost predicate FileSound(t: Table, k: Kid, m: Move) {
    var kinds := A.KindsIn(m.moved, k.device);
    forall n: nat | n < |kinds| :: LineSound(t, kinds[n], ListedIn(k, m, n))
  }

  predicate Placed(k: Kid, m: Move) {
    if m.toSent then m.target in k.sent && k.sent[m.target] == m.moved
    else m.target in k.nacked && k.nacked[m.target] == m.moved && m.target in k.sidecars
  }

  /** A settled line of a child is sound, listed or not according to its ledger row. */
  lemma SettledIsSound(p: Params, t: State, c: string, text: string, n: nat)
    requires c in t.kids && n < |A.KindsIn(text, t.kids[c].device)|
    requires A.LineSettled(t.kids[c].core.ledger, A.KindsIn(text, t.kids[c].device)[n])
    requires Reachable(p, t)
    ensures var kind := A.KindsIn(text, t.kids[c].device)[n];
            LineSound(t.b.table, kind, A.IsNacked(t.kids[c].core.ledger, kind))
  {
    var k := t.kids[c];
    var kind := A.KindsIn(text, k.device)[n];
    if kind.Carries? {
      Safety.ReachableInv(p, t);
      assert Safety.KidOk(t.b.table, k);
      assert Safety.LedgerRowOk(t.b.table, k.device, kind.rec.eventId, k.core.ledger[kind.rec.eventId]);
      A.CarriedIsValid(text, k.device, n);
      EventIdInjective(kind.rec, k.core.ledger[kind.rec.eventId].payload);
    }
  }

  /** The sidecar lists exactly the nacked lines of the text that was read. */
  lemma ListedAreNacked(k: Kid, m: Move, n: nat)
    requires MoveOk(k, m)
    ensures var kinds := A.KindsIn(m.read, k.device);
            ListedIn(k, m, n) <==> n < |kinds| && A.IsNacked(k.core.ledger, kinds[n])
  {
    var rows := RowsOf(k, m);
    A.ListedIffNacked(k.core.ledger, A.KindsIn(m.read, k.device), n);
    if !m.toSent {
      var side := k.sidecars[m.target];
      if Lists(side, n + 1) {
        var i :| 0 <= i < |side| && side[i].lineNo == n + 1;
        assert rows[i].0 == n + 1;
        assert A.HasLine(rows, n + 1);
      }
      if A.HasLine(rows, n + 1) {
        var i :| 0 <= i < |rows| && rows[i].0 == n + 1;
        assert side[i].lineNo == n + 1;
      }
    }
  }

  lemma ReadLineSound(p: Params, t: State, c: string, i: nat, n: nat)
    requires c in t.kids && i < |t.kids[c].moves|
    requires n < |A.KindsIn(t.kids[c].moves[i].read, t.kids[c].device)|
    requires Reachable(p, t)
    ensures var k, m := t.kids[c], t.kids[c].moves[i];
            LineSound(t.b.table, A.KindsIn(m.read, k.device)[n], ListedIn(k, m, n))
  {
    var k, m := t.kids[c], t.kids[c].moves[i];
    ReachableOk(p, t, c);
    assert MoveOk(k, m);
    SettledIsSound(p, t, c, m.read, n);
    ListedAreNacked(k, m, n);
  }

  /** The move does not look at the file again, whichever directory it goes to. If
      `extra` was appended behind the text that was read, the sidecar lists none of it,
      and the file is sound if and only if every appended line happens to be blank or
      in Oracle. */
  lemma AppendedBeforeMove(p: Params, t: State, c: string, i: nat, extra: string)
    requires c in t.kids && i < |t.kids[c].moves|
    requires t.kids[c].moves[i].moved == t.kids[c].moves[i].read + extra
    requires Reachable(p, t)
    ensures var k, m := t.kids[c], t.kids[c].moves[i];
            && Placed(k, m) && A.EndsWithNewline(m.read)
            && (FileSound(t.b.table, k, m) <==> AllSound(t.b.table, A.KindsIn(extra, k.device)))
            && forall n: nat | n >= |A.KindsIn(m.read, k.device)| :: !ListedIn(k, m, n)
  {
    var k, m := t.kids[c], t.kids[c].moves[i];
    ReachableOk(p, t, c);
    assert MoveOk(k, m);
    var read, more, all := A.KindsIn(m.read, k.device), A.KindsIn(extra, k.device), A.KindsIn(m.moved, k.device);
    A.KindsAppended(m.read, extra, k.device);
    forall n: nat ensures ListedIn(k, m, n) ==> n < |read| {
      ListedAreNacked(k, m, n);
    }
    forall n: nat | n < |read| ensures LineSound(t.b.table, all[n], ListedIn(k, m, n)) {
      ReadLineSound(p, t, c, i, n);
      assert all[n] == read[n];
    }
    SoundParts(t.b.table, k, m, read, more);
  }

  lemma SoundParts(t: Table, k: Kid, m: Move, read: seq<A.Kind>, more: seq<A.Kind>)
    requires A.KindsIn(m.moved, k.device) == read + more
    requires forall n: nat | n < |read| :: LineSound(t, (read + more)[n], ListedIn(k, m, n))
    requires forall n: nat | n >= |read| :: !ListedIn(k, m, n)
    ensures FileSound(t, k, m) <==> AllSound(t, more)
  {
    var all := read + more;
    if FileSound(t, k, m) {
      forall n: nat | n < |more| ensures LineSound(t, more[n], false) {
        var j := |read| + n;
        assert all[j] == more[n] && LineSound(t, all[j], ListedIn(k, m, j));
      }
    }
    if AllSound(t, more) {
      forall n: nat | n < |all| ensures LineSound(t, all[n], ListedIn(k, m, n)) {
        if n >= |read| {
          assert more[n - |read|] == all[n];
        }
      }
    }
  }

  /** A file moved with the text that was read is sound: it ends in a newline, in
      the sent directory every line is blank or in Oracle, and in the nacked
      directory the same holds for every line but those the sidecar lists. */
  lemma ArchiveSound(p: Params, t: State, c: string, i: nat)
    requires c in t.kids && i < |t.kids[c].moves|
    requires t.kids[c].moves[i].moved == t.kids[c].moves[i].read
    requires Reachable(p, t)
    ensures var k, m := t.kids[c], t.kids[c].moves[i];
            Placed(k, m) && A.EndsWithNewline(m.moved) && FileSound(t.b.table, k, m)
  {
    var m := t.kids[c].moves[i];
    assert m.moved == m.read + [];
    AppendedBeforeMove(p, t, c, i, []);
  }

  /** Nothing edited the file since the pass began: then the move moves what was read. */
  lemma UneditedMove(p: Params, s: State, c: string)
    requires Reachable(p, s) && c in s.kids && (s.kids[c].scan.Complete? || s.kids[c].scan.Listed?)
    requires var k := s.kids[c]; k.scan.pass.name in k.outbox && k.outbox[k.scan.pass.name].stamp == k.scan.pass.stamp
    ensures s.kids[c].outbox[s.kids[c].scan.pass.name].text == s.kids[c].scan.pass.text
  {
    ReachableOk(p, s, c);
  }
}
