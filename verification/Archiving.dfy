/** One pass over a CSV file (`deliver_file`) and the move that may follow it.
    A file is named by its stem; every name ends in ".csv". */
module Archiving {
  import opened Text
  import opened Records
  import opened Delivery

  // -------------------------------------------------------------------
  // The lines of a file

  /** The lines that end in a newline. */
  function CompleteLines(text: string): seq<string> {
    var parts := Split(text, '\n');
    parts[..|parts| - 1]
  }

  predicate EndsWithNewline(text: string) { text == [] || text[|text| - 1] == '\n' }

  datatype Kind = Blank | Invalid | Carries(rec: Record)

  function KindOf(line: string, device: string): Kind {
    var s := Strip(line);
    if s == [] then Blank
    else match ParseLine(s, device)
      case None => Invalid
      case Some(rec) => Carries(rec)
  }

  /** A line is blank if it is white space only, carries a record if it parses to it, and
      is invalid otherwise. */
  lemma {:induction false} KindIs(line: string, device: string)
    ensures KindOf(line, device).Blank? <==> AllSpace(line)
    ensures forall rec :: KindOf(line, device) == Carries(rec) <==> ParseLine(line, device) == Some(rec)
  {
    BlankIff(line);
    StripTrims(line);
    StripTrims(Strip(line));
    if Strip(line) == [] {
      assert Split([], ',') == [[]];
    }
  }

  /** Each line with its newline, one after the other. */
  function Written(lines: seq<string>): string {
    if lines == [] then [] else lines[0] + "\n" + Written(lines[1..])
  }

  /** A text is its complete lines and a rest without a newline, in one way only. */
  lemma {:induction false} CompleteLinesAre(text: string, lines: seq<string>)
    ensures CompleteLines(text) == lines <==>
            && (forall line | line in lines :: '\n' !in line)
            && exists rest :: '\n' !in rest && text == Written(lines) + rest
  {
    if CompleteLines(text) == lines {
      JoinSplit(text, '\n');
      var parts := Split(text, '\n');
      var rest := parts[|parts| - 1];
      assert parts == lines + [rest];
      JoinIsWritten(lines, rest);
      assert forall line | line in lines :: line in parts;
      assert rest in parts;
    }
    if rest :| (forall line | line in lines :: '\n' !in line) && '\n' !in rest && text == Written(lines) + rest {
      JoinIsWritten(lines, rest);
      SplitJoin(lines + [rest], '\n');
    }
  }

  lemma {:induction false} JoinIsWritten(lines: seq<string>, rest: string)
    ensures Join(lines + [rest], '\n') == Written(lines) + rest
  {
    if lines == [] {
      assert lines + [rest] == [rest];
    } else {
      assert (lines + [rest])[1..] == lines[1..] + [rest];
      JoinIsWritten(lines[1..], rest);
      assert lines[0] + ['\n'] + (Written(lines[1..]) + rest) == lines[0] + "\n" + Written(lines[1..]) + rest;
    }
  }

  function ForEach(lines: seq<string>, f: string -> Kind): (r: seq<Kind>)
    ensures |r| == |lines|
  {
    if lines == [] then [] else ForEach(lines[..|lines| - 1], f) + [f(lines[|lines| - 1])]
  }

  lemma {:induction false} ForEachAt(lines: seq<string>, f: string -> Kind, i: nat)
    requires i < |lines|
    ensures ForEach(lines, f)[i] == f(lines[i])
  {
    if i < |lines| - 1 {
      ForEachAt(lines[..|lines| - 1], f, i);
    }
  }

  lemma {:induction false} ForEachConcat(a: seq<string>, b: seq<string>, f: string -> Kind)
    ensures ForEach(a + b, f) == ForEach(a, f) + ForEach(b, f)
  {
    if b == [] {
      assert a + b == a;
    } else {
      ForEachConcat(a, b[..|b| - 1], f);
      assert (a + b)[..|a + b| - 1] == a + b[..|b| - 1];
    }
  }

  function Reader(device: string): string -> Kind { line => KindOf(line, device) }

  function KindsOf(lines: seq<string>, device: string): (r: seq<Kind>)
    ensures |r| == |lines|
  {
    ForEach(lines, Reader(device))
  }

  lemma KindAt(lines: seq<string>, device: string, i: nat)
    requires i < |lines|
    ensures KindsOf(lines, device)[i] == KindOf(lines[i], device)
  {
    ForEachAt(lines, Reader(device), i);
  }

  /** The lines parse to these kinds; said of a line where it is parsed. */
  ghost predicate ReadAs(lines: seq<string>, device: string, kinds: seq<Kind>) {
    && |kinds| == |lines|
    && forall k {:trigger KindOf(lines[k], device)} | 0 <= k < |lines| :: kinds[k] == KindOf(lines[k], device)
  }

  lemma KindsAreRead(lines: seq<string>, device: string)
    ensures ReadAs(lines, device, KindsOf(lines, device))
  {
    forall k | 0 <= k < |lines| ensures KindsOf(lines, device)[k] == KindOf(lines[k], device) {
      KindAt(lines, device, k);
    }
  }

  lemma KindsConcat(a: seq<string>, b: seq<string>, device: string)
    ensures KindsOf(a + b, device) == KindsOf(a, device) + KindsOf(b, device)
  {
    ForEachConcat(a, b, Reader(device));
  }

  /** The complete lines of a file as the pass sees them. */
  function KindsIn(text: string, device: string): seq<Kind> {
    KindsOf(CompleteLines(text), device)
  }

  /** A record on a line is a valid record of the device. */
  lemma CarriedIsValid(text: string, device: string, i: nat)
    requires i < |KindsIn(text, device)| && KindsIn(text, device)[i].Carries?
    ensures Valid(KindsIn(text, device)[i].rec) && KindsIn(text, device)[i].rec.device == device
  {
    var line := CompleteLines(text)[i];
    KindAt(CompleteLines(text), device, i);
    ParsedIsValid(Strip(line), device);
  }

  /** Text behind a file's end leaves its complete lines in place. */
  lemma {:induction false} LinesStay(text: string, more: string)
    ensures CompleteLines(text) <= CompleteLines(text + more)
  {
    if text == [] {
      assert CompleteLines(text) == [];
    } else {
      var t := text[1..];
      LinesStay(t, more);
      assert (text + more)[1..] == t + more;
      assert Split(t, '\n')[..|Split(t, '\n')| - 1] <= Split(t + more, '\n');
    }
  }

  lemma KindsStay(text: string, longer: string, device: string)
    requires text <= longer
    ensures KindsIn(text, device) <= KindsIn(longer, device)
  {
    LinesStay(text, longer[|text|..]);
    assert longer == text + longer[|text|..];
    var a, b := CompleteLines(text), CompleteLines(longer);
    assert b == a + b[|a|..];
    KindsConcat(a, b[|a|..], device);
  }

  /** Behind a final newline the appended lines simply follow. */
  lemma KindsAppended(text: string, extra: string, device: string)
    requires EndsWithNewline(text)
    ensures KindsIn(text + extra, device) == KindsIn(text, device) + KindsIn(extra, device)
  {
    if text == [] {
      assert text + extra == extra;
    } else {
      var head := text[..|text| - 1];
      assert text == head + ['\n'] + [] && text + extra == head + ['\n'] + extra;
      SplitAt(head, [], '\n');
      SplitAt(head, extra, '\n');
      assert CompleteLines(text + extra) == CompleteLines(text) + CompleteLines(extra);
    }
    KindsConcat(CompleteLines(text), CompleteLines(extra), device);
  }

  predicate HasDecided(l: Ledger, id: Id) { id in l && Decided(l[id]) }

  /** The line needs nothing more: it is blank, or its record is acked or nacked. */
  predicate LineSettled(l: Ledger, kind: Kind) {
    match kind
    case Blank => true
    case Invalid => false
    case Carries(rec) => HasDecided(l, rec.eventId)
  }

  predicate Settled(l: Ledger, kinds: seq<Kind>) {
    forall i | 0 <= i < |kinds| :: LineSettled(l, kinds[i])
  }

  /** The record of the line is nacked. */
  predicate IsNacked(l: Ledger, kind: Kind) {
    kind.Carries? && kind.rec.eventId in l && l[kind.rec.eventId].status == Nacked
  }

  function NackedRow(l: Ledger, kind: Kind, n: nat): seq<(nat, Id)> {
    if IsNacked(l, kind) then [(n, kind.rec.eventId)] else []
  }

  /** The nacked lines with their numbers, in order. */
  function NackedLines(l: Ledger, kinds: seq<Kind>): seq<(nat, Id)> {
    if kinds == [] then []
    else
      var n := |kinds|;
      NackedLines(l, kinds[..n - 1]) + NackedRow(l, kinds[n - 1], n)
  }

  lemma {:induction false} NackedLinesAre(l: Ledger, kinds: seq<Kind>, row: (nat, Id))
    ensures row in NackedLines(l, kinds) <==>
            1 <= row.0 <= |kinds| && IsNacked(l, kinds[row.0 - 1]) && kinds[row.0 - 1].rec.eventId == row.1
  {
    if kinds != [] {
      var n := |kinds|;
      NackedLinesAre(l, kinds[..n - 1], row);
      assert row in NackedRow(l, kinds[n - 1], n) <==>
             row.0 == n && IsNacked(l, kinds[n - 1]) && kinds[n - 1].rec.eventId == row.1;
    }
  }

  predicate HasLine(rows: seq<(nat, Id)>, n: nat) { exists i | 0 <= i < |rows| :: rows[i].0 == n }

  /** Line `n` is listed exactly when it is nacked. */
  lemma ListedIffNacked(l: Ledger, kinds: seq<Kind>, n: nat)
    ensures HasLine(NackedLines(l, kinds), n + 1) <==> n < |kinds| && IsNacked(l, kinds[n])
  {
    var rows := NackedLines(l, kinds);
    if HasLine(rows, n + 1) {
      var i :| 0 <= i < |rows| && rows[i].0 == n + 1;
      assert rows[i] in rows;
      NackedLinesAre(l, kinds, rows[i]);
    }
    if n < |kinds| && IsNacked(l, kinds[n]) {
      NackedLinesAre(l, kinds, (n + 1, kinds[n].rec.eventId));
      var i :| 0 <= i < |rows| && rows[i] == (n + 1, kinds[n].rec.eventId);
      assert rows[i].0 == n + 1;
    }
  }

  lemma LineStays(a: Ledger, b: Ledger, kind: Kind, n: nat)
    requires Keeps(a, b) && LineSettled(a, kind)
    ensures LineSettled(b, kind) && NackedRow(b, kind, n) == NackedRow(a, kind, n)
  {}

  /** What is settled stays settled, with the same nacked lines. */
  lemma {:induction false} SettledStays(a: Ledger, b: Ledger, kinds: seq<Kind>)
    requires Keeps(a, b) && Settled(a, kinds)
    ensures Settled(b, kinds) && NackedLines(b, kinds) == NackedLines(a, kinds)
  {
    if kinds != [] {
      var n := |kinds|;
      assert forall i | 0 <= i < n - 1 :: kinds[..n - 1][i] == kinds[i];
      SettledStays(a, b, kinds[..n - 1]);
      LineStays(a, b, kinds[n - 1], n);
      forall i | 0 <= i < n ensures LineSettled(b, kinds[i]) {
        assert i < n - 1 ==> LineSettled(b, kinds[..n - 1][i]);
      }
    }
  }

  // -------------------------------------------------------------------
  // The pass

  datatype Tally = Tally(acked: nat, invalid: nat, pending: nat, nacked: nat, nackedRows: seq<(nat, Id)>)

  const EMPTY := Tally(0, 0, 0, 0, [])

  function Counted(t: Tally, lineNo: nat, id: Id, outcome: Outcome): Tally {
    match outcome
    case AckedOutcome => t.(acked := t.acked + 1)
    case NackedOutcome => t.(nacked := t.nacked + 1, nackedRows := t.nackedRows + [(lineNo, id)])
    case PendingOutcome => t.(pending := t.pending + 1)
  }

  /** A tally with nothing invalid and nothing pending says that the lines read
      so far are settled, and lists exactly the nacked ones. */
  predicate Fits(t: Tally, l: Ledger, kinds: seq<Kind>) {
    && t.nacked == |t.nackedRows|
    && (t.invalid == 0 && t.pending == 0 ==> Settled(l, kinds) && t.nackedRows == NackedLines(l, kinds))
  }

  lemma FitsStays(t: Tally, a: Ledger, b: Ledger, kinds: seq<Kind>)
    requires Keeps(a, b) && Fits(t, a, kinds)
    ensures Fits(t, b, kinds)
  {
    if t.invalid == 0 && t.pending == 0 {
      SettledStays(a, b, kinds);
    }
  }

  lemma FitsNext(t: Tally, l: Ledger, kinds: seq<Kind>, kind: Kind)
    requires Fits(t, l, kinds)
    ensures kind.Blank? ==> Fits(t, l, kinds + [kind])
    ensures kind.Invalid? ==> Fits(t.(invalid := t.invalid + 1), l, kinds + [kind])
    ensures kind.Carries? ==>
              && Fits(Counted(t, |kinds| + 1, kind.rec.eventId, PendingOutcome), l, kinds + [kind])
              && Fits(Counted(t, |kinds| + 1, kind.rec.eventId, OutcomeOf(l, kind.rec.eventId)), l, kinds + [kind])
  {
    assert (kinds + [kind])[..|kinds|] == kinds;
  }

  datatype DeliveryResult = DeliveryResult(tally: Tally, complete: bool)

  /** The callbacks and the clock around one line of the pass. */
  datatype LineEnv = LineEnv(before: seq<Callback>, now: real, accepted: bool, rounds: seq<seq<Callback>>)

  /** A pass on its way: ledger and session, the counts, and whether `send` raised. */
  datatype PassState = PassState(core: Core, tally: Tally, raised: bool)

  /** What the pass makes of a line: nothing, an invalid line, or what `send` told. */
  datatype Verdict = Nothing | Bad | Told(outcome: Outcome) | Raised

  function VerdictOn(c: Core, kind: Kind, env: LineEnv, resendAfter: real): Verdict {
    match kind
    case Blank => Nothing
    case Invalid => Bad
    case Carries(rec) =>
      match ResultOfSend(AfterAll(c, env.before), rec, env.now, resendAfter, env.accepted, env.rounds)
      case ContentMismatch => Raised
      case Sent(outcome) => Told(outcome)
  }

  function CoreAfter(c: Core, kind: Kind, env: LineEnv, resendAfter: real): Core {
    var c1 := AfterAll(c, env.before);
    if kind.Carries? then AfterSend(c1, kind.rec, env.now, resendAfter, env.accepted, env.rounds) else c1
  }

  function TallyAfter(t: Tally, verdict: Verdict, lineNo: nat, kind: Kind): Tally {
    match verdict
    case Bad => t.(invalid := t.invalid + 1)
    case Told(outcome) => Counted(t, lineNo, if kind.Carries? then kind.rec.eventId else "", outcome)
    case _ => t
  }

  function AfterLine(s: PassState, kind: Kind, lineNo: nat, env: LineEnv, resendAfter: real): PassState {
    var verdict := VerdictOn(s.core, kind, env, resendAfter);
    PassState(CoreAfter(s.core, kind, env, resendAfter), TallyAfter(s.tally, verdict, lineNo, kind), verdict.Raised?)
  }

  /** The callbacks before a line may as well be taken off it. */
  lemma CallbacksFirst(s: PassState, kind: Kind, lineNo: nat, env: LineEnv, resendAfter: real)
    ensures AfterLine(s, kind, lineNo, env, resendAfter) ==
            AfterLine(s.(core := AfterAll(s.core, env.before)), kind, lineNo, env.(before := []), resendAfter)
  {}

  /** What a pass has before it: the lines as they parse and what happens around each. */
  datatype Plan = Plan(kinds: seq<Kind>, envs: seq<LineEnv>, resendAfter: real) {
    predicate Fine() { |kinds| == |envs| }
  }

  /** The pass after its first `n` lines, or where it raised. */
  function AfterLines(c: Core, plan: Plan, n: nat): PassState
    requires plan.Fine() && n <= |plan.kinds|
  {
    if n == 0 then PassState(c, EMPTY, false)
    else
      var s := AfterLines(c, plan, n - 1);
      if s.raised then s else AfterLine(s, plan.kinds[n - 1], n, plan.envs[n - 1], plan.resendAfter)
  }

  lemma BlankLine(c: Core, plan: Plan, n: nat)
    requires plan.Fine() && 1 <= n <= |plan.kinds| && plan.kinds[n - 1].Blank? && !AfterLines(c, plan, n - 1).raised
    ensures var s := AfterLines(c, plan, n - 1);
            AfterLines(c, plan, n) == s.(core := AfterAll(s.core, plan.envs[n - 1].before))
  {}

  lemma InvalidLine(c: Core, plan: Plan, n: nat)
    requires plan.Fine() && 1 <= n <= |plan.kinds| && plan.kinds[n - 1].Invalid? && !AfterLines(c, plan, n - 1).raised
    ensures var s := AfterLines(c, plan, n - 1);
            AfterLines(c, plan, n) == PassState(AfterAll(s.core, plan.envs[n - 1].before),
                                                s.tally.(invalid := s.tally.invalid + 1), false)
  {}

  lemma CarryingLine(c: Core, plan: Plan, n: nat, rec: Record)
    requires plan.Fine() && 1 <= n <= |plan.kinds| && plan.kinds[n - 1] == Carries(rec)
    requires !AfterLines(c, plan, n - 1).raised
    ensures var s, env := AfterLines(c, plan, n - 1), plan.envs[n - 1];
            var c1 := AfterAll(s.core, env.before);
            var sent := ResultOfSend(c1, rec, env.now, plan.resendAfter, env.accepted, env.rounds);
            && AfterLines(c, plan, n).core ==
               AfterSend(c1, rec, env.now, plan.resendAfter, env.accepted, env.rounds)
            && AfterLines(c, plan, n).raised == sent.ContentMismatch?
            && AfterLines(c, plan, n).tally ==
               if sent.Sent? then Counted(s.tally, n, rec.eventId, sent.outcome) else s.tally
  {}

  lemma {:induction false} RaisedStays(c: Core, plan: Plan, m: nat, n: nat)
    requires plan.Fine() && m <= n <= |plan.kinds| && AfterLines(c, plan, m).raised
    ensures AfterLines(c, plan, n) == AfterLines(c, plan, m)
  {
    if m < n {
      RaisedStays(c, plan, m, n - 1);
    }
  }

  lemma LineKeeps(c: Core, kind: Kind, env: LineEnv, resendAfter: real)
    ensures Keeps(c.ledger, CoreAfter(c, kind, env, resendAfter).ledger)
  {
    CallbacksKeep(c, env.before);
    if kind.Carries? {
      SendKeeps(AfterAll(c, env.before), kind.rec, env.now, resendAfter, env.accepted, env.rounds);
    }
  }

  /** The counts fit the ledger after one more line. */
  lemma LineFits(s: PassState, earlier: seq<Kind>, kind: Kind, env: LineEnv, resendAfter: real)
    requires Fits(s.tally, s.core.ledger, earlier)
    requires !AfterLine(s, kind, |earlier| + 1, env, resendAfter).raised
    ensures var s' := AfterLine(s, kind, |earlier| + 1, env, resendAfter);
            Fits(s'.tally, s'.core.ledger, earlier + [kind])
  {
    var s' := AfterLine(s, kind, |earlier| + 1, env, resendAfter);
    LineKeeps(s.core, kind, env, resendAfter);
    FitsStays(s.tally, s.core.ledger, s'.core.ledger, earlier);
    FitsNext(s.tally, s'.core.ledger, earlier, kind);
    if kind.Carries? {
      SendKeeps(AfterAll(s.core, env.before), kind.rec, env.now, resendAfter, env.accepted, env.rounds);
    }
  }

  lemma {:induction false} PassKeeps(c: Core, plan: Plan, n: nat)
    requires plan.Fine() && n <= |plan.kinds|
    ensures Keeps(c.ledger, AfterLines(c, plan, n).core.ledger)
  {
    if n > 0 {
      PassKeeps(c, plan, n - 1);
      LineKeeps(AfterLines(c, plan, n - 1).core, plan.kinds[n - 1], plan.envs[n - 1], plan.resendAfter);
    }
  }

  /** With nothing invalid and nothing pending, the lines a pass read are settled and
      it listed exactly the nacked ones. */
  lemma {:induction false} PassFits(c: Core, plan: Plan, n: nat)
    requires plan.Fine() && n <= |plan.kinds| && !AfterLines(c, plan, n).raised
    ensures Fits(AfterLines(c, plan, n).tally, AfterLines(c, plan, n).core.ledger, plan.kinds[..n])
  {
    if n > 0 {
      PassFits(c, plan, n - 1);
      LineFits(AfterLines(c, plan, n - 1), plan.kinds[..n - 1], plan.kinds[n - 1], plan.envs[n - 1], plan.resendAfter);
      assert plan.kinds[..n] == plan.kinds[..n - 1] + [plan.kinds[n - 1]];
    }
  }

  /** The verdicts on the first `n` lines. */
  function Verdicts(c: Core, plan: Plan, n: nat): (r: seq<Verdict>)
    requires plan.Fine() && n <= |plan.kinds|
    ensures |r| == n
  {
    if n == 0 then []
    else
      Verdicts(c, plan, n - 1)
      + [VerdictOn(AfterLines(c, plan, n - 1).core, plan.kinds[n - 1], plan.envs[n - 1], plan.resendAfter)]
  }

  function HowMany(verdicts: seq<Verdict>, v: Verdict): nat {
    if verdicts == [] then 0
    else HowMany(verdicts[..|verdicts| - 1], v) + if verdicts[|verdicts| - 1] == v then 1 else 0
  }

  lemma HowManyNext(verdicts: seq<Verdict>, last: Verdict, v: Verdict)
    ensures HowMany(verdicts + [last], v) == HowMany(verdicts, v) + if last == v then 1 else 0
  {
    assert (verdicts + [last])[..|verdicts|] == verdicts;
  }

  lemma {:induction false} NoneIffAbsent(verdicts: seq<Verdict>, v: Verdict)
    ensures HowMany(verdicts, v) == 0 <==> v !in verdicts
  {
    if verdicts != [] {
      var n := |verdicts| - 1;
      NoneIffAbsent(verdicts[..n], v);
      assert verdicts == verdicts[..n] + [verdicts[n]];
    }
  }

  /** Each count is the number of lines with that verdict. */
  predicate Counts(t: Tally, verdicts: seq<Verdict>) {
    && t.invalid == HowMany(verdicts, Bad)
    && t.acked == HowMany(verdicts, Told(AckedOutcome))
    && t.nacked == HowMany(verdicts, Told(NackedOutcome))
    && t.pending == HowMany(verdicts, Told(PendingOutcome))
  }

  lemma CountsNext(t: Tally, verdicts: seq<Verdict>, verdict: Verdict, lineNo: nat, kind: Kind)
    requires Counts(t, verdicts)
    ensures Counts(TallyAfter(t, verdict, lineNo, kind), verdicts + [verdict])
  {
    HowManyNext(verdicts, verdict, Bad);
    HowManyNext(verdicts, verdict, Told(AckedOutcome));
    HowManyNext(verdicts, verdict, Told(NackedOutcome));
    HowManyNext(verdicts, verdict, Told(PendingOutcome));
  }

  predicate Matches(verdict: Verdict, kind: Kind) {
    match kind
    case Blank => verdict == Nothing
    case Invalid => verdict == Bad
    case Carries(_) => verdict.Told?
  }

  /** Blank lines count nowhere, invalid lines as invalid, every other line under what
      `send` told of it. */
  lemma TallyCounts(c: Core, plan: Plan, n: nat)
    requires plan.Fine() && n <= |plan.kinds| && !AfterLines(c, plan, n).raised
    ensures Counts(AfterLines(c, plan, n).tally, Verdicts(c, plan, n))
    ensures forall i | 0 <= i < n :: Matches(Verdicts(c, plan, n)[i], plan.kinds[i])
  {
    CountsHold(c, plan, n);
    VerdictsMatch(c, plan, n);
  }

  lemma {:induction false} CountsHold(c: Core, plan: Plan, n: nat)
    requires plan.Fine() && n <= |plan.kinds| && !AfterLines(c, plan, n).raised
    ensures Counts(AfterLines(c, plan, n).tally, Verdicts(c, plan, n))
  {
    if n > 0 {
      CountsHold(c, plan, n - 1);
      var s := AfterLines(c, plan, n - 1);
      var verdict := VerdictOn(s.core, plan.kinds[n - 1], plan.envs[n - 1], plan.resendAfter);
      CountsNext(s.tally, Verdicts(c, plan, n - 1), verdict, n, plan.kinds[n - 1]);
    }
  }

  lemma {:induction false} VerdictsMatch(c: Core, plan: Plan, n: nat)
    requires plan.Fine() && n <= |plan.kinds| && !AfterLines(c, plan, n).raised
    ensures forall i | 0 <= i < n :: Matches(Verdicts(c, plan, n)[i], plan.kinds[i])
  {
    if n > 0 {
      VerdictsMatch(c, plan, n - 1);
      VerdictMatches(AfterLines(c, plan, n - 1).core, plan.kinds[n - 1], plan.envs[n - 1], plan.resendAfter);
    }
  }

  lemma VerdictMatches(c: Core, kind: Kind, env: LineEnv, resendAfter: real)
    ensures VerdictOn(c, kind, env, resendAfter).Raised? || Matches(VerdictOn(c, kind, env, resendAfter), kind)
  {}

  /** The pass did not stop early and the file is as it was, whole lines only. */
  predicate ReadAll(text: string, timeUp: Option<nat>, sameStat: bool) {
    Reached(text, timeUp) == |CompleteLines(text)| && EndsWithNewline(text) && sameStat
  }

  predicate IsComplete(text: string, timeUp: Option<nat>, sameStat: bool, t: Tally) {
    ReadAll(text, timeUp, sameStat) && t.invalid == 0 && t.pending == 0
  }

  predicate Answered(v: Verdict) { v.Nothing? || (v.Told? && v.outcome != PendingOutcome) }

  predicate AllAnswered(verdicts: seq<Verdict>) { forall i | 0 <= i < |verdicts| :: Answered(verdicts[i]) }

  /** A pass is complete exactly when the time limit stopped it at no line, the file ends in
      a newline and is as it was, no line is invalid, and every `send` told acked or nacked. */
  lemma CompleteIff(c: Core, plan: Plan, text: string, timeUp: Option<nat>, sameStat: bool)
    requires plan.Fine() && |plan.kinds| == |CompleteLines(text)| && !AfterLines(c, plan, Reached(text, timeUp)).raised
    ensures IsComplete(text, timeUp, sameStat, AfterLines(c, plan, Reached(text, timeUp)).tally) <==>
            && (timeUp.Some? ==> timeUp.value >= |CompleteLines(text)|)
            && (text == [] || text[|text| - 1] == '\n') && sameStat
            && AllAnswered(Verdicts(c, plan, Reached(text, timeUp)))
  {
    var n := Reached(text, timeUp);
    var vs, t := Verdicts(c, plan, n), AfterLines(c, plan, n).tally;
    TallyCounts(c, plan, n);
    NoneIffAbsent(vs, Bad);
    NoneIffAbsent(vs, Told(PendingOutcome));
    forall i | 0 <= i < |vs|
      ensures Answered(vs[i]) <==> vs[i] != Bad && vs[i] != Told(PendingOutcome)
    {
      assert Matches(vs[i], plan.kinds[i]) && vs[i] in vs;
    }
    assert forall v | v in vs :: exists i | 0 <= i < |vs| :: vs[i] == v;
    assert t.invalid == 0 && t.pending == 0 <==> Bad !in vs && Told(PendingOutcome) !in vs;
  }

  lemma RaisesHere(c: Core, plan: Plan, i: nat)
    requires plan.Fine() && i < |plan.kinds| && !AfterLines(c, plan, i).raised
    ensures AfterLines(c, plan, i + 1).raised <==> RaisesAt(c, plan, i)
  {
    var c1 := AfterAll(AfterLines(c, plan, i).core, plan.envs[i].before);
    if plan.kinds[i].Carries? {
      CarryingLine(c, plan, i + 1, plan.kinds[i].rec);
      SendsExactlyWhen(c1, plan.kinds[i].rec, plan.envs[i].now, plan.resendAfter);
    }
  }

  /** A pass raises exactly when the `send` of one of its lines does: its subscribed session
      has another record, not a legacy one, under the line's id. */
  lemma {:induction false} RaisesIff(c: Core, plan: Plan, n: nat)
    requires plan.Fine() && n <= |plan.kinds|
    ensures AfterLines(c, plan, n).raised <==> exists i | 0 <= i < n :: RaisesAt(c, plan, i)
  {
    if n > 0 {
      RaisesIff(c, plan, n - 1);
      if !AfterLines(c, plan, n - 1).raised {
        RaisesHere(c, plan, n - 1);
        assert RaisesAt(c, plan, n - 1) ==> exists i | 0 <= i < n :: RaisesAt(c, plan, i);
      }
    }
  }

  predicate RaisesAt(c: Core, plan: Plan, i: nat)
    requires plan.Fine() && i < |plan.kinds|
  {
    var c1 := AfterAll(AfterLines(c, plan, i).core, plan.envs[i].before);
    plan.kinds[i].Carries? && c1.session.subscribed &&
    var rec := plan.kinds[i].rec;
    rec.eventId in c1.ledger && c1.ledger[rec.eventId].status != Legacy && c1.ledger[rec.eventId].payload != rec
  }

  /** `deliver_file`. `timeUp` is the line index at which the time limit is
      noticed, `sameStat` the comparison of the two `stat` results. `None` is the
      content mismatch raised by `send`. */
  method DeliverFile(text: string, session: AckSession, device: string,
                     envs: seq<LineEnv>, timeUp: Option<nat>, sameStat: bool)
    returns (result: Option<DeliveryResult>)
    requires |envs| == |CompleteLines(text)|
    modifies session, session.store.db
    ensures var plan := Plan(KindsIn(text, device), envs, session.resendAfter);
            var s := AfterLines(old(session.View()), plan, Reached(text, timeUp));
            && session.View() == s.core
            && result == if s.raised then None
                         else Some(DeliveryResult(s.tally, IsComplete(text, timeUp, sameStat, s.tally)))
    ensures Keeps(old(session.View()).ledger, session.View().ledger)
    ensures result.Some? ==>
              Fits(result.value.tally, session.View().ledger, KindsIn(text, device)[..Reached(text, timeUp)])
    ensures result.Some? && result.value.complete ==>
              && Settled(session.View().ledger, KindsIn(text, device))
              && result.value.tally.nackedRows == NackedLines(session.View().ledger, KindsIn(text, device))
  {
    ghost var c, n := session.View(), Reached(text, timeUp);
    ghost var plan := Plan(KindsIn(text, device), envs, session.resendAfter);
    PassKeeps(c, plan, n);
    KindsAreRead(CompleteLines(text), device);
    var t, truncated, raised := DeliverLines(CompleteLines(text), session, device, envs, timeUp, plan);
    if raised {
      return None;
    }
    PassFits(c, plan, n);
    if !truncated {
      assert plan.kinds[..n] == plan.kinds;
    }
    var complete := !truncated && EndsWithNewline(text) && sameStat && t.invalid == 0 && t.pending == 0;
    return Some(DeliveryResult(t, complete));
  }

  /** The loop over the lines. */
  method DeliverLines(lines: seq<string>, session: AckSession, device: string, envs: seq<LineEnv>, timeUp: Option<nat>,
                      ghost plan: Plan)
    returns (t: Tally, truncated: bool, raised: bool)
    requires plan.Fine() && plan.envs == envs && plan.resendAfter == session.resendAfter && |lines| == |envs|
    requires ReadAs(lines, device, plan.kinds)
    modifies session, session.store.db
    ensures AfterLines(old(session.View()), plan, Stop(|lines|, timeUp)) == PassState(session.View(), t, raised)
    ensures !raised ==> truncated == (Stop(|lines|, timeUp) < |lines|)
  {
    ghost var c, n := session.View(), Stop(|lines|, timeUp);
    t, truncated, raised := EMPTY, false, false;
    var i := 0;
    while i < |lines| && !raised
      invariant i <= n && !truncated
      invariant AfterLines(c, plan, i) == PassState(session.View(), t, raised)
      decreases |lines| - i
    {
      if timeUp == Some(i) {
        truncated := true;
        return;
      }
      t, raised := DeliverLine(lines, i, t, session, device, envs[i], c, plan);
      i := i + 1;
    }
    if raised {
      RaisedStays(c, plan, i, n);
    }
  }

  /** The body of the loop, in a pass that began with `c`. */
  method DeliverLine(lines: seq<string>, i: nat, t: Tally, session: AckSession, device: string, env: LineEnv,
                     ghost c: Core, ghost plan: Plan)
    returns (t': Tally, raised: bool)
    requires plan.Fine() && ReadAs(lines, device, plan.kinds) && i < |lines|
    requires plan.resendAfter == session.resendAfter && plan.envs[i] == env
    requires AfterLines(c, plan, i) == PassState(session.View(), t, false)
    modifies session, session.store.db
    ensures AfterLines(c, plan, i + 1) == PassState(session.View(), t', raised)
  {
    t', raised := t, false;
    session.Sleep(env.before);
    match KindOf(lines[i], device) {
      case Blank => BlankLine(c, plan, i + 1);
      case Invalid =>
        t' := t.(invalid := t.invalid + 1);
        InvalidLine(c, plan, i + 1);
      case Carries(rec) =>
        CarryingLine(c, plan, i + 1, rec);
        var sent := session.Send(rec, env.now, env.accepted, env.rounds);
        if sent.ContentMismatch? {
          raised := true;
          return;
        }
        t' := Counted(t, i + 1, rec.eventId, sent.outcome);
    }
  }

  /** The line at which a pass over `n` lines stops. */
  function Stop(n: nat, timeUp: Option<nat>): (m: nat)
    ensures m <= n
  {
    if timeUp.Some? && timeUp.value < n then timeUp.value else n
  }

  function Reached(text: string, timeUp: Option<nat>): nat { Stop(|CompleteLines(text)|, timeUp) }

  // -------------------------------------------------------------------
  // Where the file goes

  function Numbered(stem: string, n: nat): string { stem + "." + NatText(n) }

  lemma NumberedDistinct(stem: string, a: nat, b: nat)
    requires Numbered(stem, a) == Numbered(stem, b)
    ensures a == b
  {
    assert Numbered(stem, a)[|stem| + 1..] == NatText(a) && Numbered(stem, b)[|stem| + 1..] == NatText(b);
    NatTextInjective(a, b);
  }

  /** The first free name: the file's own, else the one with the least number. */
  ghost predicate IsTarget(stem: string, taken: set<string>, target: string) {
    && target !in taken
    && (stem !in taken ==> target == stem)
    && (stem in taken ==>
          exists n: nat | n >= 1 ::
            target == Numbered(stem, n) && forall m: nat | 1 <= m < n :: Numbered(stem, m) in taken)
  }

  method ChooseTarget(stem: string, taken: set<string>) returns (target: string)
    ensures IsTarget(stem, taken, target)
  {
    target := stem;
    if target in taken {
      var n := 1;
      var candidate := Numbered(stem, n);
      ghost var tried := {};
      while candidate in taken
        invariant n >= 1 && candidate == Numbered(stem, n)
        invariant forall m: nat | 1 <= m < n :: Numbered(stem, m) in taken
        invariant tried <= taken && |taken - tried| == |taken| - (n - 1)
        invariant forall m: nat | n <= m :: Numbered(stem, m) !in tried
        decreases |taken - tried|
      {
        forall m: nat | n < m ensures Numbered(stem, m) != candidate {
          if Numbered(stem, m) == candidate {
            NumberedDistinct(stem, m, n);
          }
        }
        assert taken - (tried + {candidate}) == (taken - tried) - {candidate};
        tried := tried + {candidate};
        n := n + 1;
        candidate := Numbered(stem, n);
      }
      target := candidate;
    }
  }

  lemma {:induction false} FreeNumberExists(stem: string, taken: set<string>, n: nat) returns (m: nat)
    ensures n <= m && Numbered(stem, m) !in taken
    ensures forall i: nat | n <= i < m :: Numbered(stem, i) in taken
    decreases taken
  {
    if Numbered(stem, n) !in taken {
      m := n;
    } else {
      m := FreeNumberExists(stem, taken - {Numbered(stem, n)}, n + 1);
      if Numbered(stem, m) == Numbered(stem, n) {
        NumberedDistinct(stem, m, n);
      }
    }
  }

  lemma TargetExists(stem: string, taken: set<string>) returns (target: string)
    ensures IsTarget(stem, taken, target)
  {
    target := stem;
    if stem in taken {
      var m := FreeNumberExists(stem, taken, 1);
      target := Numbered(stem, m);
    }
  }

  /** It is free, and the file's own name or, if that is taken, that name with a number. */
  lemma TargetIs(stem: string, taken: set<string>, target: string)
    requires IsTarget(stem, taken, target)
    ensures target !in taken
    ensures target == stem || (stem in taken && exists n: nat :: n >= 1 && target == stem + "." + NatText(n))
  {
    if stem in taken {
      var n: nat :| n >= 1 && target == Numbered(stem, n);
      assert target == stem + "." + NatText(n);
    }
  }

  lemma TargetUnique(stem: string, taken: set<string>, a: string, b: string)
    requires IsTarget(stem, taken, a) && IsTarget(stem, taken, b)
    ensures a == b
  {}

  datatype SidecarRow = SidecarRow(
    lineNo: nat, eventId: Id, mkDate: Option<string>, reason: Option<string>, failedAt: Option<int>)

  function SidecarRowOf(l: Ledger, row: (nat, Id)): SidecarRow {
    if row.1 in l then
      SidecarRow(row.0, row.1, Some(l[row.1].mkDate), l[row.1].nackReason, l[row.1].nackedAt)
    else SidecarRow(row.0, row.1, None, None, None)
  }

  function SidecarOf(l: Ledger, rows: seq<(nat, Id)>): (r: seq<SidecarRow>)
    ensures |r| == |rows|
    ensures forall i | 0 <= i < |r| :: r[i] == SidecarRowOf(l, rows[i])
  {
    seq(|rows|, i requires 0 <= i < |rows| => SidecarRowOf(l, rows[i]))
  }

  /** What the four places on the disk hold. */
  datatype Shelves = Shelves(outbox: map<string, string>, sent: map<string, string>, nacked: map<string, string>,
                             sidecars: map<string, seq<SidecarRow>>)

  /** The file left the outbox for `target`, in one of the two directories. */
  function Shelved(s: Shelves, name: string, target: string, toSent: bool): Shelves
    requires name in s.outbox
  {
    s.(outbox := map n | n in s.outbox && n != name :: s.outbox[n],
       sent := if toSent then s.sent[target := s.outbox[name]] else s.sent,
       nacked := if toSent then s.nacked else s.nacked[target := s.outbox[name]])
  }

  /** An incomplete pass leaves everything in place. A complete one moves the file to
      the first free name of the directory its nacks decide; a move overwrites nothing,
      and with nacks a sidecar lists them. */
  ghost predicate IsArchived(before: Shelves, name: string, result: DeliveryResult, l: Ledger, target: Option<string>,
                             after: Shelves)
    requires name in before.outbox
  {
    if !result.complete then target.None? && after == before
    else if result.tally.nacked == 0 then
      && target.Some? && IsTarget(name, before.sent.Keys, target.value)
      && after == Shelved(before, name, target.value, true)
    else
      && target.Some? && IsTarget(name, before.nacked.Keys, target.value)
      && after == Shelved(before, name, target.value, false)
           .(sidecars := before.sidecars[target.value := SidecarOf(l, result.tally.nackedRows)])
  }

  class Folders {
    var outbox: map<string, string>
    var sent: map<string, string>
    var nacked: map<string, string>
    var sidecars: map<string, seq<SidecarRow>>

    function View(): Shelves
      reads this
    {
      Shelves(outbox, sent, nacked, sidecars)
    }

    /** `archive_to_destination` */
    method ArchiveToDestination(name: string, result: DeliveryResult, store: DeliveryStore)
      returns (target: Option<string>)
      requires name in outbox && result.tally.nacked == |result.tally.nackedRows|
      modifies this
      ensures IsArchived(old(View()), name, result, store.Ledger(), target, View())
    {
      if !result.complete {
        return None;
      }
      if result.tally.nacked == 0 {
        var where := ChooseTarget(name, sent.Keys);
        Move(name, where, true);
        return Some(where);
      }
      var where := ChooseTarget(name, nacked.Keys);
      var rows := [];
      for i := 0 to |result.tally.nackedRows|
        invariant rows == SidecarOf(store.Ledger(), result.tally.nackedRows)[..i]
        invariant unchanged(this)
      {
        var entry := result.tally.nackedRows[i];
        var row := store.Get(entry.1);
        rows := rows + [if row.Some? then
                          SidecarRow(entry.0, entry.1, Some(row.value.mkDate), row.value.nackReason, row.value.nackedAt)
                        else SidecarRow(entry.0, entry.1, None, None, None)];
      }
      assert rows == SidecarOf(store.Ledger(), result.tally.nackedRows);
      sidecars := sidecars[where := rows];
      Move(name, where, false);
      return Some(where);
    }

    method Move(name: string, target: string, toSent: bool)
      requires name in outbox
      modifies this`outbox, this`sent, this`nacked
      ensures View() == Shelved(old(View()), name, target, toSent)
    {
      if toSent {
        sent := sent[target := outbox[name]];
      } else {
        nacked := nacked[target := outbox[name]];
      }
      outbox := map n | n in outbox && n != name :: outbox[n];
    }
  }
}
