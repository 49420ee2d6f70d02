/** The web server's sender: it publishes each log file from a saved count of
    lines already sent. */
module Cursor {
  import opened Text
  import opened Records
  import A = Archiving

  type Logs = map<string, string>
  type Cursors = map<string, nat>

  function Lines(logs: Logs, name: string): seq<string> {
    if name in logs then A.CompleteLines(logs[name]) else []
  }

  function At(cursors: Cursors, name: string): nat {
    if name in cursors then cursors[name] else 0
  }

  /** The loop's variables. `budget` is how many publishes the broker will still
      confirm; the first one beyond raises, and `slips` tells whether that message
      went out all the same. */
  datatype Pass = Pass(cursors: Cursors, published: seq<Record>, budget: nat, slips: bool, failed: bool,
                       progressed: bool, count: nat)

  function Advanced(p: Pass, name: string): Pass {
    p.(cursors := p.cursors[name := At(p.cursors, name) + 1], progressed := true)
  }

  function SendLine(p: Pass, name: string, line: string, device: string): Pass {
    SendParsed(p, name, ParseLine(line, device))
  }

  function SendParsed(p: Pass, name: string, parsed: Option<Record>): Pass {
    match parsed
    case None => Advanced(p, name)
    case Some(rec) =>
      if p.budget == 0 then
        p.(failed := true, published := p.published + if p.slips then [rec] else [])
      else
        Advanced(p, name).(published := p.published + [rec], budget := p.budget - 1, count := p.count + 1)
  }

  function SendLines(p: Pass, name: string, lines: seq<string>, device: string): Pass
    decreases |lines|
  {
    if lines == [] || p.failed then p
    else SendLines(SendLine(p, name, lines[0], device), name, lines[1..], device)
  }

  datatype Target = Target(name: string, lines: seq<string>)

  function SendAll(p: Pass, targets: seq<Target>, device: string): Pass
    decreases |targets|
  {
    if targets == [] || p.failed then p
    else SendAll(SendLines(p, targets[0].name, targets[0].lines, device), targets[1..], device)
  }

  function Unsent(name: string, lines: seq<string>, sent: nat): seq<Target> {
    if |lines| > sent then [Target(name, lines[sent..])] else []
  }

  function Targets(order: seq<string>, logs: Logs, saved: Cursors): seq<Target> {
    if order == [] then []
    else Unsent(order[0], Lines(logs, order[0]), At(saved, order[0])) + Targets(order[1..], logs, saved)
  }

  lemma NextTarget(found: seq<Target>, order: seq<string>, i: nat, logs: Logs, saved: Cursors)
    requires i < |order|
    ensures found + Targets(order[i..], logs, saved) ==
            found + Unsent(order[i], Lines(logs, order[i]), At(saved, order[i])) + Targets(order[i + 1..], logs, saved)
  {
    assert order[i..][1..] == order[i + 1..];
  }

  /** What becomes of the cursor file: written; left as it was; or emptied, when
      the process dies between opening and writing, which reads back as no cursors. */
  datatype Save = Written | Left | Emptied

  function SavedAs(save: Save, before: Cursors, cursors: Cursors, names: set<string>): Cursors {
    match save
    case Written => map n | n in cursors && n in names :: cursors[n]
    case Left => before
    case Emptied => map[]
  }

  // -------------------------------------------------------------------
  // Runs

  datatype State = State(logs: Logs, saved: Cursors, published: seq<Record>)

  /** Files grow, appear and go, and a new file does not take a name that the cursor
      file remembers. */
  predicate Grows(s: State, later: Logs) {
    forall n | n in later :: if n in s.logs then s.logs[n] <= later[n] else n !in s.saved
  }

  predicate ListsAll(order: seq<string>, logs: Logs) {
    && (forall n | n in order :: n in logs) && (forall n | n in logs :: n in order)
    && forall i, j | 0 <= i < j < |order| :: order[i] != order[j]
  }

  /** The log folder may change in any way. A round reads the folder and the cursors
      once, at its start; `later` is the folder by the time it saves. */
  datatype Step =
    | Changed(later: Logs)
    | Round(order: seq<string>, later: Logs, connects: bool, budget: nat, slips: bool, save: Save)

  predicate Enabled(s: State, step: Step) {
    step.Round? ==> ListsAll(step.order, s.logs)
  }

  function Sent(s: State, step: Step, device: string): Pass
    requires step.Round?
  {
    var p := Pass(s.saved, s.published, step.budget, step.slips, !step.connects, false, 0);
    SendAll(p, Targets(step.order, s.logs, s.saved), device)
  }

  function Do(s: State, step: Step, device: string): State {
    if step.Changed? then s.(logs := step.later)
    else
      var p := Sent(s, step, device);
      State(step.later,
            if p.progressed then SavedAs(step.save, s.saved, p.cursors, step.later.Keys) else s.saved,
            p.published)
  }

  predicate IsRun(s: State, steps: seq<Step>, device: string)
    decreases |steps|
  {
    steps == [] || (Enabled(s, steps[0]) && IsRun(Do(s, steps[0], device), steps[1..], device))
  }

  predicate OnlyGrows(s: State, steps: seq<Step>, device: string)
    decreases |steps|
  {
    steps == [] || (Grows(s, steps[0].later) && OnlyGrows(Do(s, steps[0], device), steps[1..], device))
  }

  function After(s: State, steps: seq<Step>, device: string): State
    decreases |steps|
  {
    if steps == [] then s else After(Do(s, steps[0], device), steps[1..], device)
  }

  const START := State(map[], map[], [])

  // -------------------------------------------------------------------
  // What holds

  /** The first `n` lines are there, and each valid one among them was published. */
  predicate Covered(lines: seq<string>, n: nat, published: seq<Record>, device: string) {
    && n <= |lines|
    && forall i | 0 <= i < n && ParseLine(lines[i], device).Some? :: ParseLine(lines[i], device).value in published
  }

  predicate AllCovered(logs: Logs, cursors: Cursors, published: seq<Record>, device: string) {
    forall n | n in logs :: Covered(Lines(logs, n), At(cursors, n), published, device)
  }

  lemma CoveredGrows(lines: seq<string>, more: seq<string>, n: nat, published: seq<Record>, others: seq<Record>,
                     device: string)
    requires Covered(lines, n, published, device) && lines <= more && published <= others
    ensures Covered(more, n, others, device)
  {
    forall i | 0 <= i < n && ParseLine(more[i], device).Some?
      ensures ParseLine(more[i], device).value in others
    {
      assert lines[i] == more[i];
    }
  }

  lemma CoveredInLater(s: State, later: Logs, cursors: Cursors, published: seq<Record>, device: string)
    requires Grows(s, later) && AllCovered(s.logs, cursors, published, device)
    requires forall n | n in cursors :: n in s.logs || n in s.saved
    ensures AllCovered(later, cursors, published, device)
  {
    forall n | n in later
      ensures Covered(Lines(later, n), At(cursors, n), published, device)
    {
      if n in s.logs {
        A.LinesStay(s.logs[n], later[n][|s.logs[n]|..]);
        assert later[n] == s.logs[n] + later[n][|s.logs[n]|..];
        CoveredGrows(Lines(s.logs, n), Lines(later, n), At(cursors, n), published, published, device);
      }
    }
  }

  /** One file: the cursor goes over the lines it was given, publishing the valid
      ones, to the end unless a publish fails. */
  lemma {:induction false} FileSent(p: Pass, name: string, full: seq<string>, device: string)
    requires Covered(full, At(p.cursors, name), p.published, device)
    ensures var q := SendLines(p, name, full[At(p.cursors, name)..], device);
            && Covered(full, At(q.cursors, name), q.published, device)
            && p.published <= q.published
            && (forall n | n != name :: (n in p.cursors <==> n in q.cursors) && At(q.cursors, n) == At(p.cursors, n))
            && (name in q.cursors ==> name in p.cursors || full != [])
            && (!q.failed ==> At(q.cursors, name) == |full|)
            && (p.progressed ==> q.progressed) && (q.progressed || q.cursors == p.cursors)
    decreases |full| - At(p.cursors, name)
  {
    if At(p.cursors, name) < |full| && !p.failed {
      var q := FirstLineSent(p, name, full, device);
      if !q.failed {
        FileSent(q, name, full, device);
      }
    }
  }

  lemma FirstLineSent(p: Pass, name: string, full: seq<string>, device: string) returns (q: Pass)
    requires Covered(full, At(p.cursors, name), p.published, device) && At(p.cursors, name) < |full| && !p.failed
    ensures var c := At(p.cursors, name);
            && SendLines(p, name, full[c..], device) ==
               (if q.failed then q else SendLines(q, name, full[c + 1..], device))
            && Covered(full, At(q.cursors, name), q.published, device) && p.published <= q.published
            && q.cursors == (if q.failed then p.cursors else p.cursors[name := c + 1])
            && (p.progressed || !q.failed ==> q.progressed)
  {
    var c := At(p.cursors, name);
    q := SendLine(p, name, full[c], device);
    LineSent(p, name, full, device);
    assert full[c..][0] == full[c] && full[c..][1..] == full[c + 1..];
    if q.failed {
      assert SendLines(q, name, full[c + 1..], device) == q;
    }
  }

  /** One line: the cursor goes over it unless its publish fails. */
  lemma LineSent(p: Pass, name: string, full: seq<string>, device: string)
    requires Covered(full, At(p.cursors, name), p.published, device) && At(p.cursors, name) < |full| && !p.failed
    ensures var q := SendLine(p, name, full[At(p.cursors, name)], device);
            && Covered(full, At(q.cursors, name), q.published, device) && p.published <= q.published
            && q.cursors == (if q.failed then p.cursors else p.cursors[name := At(p.cursors, name) + 1])
            && (p.progressed || !q.failed ==> q.progressed)
  {
    var c := At(p.cursors, name);
    var q := SendParsed(p, name, ParseLine(full[c], device));
    ParsedSent(p, name, ParseLine(full[c], device));
    CoveredGrows(full, full, c, p.published, q.published, device);
    if !q.failed {
      CoveredNext(full, c, q.published, device);
    }
  }

  lemma CoveredNext(full: seq<string>, c: nat, published: seq<Record>, device: string)
    requires Covered(full, c, published, device) && c < |full|
    requires ParseLine(full[c], device).Some? ==> ParseLine(full[c], device).value in published
    ensures Covered(full, c + 1, published, device)
  {}

  lemma ParsedSent(p: Pass, name: string, parsed: Option<Record>)
    requires !p.failed
    ensures var q := SendParsed(p, name, parsed);
            && p.published <= q.published && (parsed.Some? && !q.failed ==> parsed.value in q.published)
            && q.cursors == (if q.failed then p.cursors else p.cursors[name := At(p.cursors, name) + 1])
            && (p.progressed || !q.failed ==> q.progressed)
  {
    var q := SendParsed(p, name, parsed);
    if parsed.Some? && !q.failed {
      assert q.published[|p.published|] == parsed.value;
    }
  }

  predicate Fresh(order: seq<string>, p: Pass, saved: Cursors) {
    && (forall n | n in order :: At(p.cursors, n) == At(saved, n))
    && forall i, j | 0 <= i < j < |order| :: order[i] != order[j]
  }

  lemma {:induction false} AllSent(p: Pass, order: seq<string>, logs: Logs, saved: Cursors, device: string)
    requires Fresh(order, p, saved) && (forall n | n in order :: n in logs)
    requires AllCovered(logs, p.cursors, p.published, device)
    ensures var q := SendAll(p, Targets(order, logs, saved), device);
            && AllCovered(logs, q.cursors, q.published, device)
            && p.published <= q.published
            && (forall n | n in q.cursors :: n in p.cursors || n in logs)
            && (!q.failed ==> forall n | n in order :: At(q.cursors, n) == |Lines(logs, n)|)
            && (forall n | n !in order :: At(q.cursors, n) == At(p.cursors, n))
            && (p.progressed ==> q.progressed) && (q.progressed || q.cursors == p.cursors)
    decreases |order|
  {
    if order != [] {
      var rest := order[1..];
      var q := FirstOf(p, order, logs, saved, device);
      FirstSent(p, order, logs, saved, device);
      AllSent(q, rest, logs, saved, device);
      SendAllHead(p, order, logs, saved, device);
    }
  }

  function FirstOf(p: Pass, order: seq<string>, logs: Logs, saved: Cursors, device: string): Pass
    requires order != [] && At(saved, order[0]) <= |Lines(logs, order[0])|
  {
    SendLines(p, order[0], Lines(logs, order[0])[At(saved, order[0])..], device)
  }

  lemma FirstSent(p: Pass, order: seq<string>, logs: Logs, saved: Cursors, device: string)
    requires order != [] && Fresh(order, p, saved) && (forall n | n in order :: n in logs)
    requires AllCovered(logs, p.cursors, p.published, device)
    ensures At(saved, order[0]) <= |Lines(logs, order[0])|
    ensures var q := FirstOf(p, order, logs, saved, device);
            && AllCovered(logs, q.cursors, q.published, device) && p.published <= q.published
            && Fresh(order[1..], q, saved) && order[0] !in order[1..]
            && (forall n | n in q.cursors :: n in p.cursors || n in logs)
            && (!q.failed ==> At(q.cursors, order[0]) == |Lines(logs, order[0])|)
            && (forall n | n != order[0] :: At(q.cursors, n) == At(p.cursors, n))
            && (p.progressed ==> q.progressed) && (q.progressed || q.cursors == p.cursors)
  {
    var name, rest := order[0], order[1..];
    var full := Lines(logs, name);
    assert Covered(full, At(p.cursors, name), p.published, device);
    var q := FirstOf(p, order, logs, saved, device);
    FileSent(p, name, full, device);
    forall n | n in logs
      ensures Covered(Lines(logs, n), At(q.cursors, n), q.published, device)
    {
      if n != name {
        CoveredGrows(Lines(logs, n), Lines(logs, n), At(p.cursors, n), p.published, q.published, device);
      }
    }
    forall n | n in rest
      ensures n in order && n != name && At(q.cursors, n) == At(saved, n)
    {
      var j :| 0 <= j < |rest| && rest[j] == n;
      assert order[j + 1] == n;
    }
  }

  /** A file with nothing new may as well be sent an empty list. */
  lemma SendAllHead(p: Pass, order: seq<string>, logs: Logs, saved: Cursors, device: string)
    requires order != [] && At(saved, order[0]) <= |Lines(logs, order[0])|
    ensures SendAll(p, Targets(order, logs, saved), device) ==
            SendAll(FirstOf(p, order, logs, saved, device), Targets(order[1..], logs, saved), device)
  {
    var name := order[0];
    var rest := Targets(order[1..], logs, saved);
    if |Lines(logs, name)| > At(saved, name) {
      var all := Targets(order, logs, saved);
      assert all[1..] == rest;
      if p.failed {
        assert SendAll(p, rest, device) == p;
      }
    } else {
      assert Targets(order, logs, saved) == rest;
    }
  }

  lemma SentCovers(s: State, step: Step, device: string)
    requires AllCovered(s.logs, s.saved, s.published, device) && Enabled(s, step) && step.Round?
    ensures var p := Sent(s, step, device);
            && AllCovered(s.logs, p.cursors, p.published, device) && s.published <= p.published
            && AllCovered(s.logs, s.saved, p.published, device)
            && forall n | n in p.cursors :: n in s.logs || n in s.saved
  {
    var start := Pass(s.saved, s.published, step.budget, step.slips, !step.connects, false, 0);
    var p := Sent(s, step, device);
    AllSent(start, step.order, s.logs, s.saved, device);
    forall n | n in s.logs
      ensures Covered(Lines(s.logs, n), At(s.saved, n), p.published, device)
    {
      CoveredGrows(Lines(s.logs, n), Lines(s.logs, n), At(s.saved, n), s.published, p.published, device);
    }
  }

  lemma SavedAsCovers(logs: Logs, save: Save, before: Cursors, cursors: Cursors, names: set<string>,
                      published: seq<Record>, device: string)
    requires AllCovered(logs, before, published, device) && AllCovered(logs, cursors, published, device)
    ensures AllCovered(logs, SavedAs(save, before, cursors, names), published, device)
  {
    var saved := SavedAs(save, before, cursors, names);
    forall n | n in logs
      ensures Covered(Lines(logs, n), At(saved, n), published, device)
    {
      assert At(saved, n) in {0, At(before, n), At(cursors, n)};
    }
  }

  /** Before the folder changes: the cursors as saved cover the logs as read. */
  lemma SavedCovers(s: State, step: Step, device: string)
    requires AllCovered(s.logs, s.saved, s.published, device) && Enabled(s, step)
    ensures var t := Do(s, step, device);
            && AllCovered(s.logs, t.saved, t.published, device) && s.published <= t.published
            && forall n | n in t.saved :: n in s.logs || n in s.saved
  {
    if step.Round? {
      var p := Sent(s, step, device);
      SentCovers(s, step, device);
      SavedAsCovers(s.logs, step.save, s.saved, p.cursors, step.later.Keys, p.published, device);
    }
  }

  lemma StepKeeps(s: State, step: Step, device: string)
    requires AllCovered(s.logs, s.saved, s.published, device) && Enabled(s, step) && Grows(s, step.later)
    ensures var t := Do(s, step, device); AllCovered(t.logs, t.saved, t.published, device)
    ensures s.published <= Do(s, step, device).published
  {
    var t := Do(s, step, device);
    SavedCovers(s, step, device);
    CoveredInLater(s, step.later, t.saved, t.published, device);
  }

  /** Over any run in which files grow, appear and go, with appends in the middle of
      lines, failed publishes and lost or emptied cursor files: no cursor passes its
      file's complete lines, and every valid line below it was published. */
  lemma {:induction false} NoLineLost(s: State, steps: seq<Step>, device: string)
    requires AllCovered(s.logs, s.saved, s.published, device)
    requires IsRun(s, steps, device) && OnlyGrows(s, steps, device)
    ensures var t := After(s, steps, device); AllCovered(t.logs, t.saved, t.published, device)
    ensures s.published <= After(s, steps, device).published
    decreases |steps|
  {
    if steps != [] {
      StepKeeps(s, steps[0], device);
      NoLineLost(Do(s, steps[0], device), steps[1..], device);
    }
  }

  // -------------------------------------------------------------------
  // When files are shortened, rewritten or replaced

  predicate SameLine(logs: Logs, later: Logs, name: string, i: nat) {
    i < |Lines(logs, name)| && i < |Lines(later, name)| && Lines(logs, name)[i] == Lines(later, name)[i]
  }

  /** No file is left with fewer complete lines than its cursor says, and every line
      below a cursor that is not as it was is invalid or was published before. */
  predicate Harmless(s: State, step: Step, device: string) {
    var t := Do(s, step, device);
    forall n | n in step.later ::
      && At(t.saved, n) <= |Lines(step.later, n)|
      && forall i | 0 <= i < At(t.saved, n) && !SameLine(s.logs, step.later, n, i) ::
           var parsed := ParseLine(Lines(step.later, n)[i], device);
           parsed.Some? ==> parsed.value in t.published
  }

  lemma {:induction false} HarmlessIff(s: State, step: Step, device: string)
    requires AllCovered(s.logs, s.saved, s.published, device) && Enabled(s, step)
    ensures var t := Do(s, step, device);
            AllCovered(t.logs, t.saved, t.published, device) <==> Harmless(s, step, device)
  {
    var t := Do(s, step, device);
    SavedCovers(s, step, device);
    if Harmless(s, step, device) {
      forall n | n in step.later
        ensures Covered(Lines(step.later, n), At(t.saved, n), t.published, device)
      {
        HarmlessCovers(s, step, n, device);
      }
    }
  }

  lemma HarmlessCovers(s: State, step: Step, n: string, device: string)
    requires AllCovered(s.logs, Do(s, step, device).saved, Do(s, step, device).published, device)
    requires Harmless(s, step, device) && n in step.later
    ensures var t := Do(s, step, device); Covered(Lines(step.later, n), At(t.saved, n), t.published, device)
  {
    var t := Do(s, step, device);
    forall i | 0 <= i < At(t.saved, n) && ParseLine(Lines(step.later, n)[i], device).Some?
      ensures ParseLine(Lines(step.later, n)[i], device).value in t.published
    {
      if SameLine(s.logs, step.later, n, i) {
        assert n in s.logs && Covered(Lines(s.logs, n), At(t.saved, n), t.published, device);
      }
    }
  }

  predicate AlwaysCovered(s: State, steps: seq<Step>, device: string)
    decreases |steps|
  {
    && AllCovered(s.logs, s.saved, s.published, device)
    && (steps == [] || AlwaysCovered(Do(s, steps[0], device), steps[1..], device))
  }

  predicate AlwaysHarmless(s: State, steps: seq<Step>, device: string)
    decreases |steps|
  {
    steps == [] || (Harmless(s, steps[0], device) && AlwaysHarmless(Do(s, steps[0], device), steps[1..], device))
  }

  /** Over any run, whatever becomes of the files: every valid line below a cursor has
      been published all along if and only if every change was harmless. */
  lemma {:induction false} NoLineLostIff(s: State, steps: seq<Step>, device: string)
    requires AllCovered(s.logs, s.saved, s.published, device) && IsRun(s, steps, device)
    ensures AlwaysCovered(s, steps, device) <==> AlwaysHarmless(s, steps, device)
    decreases |steps|
  {
    if steps != [] {
      var t := Do(s, steps[0], device);
      HarmlessIff(s, steps[0], device);
      if Harmless(s, steps[0], device) {
        NoLineLostIff(t, steps[1..], device);
      }
    }
  }

  // -------------------------------------------------------------------
  // Pending lines

  function Pending(logs: Logs, saved: Cursors, name: string): nat {
    if |Lines(logs, name)| > At(saved, name) then |Lines(logs, name)| - At(saved, name) else 0
  }

  function Total(order: seq<string>, f: string -> nat): nat {
    if order == [] then 0 else Total(order[..|order| - 1], f) + f(order[|order| - 1])
  }

  function CursorOf(s: State): string -> nat { n => At(s.saved, n) }
  function PendingOf(s: State): string -> nat { n => Pending(s.logs, s.saved, n) }
  function LengthOf(s: State): string -> nat { n => |Lines(s.logs, n)| }

  lemma {:induction false} TotalsAdd(order: seq<string>, f: string -> nat, g: string -> nat, h: string -> nat)
    requires forall n | n in order :: f(n) + g(n) == h(n)
    ensures Total(order, f) + Total(order, g) == Total(order, h)
  {
    if order != [] {
      TotalsAdd(order[..|order| - 1], f, g, h);
      assert order[|order| - 1] in order;
    }
  }

  /** In every state of a run from an empty device, cursor and pending make up the
      complete lines, file by file and in total. */
  lemma CursorPlusPending(steps: seq<Step>, order: seq<string>, device: string)
    requires IsRun(START, steps, device) && OnlyGrows(START, steps, device)
    requires ListsAll(order, After(START, steps, device).logs)
    ensures var t := After(START, steps, device);
            && (forall n | n in t.logs :: At(t.saved, n) + Pending(t.logs, t.saved, n) == |Lines(t.logs, n)|)
            && Total(order, CursorOf(t)) + Total(order, PendingOf(t)) ==
               Total(order, LengthOf(t))
  {
    NoLineLost(START, steps, device);
    var t := After(START, steps, device);
    TotalsAdd(order, CursorOf(t), PendingOf(t), LengthOf(t));
  }

  // -------------------------------------------------------------------
  // A round without a fault

  /** The records of a list of lines, in order. */
  function RecordOf(line: string, device: string): seq<Record> {
    match ParseLine(line, device) case None => [] case Some(rec) => [rec]
  }

  function RecordsOf(lines: seq<string>, device: string): seq<Record> {
    if lines == [] then [] else RecordOf(lines[0], device) + RecordsOf(lines[1..], device)
  }

  function RecordsIn(targets: seq<Target>, device: string): seq<Record> {
    if targets == [] then [] else RecordsOf(targets[0].lines, device) + RecordsIn(targets[1..], device)
  }

  /** `q` is `p` after publishing `recs` and no other record. */
  predicate Extends(p: Pass, recs: seq<Record>, q: Pass) {
    && !q.failed && p.budget - q.budget == |recs| && q.count - p.count == |recs|
    && q.published == p.published + recs
  }

  lemma ExtendsTwice(p: Pass, a: seq<Record>, q: Pass, b: seq<Record>, r: Pass)
    requires Extends(p, a, q) && Extends(q, b, r)
    ensures Extends(p, a + b, r)
  {
  }

  lemma LineWithinBudget(p: Pass, name: string, line: string, device: string)
    requires !p.failed && |RecordOf(line, device)| <= p.budget
    ensures Extends(p, RecordOf(line, device), SendLine(p, name, line, device))
  {
  }

  lemma {:induction false} LinesWithinBudget(p: Pass, name: string, lines: seq<string>, device: string)
    requires !p.failed && |RecordsOf(lines, device)| <= p.budget
    ensures Extends(p, RecordsOf(lines, device), SendLines(p, name, lines, device))
    decreases |lines|
  {
    if lines != [] {
      var q := SendLine(p, name, lines[0], device);
      LineWithinBudget(p, name, lines[0], device);
      LinesWithinBudget(q, name, lines[1..], device);
      ExtendsTwice(p, RecordOf(lines[0], device), q, RecordsOf(lines[1..], device),
                   SendLines(q, name, lines[1..], device));
    }
  }

  lemma {:induction false} AllWithinBudget(p: Pass, targets: seq<Target>, device: string)
    requires !p.failed && |RecordsIn(targets, device)| <= p.budget
    ensures Extends(p, RecordsIn(targets, device), SendAll(p, targets, device))
    decreases |targets|
  {
    if targets != [] {
      var first, rest := targets[0], targets[1..];
      var q := SendLines(p, first.name, first.lines, device);
      LinesWithinBudget(p, first.name, first.lines, device);
      AllWithinBudget(q, rest, device);
      ExtendsTwice(p, RecordsOf(first.lines, device), q, RecordsIn(rest, device), SendAll(q, rest, device));
    }
  }

  /** A round in which nothing fails. */
  predicate IsClean(s: State, step: Step, device: string) {
    && step.Round? && step.connects && step.save == Written
    && |RecordsIn(Targets(step.order, s.logs, s.saved), device)| <= step.budget
  }

  /** A round in which nothing fails publishes the records of the lines above the
      cursors, each once and in order, and leaves nothing pending of what it read;
      so every valid complete line has been published. */
  lemma CleanRound(s: State, step: Step, device: string)
    requires AllCovered(s.logs, s.saved, s.published, device) && Enabled(s, step)
    requires IsClean(s, step, device)
    ensures var t := Do(s, step, device);
            && t.published == s.published + RecordsIn(Targets(step.order, s.logs, s.saved), device)
            && (forall n | n in s.logs && n in step.later ::
                  && At(t.saved, n) == |Lines(s.logs, n)|
                  && Covered(Lines(s.logs, n), |Lines(s.logs, n)|, t.published, device))
  {
    var start := Pass(s.saved, s.published, step.budget, step.slips, false, false, 0);
    var p := Sent(s, step, device);
    AllWithinBudget(start, Targets(step.order, s.logs, s.saved), device);
    AllSent(start, step.order, s.logs, s.saved, device);
    forall n | n in s.logs && n in step.later
      ensures At(Do(s, step, device).saved, n) == |Lines(s.logs, n)|
      ensures Covered(Lines(s.logs, n), |Lines(s.logs, n)|, p.published, device)
    {
      assert n in step.order;
      assert Covered(Lines(s.logs, n), At(p.cursors, n), p.published, device);
    }
  }

  /** The lines at or above the file's cursor. */
  function Waiting(logs: Logs, saved: Cursors, name: string): seq<string> {
    var lines := Lines(logs, name);
    if At(saved, name) < |lines| then lines[At(saved, name)..] else []
  }

  /** One of those lines carries the record. */
  predicate Awaits(logs: Logs, saved: Cursors, name: string, rec: Record, device: string) {
    exists line | line in Waiting(logs, saved, name) :: ParseLine(line, device) == Some(rec)
  }

  lemma {:induction false} RecordsOfHas(lines: seq<string>, rec: Record, device: string)
    ensures rec in RecordsOf(lines, device) <==> exists line | line in lines :: rec in RecordOf(line, device)
  {
    if lines != [] {
      RecordsOfHas(lines[1..], rec, device);
      assert forall line :: line in lines <==> line == lines[0] || line in lines[1..];
    }
  }

  lemma UnsentHas(logs: Logs, saved: Cursors, name: string, rest: seq<Target>, rec: Record, device: string)
    ensures rec in RecordsIn(Unsent(name, Lines(logs, name), At(saved, name)) + rest, device) <==>
            Awaits(logs, saved, name, rec, device) || rec in RecordsIn(rest, device)
  {
    var first, waiting := Unsent(name, Lines(logs, name), At(saved, name)), Waiting(logs, saved, name);
    RecordsOfHas(waiting, rec, device);
    assert (first + rest)[|first|..] == rest;
    assert forall line :: rec in RecordOf(line, device) <==> ParseLine(line, device) == Some(rec);
  }

  lemma {:induction false} RecordsInHas(order: seq<string>, logs: Logs, saved: Cursors, rec: Record, device: string)
    ensures rec in RecordsIn(Targets(order, logs, saved), device) <==>
            exists n | n in order :: Awaits(logs, saved, n, rec, device)
  {
    if order != [] {
      RecordsInHas(order[1..], logs, saved, rec, device);
      UnsentHas(logs, saved, order[0], Targets(order[1..], logs, saved), rec, device);
      assert forall n :: n in order <==> n == order[0] || n in order[1..];
    }
  }

  /** In any state, stale cursors included: a round in which nothing fails leaves a record
      unpublished exactly when it was, and no line at or above its file's cursor has it. */
  lemma {:induction false} PublishedIff(s: State, step: Step, rec: Record, device: string)
    requires Enabled(s, step) && IsClean(s, step, device)
    ensures rec in Do(s, step, device).published <==>
            rec in s.published || exists n | n in s.logs :: Awaits(s.logs, s.saved, n, rec, device)
  {
    var start := Pass(s.saved, s.published, step.budget, step.slips, false, false, 0);
    AllWithinBudget(start, Targets(step.order, s.logs, s.saved), device);
    RecordsInHas(step.order, s.logs, s.saved, rec, device);
  }

  lemma OneLine(line: string)
    requires '\n' !in line
    ensures A.CompleteLines(line + "\n") == [line]
  {
    SplitNone(line, '\n');
    SplitAt(line, [], '\n');
    assert line + "\n" == line + ['\n'] + [];
    assert Split([], '\n') == [[]];
  }

  lemma LineSentTo(p: Pass, name: string, line: string, rec: Record, device: string)
    requires ParseLine(line, device) == Some(rec) && !p.failed
    ensures SendLines(p, name, [line], device) == SendParsed(p, name, Some(rec))
  {
    var q := SendParsed(p, name, Some(rec));
    assert [line][1..] == [] && SendLine(p, name, line, device) == q;
    assert SendLines(q, name, [], device) == q;
  }

  lemma OneLineSent(p: Pass, name: string, line: string, rec: Record, logs: Logs, device: string)
    requires ParseLine(line, device) == Some(rec) && Lines(logs, name) == [line] && !p.failed
    ensures SendAll(p, Targets([name], logs, map[]), device) == SendParsed(p, name, Some(rec))
  {
    var targets := [Target(name, [line])];
    assert Targets([name], logs, map[]) == targets by {
      assert [name][1..] == [] && [line][0..] == [line];
    }
    LineSentTo(p, name, line, rec, device);
    var q := SendParsed(p, name, Some(rec));
    assert targets[1..] == [] && SendAll(q, [], device) == q;
  }

  lemma FirstRound(s: State, name: string, line: string, rec: Record, device: string)
    requires ParseLine(line, device) == Some(rec) && Lines(s.logs, name) == [line]
    requires s.logs.Keys == {name} && s.saved == map[] && s.published == []
    ensures Do(s, Round([name], s.logs, true, 1, false, Written), device) == State(s.logs, map[name := 1], [rec])
  {
    OneLineSent(Pass(s.saved, [], 1, false, false, false, 0), name, line, rec, s.logs, device);
    FirstSaved(s, name, rec, device);
  }

  lemma FirstSaved(s: State, name: string, rec: Record, device: string)
    requires s.logs.Keys == {name} && s.saved == map[] && s.published == []
    requires var round := Round([name], s.logs, true, 1, false, Written);
             Sent(s, round, device) == SendParsed(Pass(map[], [], 1, false, false, false, 0), name, Some(rec))
    ensures Do(s, Round([name], s.logs, true, 1, false, Written), device) == State(s.logs, map[name := 1], [rec])
  {}

  /** With its only line below the cursor a round does nothing. */
  lemma NothingWaits(t: State, name: string, line: string, again: Step, device: string)
    requires t.logs == map[name := line + "\n"] && At(t.saved, name) == 1 && '\n' !in line
    requires again.Round? && again.order == [name] && again.later == t.logs
    ensures Enabled(t, again) && Do(t, again, device) == t
  {
    OneLine(line);
    assert Targets([name], t.logs, t.saved) == [] by {
      assert [name][1..] == [];
    }
  }

  /** A log that was sent and is then rewritten, or replaced by a new one of the same
      name, keeps its cursor: its new line is skipped, by every later round. */
  lemma RewrittenLineSkipped(name: string, line: string, other: string, rec: Record, device: string, again: Step)
    requires '\n' !in line && '\n' !in other && ParseLine(line, device) == Some(rec)
    requires ParseLine(other, device).Some? && ParseLine(other, device).value != rec
    requires again.Round? && again.order == [name] && again.later == map[name := other + "\n"]
    ensures var first, second := map[name := line + "\n"], map[name := other + "\n"];
            var steps := [Changed(first), Round([name], first, true, 1, false, Written), Changed(second)];
            var t := After(START, steps, device);
            && IsRun(START, steps, device) && t == State(second, map[name := 1], [rec])
            && Enabled(t, again) && Do(t, again, device) == t && ParseLine(other, device).value !in t.published
  {
    var first, second := map[name := line + "\n"], map[name := other + "\n"];
    var round := Round([name], first, true, 1, false, Written);
    var s1, s2 := State(first, map[], []), State(first, map[name := 1], [rec]);
    OneLine(line);
    FirstRound(s1, name, line, rec, device);
    ThreeSteps(Changed(first), round, Changed(second), s1, s2, device);
    NothingWaits(State(second, map[name := 1], [rec]), name, other, again, device);
  }

  lemma ThreeSteps(a: Step, b: Step, c: Step, s1: State, s2: State, device: string)
    requires Enabled(START, a) && Do(START, a, device) == s1 && Enabled(s1, b) && Do(s1, b, device) == s2
    requires Enabled(s2, c)
    ensures IsRun(START, [a, b, c], device) && After(START, [a, b, c], device) == Do(s2, c, device)
  {
    assert [a, b, c][1..] == [b, c] && [b, c][1..] == [c] && [c][1..] == [];
    var t := Do(s2, c, device);
    assert IsRun(t, [], device) && After(t, [], device) == t;
    assert IsRun(s2, [c], device) && After(s2, [c], device) == t;
    assert IsRun(s1, [b, c], device) && After(s1, [b, c], device) == t;
  }

  // -------------------------------------------------------------------
  // A round with a fault

  /** The records the broker confirms, when it confirms `budget` publishes. */
  function Confirmed(recs: seq<Record>, budget: nat): seq<Record> {
    if |recs| <= budget then recs else recs[..budget]
  }

  /** `q` is `p` after the confirmed ones of `recs`; the first beyond fails, and may have
      gone out all the same. */
  predicate PublishesFirst(p: Pass, recs: seq<Record>, q: Pass) {
    && q.slips == p.slips && (q.failed <==> |recs| > p.budget)
    && q.count == p.count + |Confirmed(recs, p.budget)|
    && q.published == p.published + Confirmed(recs, p.budget)
                      + (if q.failed && p.slips then [recs[p.budget]] else [])
    && (!q.failed ==> q.budget == p.budget - |recs|)
  }

  lemma PublishesTwice(p: Pass, a: seq<Record>, q: Pass, b: seq<Record>, r: Pass)
    requires PublishesFirst(p, a, q) && if q.failed then r == q else PublishesFirst(q, b, r)
    ensures PublishesFirst(p, a + b, r)
  {
    if !q.failed {
      assert Confirmed(a + b, p.budget) == a + Confirmed(b, q.budget);
    } else {
      assert Confirmed(a + b, p.budget) == Confirmed(a, p.budget);
    }
  }

  lemma LinePublishes(p: Pass, name: string, line: string, device: string)
    requires !p.failed
    ensures PublishesFirst(p, RecordOf(line, device), SendLine(p, name, line, device))
  {}

  lemma {:induction false} LinesPublish(p: Pass, name: string, lines: seq<string>, device: string)
    requires !p.failed
    ensures PublishesFirst(p, RecordsOf(lines, device), SendLines(p, name, lines, device))
    decreases |lines|
  {
    if lines != [] {
      var q := SendLine(p, name, lines[0], device);
      LinePublishes(p, name, lines[0], device);
      if !q.failed {
        LinesPublish(q, name, lines[1..], device);
      }
      PublishesTwice(p, RecordOf(lines[0], device), q, RecordsOf(lines[1..], device),
                     SendLines(q, name, lines[1..], device));
    }
  }

  lemma {:induction false} AllPublish(p: Pass, targets: seq<Target>, device: string)
    requires !p.failed
    ensures PublishesFirst(p, RecordsIn(targets, device), SendAll(p, targets, device))
    decreases |targets|
  {
    if targets != [] {
      var q := SendLines(p, targets[0].name, targets[0].lines, device);
      LinesPublish(p, targets[0].name, targets[0].lines, device);
      if !q.failed {
        AllPublish(q, targets[1..], device);
      }
      PublishesTwice(p, RecordsOf(targets[0].lines, device), q, RecordsIn(targets[1..], device),
                     SendAll(q, targets[1..], device));
    }
  }

  /** In any state, for every point of failure: a round publishes the waiting records in
      order up to the first that is not confirmed, which may have gone out too. Without
      a broker it publishes nothing. */
  lemma {:induction false} PublishedInOrder(s: State, step: Step, device: string)
    requires Enabled(s, step) && step.Round?
    ensures var recs, n := RecordsIn(Targets(step.order, s.logs, s.saved), device), step.budget;
            Do(s, step, device).published ==
            s.published + if !step.connects then [] else if |recs| <= n then recs
                          else recs[..n] + if step.slips then [recs[n]] else []
  {
    var start := Pass(s.saved, s.published, step.budget, step.slips, !step.connects, false, 0);
    if step.connects {
      AllPublish(start, Targets(step.order, s.logs, s.saved), device);
    }
  }

  lemma SendLinesKeeps(p: Pass, name: string, lines: seq<string>, device: string)
    ensures var q := SendLines(p, name, lines, device);
            (p.progressed ==> q.progressed) && (!q.progressed ==> q.cursors == p.cursors)
    decreases |lines|
  {
    if lines != [] && !p.failed {
      SendLinesKeeps(SendLine(p, name, lines[0], device), name, lines[1..], device);
    }
  }

  /** What a round leaves in the cursor file if it is written: the cursors of the files
      that are still there, as the round left them. So a name that has gone starts over. */
  lemma {:induction false} GoneNamesStartOver(s: State, step: Step, n: string, device: string)
    requires Enabled(s, step) && step.Round? && step.save == Written && Sent(s, step, device).cursors != s.saved
    ensures At(Do(s, step, device).saved, n) == if n in step.later then At(Sent(s, step, device).cursors, n) else 0
  {
    AllKeeps(Pass(s.saved, s.published, step.budget, step.slips, !step.connects, false, 0),
             Targets(step.order, s.logs, s.saved), device);
  }

  lemma {:induction false} AllKeeps(p: Pass, targets: seq<Target>, device: string)
    ensures var q := SendAll(p, targets, device);
            (p.progressed ==> q.progressed) && (!q.progressed ==> q.cursors == p.cursors)
    decreases |targets|
  {
    if targets != [] && !p.failed {
      SendLinesKeeps(p, targets[0].name, targets[0].lines, device);
      AllKeeps(SendLines(p, targets[0].name, targets[0].lines, device), targets[1..], device);
    }
  }

  // -------------------------------------------------------------------
  // The code

  /** The format string spells out what the watcher joins. */
  lemma FormatIsHashInput(device: string, mkDate: string, sta1: string, sta2: string, sta3: string, t1: int)
    ensures device + "|" + mkDate + "," + sta1 + "," + sta2 + "," + sta3 + "," + IntText(t1)
            == HashInput(device, mkDate, sta1, sta2, sta3, t1)
  {
    var last := [IntText(t1)];
    assert Join(last, ',') == IntText(t1);
    assert Join([sta3] + last, ',') == sta3 + "," + IntText(t1);
    assert Join([sta2, sta3] + last, ',') == sta2 + "," + (sta3 + "," + IntText(t1)) by {
      assert ([sta2, sta3] + last)[1..] == [sta3] + last;
    }
    assert Join([sta1, sta2, sta3] + last, ',') == sta1 + "," + (sta2 + "," + (sta3 + "," + IntText(t1))) by {
      assert ([sta1, sta2, sta3] + last)[1..] == [sta2, sta3] + last;
    }
    assert Fields(mkDate, sta1, sta2, sta3, t1)[1..] == [sta1, sta2, sta3] + last;
  }

  class LineSender {
    const device: string
    var logs: Logs
    var saved: Cursors
    var published: seq<Record>

    constructor (device: string)
      ensures this.device == device && View() == START
    {
      this.device, logs, saved, published := device, map[], map[], [];
    }

    function View(): State
      reads this
    {
      State(logs, saved, published)
    }

    /** `_count_pending_lines` */
    method CountPending(order: seq<string>) returns (total: nat)
      ensures total == Total(order, PendingOf(View()))
    {
      total := 0;
      ghost var f := PendingOf(View());
      for i := 0 to |order|
        invariant total == Total(order[..i], f)
      {
        assert order[..i + 1][..i] == order[..i];
        var n := |Lines(logs, order[i])|;
        var sent := At(saved, order[i]);
        if n > sent { total := total + n - sent; }
      }
      assert order[..|order|] == order;
    }

    method FindTargets(order: seq<string>) returns (targets: seq<Target>)
      ensures targets == Targets(order, logs, saved)
    {
      targets := [];
      for i := 0 to |order|
        invariant targets + Targets(order[i..], logs, saved) == Targets(order, logs, saved)
      {
        var lines := Lines(logs, order[i]);
        var sent := At(saved, order[i]);
        NextTarget(targets, order, i, logs, saved);
        ghost var found := targets + Unsent(order[i], lines, sent);
        if |lines| > sent { targets := targets + [Target(order[i], lines[sent..])]; }
        assert targets == found;
      }
    }

    /** `_csv_line_to_record`, the web server's copy of the parser: on every line and for
        every device id it gives what the watcher's copy gives. */
    method CsvLineToRecord(line: string, deviceId: string) returns (rec: Option<Record>)
      ensures rec == ParseLine(line, deviceId)
    {
      var raw := Split(Strip(line), ',');
      var parts := [];
      for i := 0 to |raw|
        invariant |parts| == i && forall j | 0 <= j < i :: parts[j] == Strip(raw[j])
      {
        parts := parts + [Strip(raw[i])];
      }
      assert parts == StripAll(raw);
      if |parts| != 5 || parts[0] == [] {
        return None;
      }
      var mkDate, sta1, sta2, sta3, t1 := parts[0], parts[1], parts[2], parts[3], parts[4];
      if !IsMkDate(mkDate) {
        return None;
      }
      var t1Status := ParseInt(t1);
      if t1Status.None? {
        return None;
      }
      var hashed := deviceId + "|" + mkDate + "," + sta1 + "," + sta2 + "," + sta3 + "," + IntText(t1Status.value);
      FormatIsHashInput(deviceId, mkDate, sta1, sta2, sta3, t1Status.value);
      return Some(Record(hashed, mkDate, sta1, sta2, sta3, t1Status.value, deviceId));
    }

    /** `publish` and `wait_for_publish` for one line's record. */
    method PublishRecord(p: Pass, name: string, rec: Record) returns (q: Pass)
      ensures q == SendParsed(p, name, Some(rec))
    {
      q := p;
      if q.budget == 0 {
        q := q.(failed := true, published := if q.slips then q.published + [rec] else q.published);
      } else {
        q := q.(published := q.published + [rec], budget := q.budget - 1);
        q := Advanced(q, name).(count := q.count + 1);
      }
    }

    /** One turn of the inner loop; `p` holds the loops' variables. */
    method SendOne(p: Pass, name: string, line: string) returns (q: Pass)
      requires !p.failed
      ensures q == SendLine(p, name, line, device)
    {
      var rec := CsvLineToRecord(line, device);
      if rec.None? {
        q := Advanced(p, name);
      } else {
        q := PublishRecord(p, name, rec.value);
      }
    }

    method SendFile(p: Pass, target: Target) returns (q: Pass)
      requires !p.failed
      ensures q == SendLines(p, target.name, target.lines, device)
    {
      q := p;
      var lines := target.lines;
      var i := 0;
      while i < |lines| && !q.failed
        invariant i <= |lines|
        invariant SendLines(q, target.name, lines[i..], device) == SendLines(p, target.name, lines, device)
        decreases |lines| - i
      {
        assert lines[i..][0] == lines[i] && lines[i..][1..] == lines[i + 1..];
        q := SendOne(q, target.name, lines[i]);
        i := i + 1;
      }
    }

    method SendFiles(p: Pass, targets: seq<Target>) returns (q: Pass)
      ensures q == SendAll(p, targets, device)
    {
      q := p;
      var i := 0;
      while i < |targets| && !q.failed
        invariant i <= |targets|
        invariant SendAll(q, targets[i..], device) == SendAll(p, targets, device)
        decreases |targets| - i
      {
        assert targets[i..][0] == targets[i] && targets[i..][1..] == targets[i + 1..];
        q := SendFile(q, targets[i]);
        i := i + 1;
      }
    }

    /** `_publish_lines` and `save_send_state`: the number of lines sent, and
        whether an error is reported. */
    method PublishLines(order: seq<string>, later: Logs, connects: bool, budget: nat, slips: bool, save: Save)
      returns (count: nat, err: bool)
      requires Enabled(View(), Round(order, later, connects, budget, slips, save))
      modifies this
      ensures View() == Do(old(View()), Round(order, later, connects, budget, slips, save), device)
      ensures var p := Sent(old(View()), Round(order, later, connects, budget, slips, save), device);
              && count == p.count
              && (err <==> p.failed && Targets(order, old(logs), old(saved)) != [])
    {
      var targets := FindTargets(order);
      logs := later;
      if targets == [] {
        return 0, false;
      }
      var p := SendFiles(Pass(saved, published, budget, slips, !connects, false, 0), targets);
      published := p.published;
      if p.progressed {
        saved := SavedAs(save, saved, p.cursors, later.Keys);
      }
      return p.count, p.failed;
    }
  }
}
