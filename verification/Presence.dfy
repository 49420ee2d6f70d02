/** The detector's debouncing state machine, against a reading of its inputs and
    outputs that does not mention its fields. */
module Presence {
  import opened Text

  datatype Presence = Absent | Present

  datatype EventType = Enter | Exit

  datatype Config = Config(enterSeconds: real, exitSeconds: real)

  datatype Observation = Observation(present: bool, score: real, ns: int)

  datatype Transition = Transition(
    from: Presence, to: Presence, event: EventType, confirmedAt: int, durationMs: int, score: real,
    reason: Option<string>)

  /** `int(x)`: towards zero. */
  function Truncated(x: real): int {
    if x >= 0.0 then x.Floor else -((-x).Floor)
  }

  /** The nanoseconds an observed state must last before it is believed. */
  function Threshold(cfg: Config, target: Presence): int {
    Truncated((if target == Present then cfg.enterSeconds else cfg.exitSeconds) * 1000000000.0)
  }

  // -------------------------------------------------------------------
  // The machine as a value

  datatype Fsm = Fsm(state: Presence, candidate: Option<Presence>, started: Option<int>, score: real)

  const INITIAL := Fsm(Absent, None, None, 0.0)

  function EventOf(target: Presence): EventType { if target == Present then Enter else Exit }

  function Seen(o: Observation): Presence { if o.present then Present else Absent }

  function Observed(cfg: Config, f: Fsm, o: Observation): (Fsm, Option<Transition>) {
    var seen := Seen(o);
    var g := f.(score := o.score);
    if seen == f.state then (g.(candidate := None, started := None), None)
    else if f.candidate != Some(seen) then (g.(candidate := Some(seen), started := Some(o.ns)), None)
    else
      var elapsed := o.ns - (if f.started.Some? then f.started.value else o.ns);
      if elapsed >= Threshold(cfg, seen) then
        (Fsm(seen, None, None, o.score),
         Some(Transition(f.state, seen, EventOf(seen), o.ns, elapsed / 1_000_000, o.score, None)))
      else (g, None)
  }

  function Forced(f: Fsm, ns: int, reason: string): (Fsm, Option<Transition>) {
    if f.state != Present then (f, None)
    else (Fsm(Absent, None, None, f.score), Some(Transition(Present, Absent, Exit, ns, 0, f.score, Some(reason))))
  }

  class PresenceFSM {
    const config: Config
    var state: Presence
    var candidateState: Option<Presence>
    var candidateStarted: Option<int>
    var latestScore: real

    constructor (config: Config)
      ensures this.config == config && View() == INITIAL
    {
      this.config := config;
      state, candidateState, candidateStarted, latestScore := Absent, None, None, 0.0;
    }

    function View(): Fsm
      reads this
    {
      Fsm(state, candidateState, candidateStarted, latestScore)
    }

    method Observe(o: Observation) returns (t: Option<Transition>)
      modifies this
      ensures (View(), t) == Observed(config, old(View()), o)
    {
      var observed := if o.present then Present else Absent;
      latestScore := o.score;
      if observed == state {
        candidateState := None;
        candidateStarted := None;
        return None;
      }
      if candidateState != Some(observed) {
        candidateState := Some(observed);
        candidateStarted := Some(o.ns);
        return None;
      }
      var startedNs := if candidateStarted.Some? then candidateStarted.value else o.ns;
      var elapsed := o.ns - startedNs;
      if elapsed >= Threshold(config, observed) {
        t := Some(Transition(state, observed, EventOf(observed), o.ns, elapsed / 1_000_000, o.score, None));
        state := observed;
        candidateState := None;
        candidateStarted := None;
        return;
      }
      return None;
    }

    method ForceExit(ns: int, reason: string) returns (t: Option<Transition>)
      modifies this
      ensures (View(), t) == Forced(old(View()), ns, reason)
    {
      if state != Present {
        return None;
      }
      t := Some(Transition(Present, Absent, Exit, ns, 0, latestScore, Some(reason)));
      state := Absent;
      candidateState := None;
      candidateStarted := None;
    }
  }

  // -------------------------------------------------------------------
  // Histories

  datatype Input = Look(o: Observation) | Force(ns: int, reason: string)

  function TimeOf(i: Input): int { if i.Look? then i.o.ns else i.ns }

  function Stepped(cfg: Config, f: Fsm, i: Input): (Fsm, Option<Transition>) {
    match i
    case Look(o) => Observed(cfg, f, o)
    case Force(ns, reason) => Forced(f, ns, reason)
  }

  /** The machine after the first `n` inputs. */
  function After(cfg: Config, inputs: seq<Input>, n: nat): Fsm
    requires n <= |inputs|
  {
    if n == 0 then INITIAL else Stepped(cfg, After(cfg, inputs, n - 1), inputs[n - 1]).0
  }

  /** What step `i` emits. */
  function Out(cfg: Config, inputs: seq<Input>, i: nat): Option<Transition>
    requires i < |inputs|
  {
    Stepped(cfg, After(cfg, inputs, i), inputs[i]).1
  }

  /** No event in steps `from` to `to - 1`. */
  ghost predicate Silent(cfg: Config, inputs: seq<Input>, from: nat, to: nat)
    requires to <= |inputs|
  {
    forall m | from <= m < to :: Out(cfg, inputs, m).None?
  }

  /** The presence the events before step `n` leave: that of the latest event,
      and absent before the first. */
  ghost predicate Says(cfg: Config, inputs: seq<Input>, n: nat, p: Presence)
    requires n <= |inputs|
  {
    || (p == Absent && Silent(cfg, inputs, 0, n))
    || exists k :: 0 <= k < n && Out(cfg, inputs, k).Some? && Out(cfg, inputs, k).value.to == p
                   && Silent(cfg, inputs, k + 1, n)
  }

  lemma {:induction false} StateIsLatestEvent(cfg: Config, inputs: seq<Input>, n: nat)
    requires n <= |inputs|
    ensures Says(cfg, inputs, n, After(cfg, inputs, n).state)
  {
    if n > 0 {
      StateIsLatestEvent(cfg, inputs, n - 1);
      if Out(cfg, inputs, n - 1).Some? {
        assert Silent(cfg, inputs, n - 1 + 1, n);
      } else if !Silent(cfg, inputs, 0, n) {
        var p := After(cfg, inputs, n - 1).state;
        var k :| 0 <= k < n - 1 && Out(cfg, inputs, k).Some? && Out(cfg, inputs, k).value.to == p
                 && Silent(cfg, inputs, k + 1, n - 1);
        assert Silent(cfg, inputs, k + 1, n);
      }
    }
  }

  /** Observations `j` to `n - 1` all disagree with the presence in force, with no
      event among these steps. */
  ghost predicate Block(cfg: Config, inputs: seq<Input>, j: nat, n: nat)
    requires n <= |inputs|
  {
    && j < n && inputs[j].Look?
    && Silent(cfg, inputs, j, n)
    && forall m | j <= m < n && inputs[m].Look? :: Seen(inputs[m].o) != After(cfg, inputs, n).state
  }

  /** The maximal such block ending before step `n` starts at `j`. */
  ghost predicate BlockStart(cfg: Config, inputs: seq<Input>, j: nat, n: nat)
    requires n <= |inputs|
  {
    Block(cfg, inputs, j, n) && forall i: nat | i < j :: !Block(cfg, inputs, i, n)
  }

  /** What the candidate fields say about the inputs. */
  ghost predicate CandidateOk(cfg: Config, inputs: seq<Input>, n: nat)
    requires n <= |inputs|
  {
    var f := After(cfg, inputs, n);
    match f.candidate
    case None => forall j: nat | j < n :: !Block(cfg, inputs, j, n)
    case Some(c) =>
      c != f.state && exists j: nat :: j < n && BlockStart(cfg, inputs, j, n) && f.started == Some(inputs[j].o.ns)
  }

  /** A silent step that does not agree with the presence extends the blocks. */
  lemma BlockExtends(cfg: Config, inputs: seq<Input>, j: nat, n: nat)
    requires j < n < |inputs| && Out(cfg, inputs, n).None?
    requires inputs[n].Look? ==> Seen(inputs[n].o) != After(cfg, inputs, n).state
    ensures Block(cfg, inputs, j, n) <==> Block(cfg, inputs, j, n + 1)
  {
    assert After(cfg, inputs, n + 1).state == After(cfg, inputs, n).state;
    assert Silent(cfg, inputs, j, n + 1) <==> Silent(cfg, inputs, j, n);
  }

  lemma StartExtends(cfg: Config, inputs: seq<Input>, j: nat, n: nat, next: nat)
    requires next == n + 1
    requires j < n < |inputs| && Out(cfg, inputs, n).None?
    requires inputs[n].Look? ==> Seen(inputs[n].o) != After(cfg, inputs, n).state
    requires BlockStart(cfg, inputs, j, n)
    ensures BlockStart(cfg, inputs, j, next)
  {
    BlockExtends(cfg, inputs, j, n);
    forall i: nat | i < j ensures !Block(cfg, inputs, i, next) {
      BlockExtends(cfg, inputs, i, n);
      assert !Block(cfg, inputs, i, n);
    }
  }

  lemma NoBlockAfterEvent(cfg: Config, inputs: seq<Input>, n: nat, next: nat)
    requires next == n + 1 <= |inputs|
    requires Out(cfg, inputs, n).Some? || (inputs[n].Look? && Seen(inputs[n].o) == After(cfg, inputs, next).state)
    ensures forall j: nat | j < next :: !Block(cfg, inputs, j, next)
  {}

  lemma {:induction false} CandidateTracks(cfg: Config, inputs: seq<Input>, n: nat)
    requires n <= |inputs|
    ensures CandidateOk(cfg, inputs, n)
  {
    if n > 0 {
      var i := n - 1;
      CandidateTracks(cfg, inputs, i);
      var f := After(cfg, inputs, i);
      if Out(cfg, inputs, i).Some? || (inputs[i].Look? && Seen(inputs[i].o) == f.state) {
        NoBlockAfterEvent(cfg, inputs, i, n);
      } else {
        forall j: nat | j < i ensures Block(cfg, inputs, j, i) <==> Block(cfg, inputs, j, n) {
          BlockExtends(cfg, inputs, j, i);
        }
        if f.candidate.Some? {
          var j: nat :| j < i && BlockStart(cfg, inputs, j, i) && f.started == Some(inputs[j].o.ns);
          StartExtends(cfg, inputs, j, i, n);
          assert BlockStart(cfg, inputs, j, n);
        } else if inputs[i].Look? {
          assert Block(cfg, inputs, i, n);
          assert BlockStart(cfg, inputs, i, n);
        }
      }
    }
  }

  // -------------------------------------------------------------------
  // The theorems

  /** The candidate began with the maximal block. */
  lemma StartedAt(cfg: Config, inputs: seq<Input>, i: nat, j: nat)
    requires j < i <= |inputs| && BlockStart(cfg, inputs, j, i)
    ensures After(cfg, inputs, i).candidate.Some? && After(cfg, inputs, i).started == Some(inputs[j].o.ns)
  {
    CandidateTracks(cfg, inputs, i);
    var f := After(cfg, inputs, i);
    assert Block(cfg, inputs, j, i);
    assert f.candidate.Some?;
    var k: nat :| k < i && BlockStart(cfg, inputs, k, i) && f.started == Some(inputs[k].o.ns);
    assert j == k;
  }

  /** `int(x)` is at most `n` exactly when `x` is, short of its fraction for a positive `x`. */
  lemma TruncatedAtMost(x: real, n: int)
    ensures n >= Truncated(x) <==> if x >= 0.0 then n as real > x - 1.0 else n as real >= x
  {}

  /** `observe` emits when the candidate is what it sees and has lasted. */
  lemma MachineEmits(cfg: Config, f: Fsm, o: Observation)
    requires f.candidate != Some(f.state) && (f.candidate.Some? ==> f.started.Some?)
    ensures Observed(cfg, f, o).1.Some? <==>
            Seen(o) != f.state && f.candidate.Some? && o.ns - f.started.value >= Threshold(cfg, Seen(o))
  {
    match f.state {
      case Absent => assert f.candidate.Some? ==> f.candidate.value == Present;
      case Present => assert f.candidate.Some? ==> f.candidate.value == Absent;
    }
  }

  /** A block has lasted if no more than a fraction of its last nanosecond is missing. */
  lemma ThresholdIs(cfg: Config, target: Presence, ns: int)
    ensures var seconds := if target == Present then cfg.enterSeconds else cfg.exitSeconds;
            ns >= Threshold(cfg, target) <==>
            if seconds >= 0.0 then ns as real > seconds * 1000000000.0 - 1.0
            else ns as real >= seconds * 1000000000.0
  {
    TruncatedAtMost((if target == Present then cfg.enterSeconds else cfg.exitSeconds) * 1000000000.0, ns);
  }

  /** `observe` emits at step `i` exactly when the observation disagrees with the
      presence in force, the maximal block of disagreeing observations it extends
      began at an earlier step, and it has lasted: an ENTER takes the enter setting,
      an EXIT the exit setting. */
  lemma {:induction false} EmitsExactlyWhen(cfg: Config, inputs: seq<Input>, i: nat)
    requires i < |inputs| && inputs[i].Look?
    ensures var p, o := After(cfg, inputs, i).state, inputs[i].o;
            var seconds := if o.present then cfg.enterSeconds else cfg.exitSeconds;
            && Says(cfg, inputs, i, p)
            && (Out(cfg, inputs, i).Some? <==>
                && (o.present <==> p == Absent)
                && exists j: nat :: j < i && BlockStart(cfg, inputs, j, i) &&
                     var ns := (o.ns - inputs[j].o.ns) as real;
                     if seconds >= 0.0 then ns > seconds * 1000000000.0 - 1.0 else ns >= seconds * 1000000000.0)
  {
    var f, o := After(cfg, inputs, i), inputs[i].o;
    StateIsLatestEvent(cfg, inputs, i);
    CandidateTracks(cfg, inputs, i);
    MachineEmits(cfg, f, o);
    forall j: nat | j < i && BlockStart(cfg, inputs, j, i)
      ensures f.candidate.Some? && f.started == Some(inputs[j].o.ns)
    {
      StartedAt(cfg, inputs, i, j);
    }
    if f.started.Some? {
      ThresholdIs(cfg, Seen(o), o.ns - f.started.value);
    }
  }

  /** The event turns the presence in force into what was observed, and carries the
      block's length in whole milliseconds and the observation's time and score. */
  lemma EventReportsBlock(cfg: Config, inputs: seq<Input>, i: nat, j: nat)
    requires j < i < |inputs| && inputs[i].Look? && Out(cfg, inputs, i).Some? && BlockStart(cfg, inputs, j, i)
    ensures var t, o := Out(cfg, inputs, i).value, inputs[i].o;
            && t == Transition(if o.present then Absent else Present, if o.present then Present else Absent,
                               if o.present then Enter else Exit, o.ns, (o.ns - inputs[j].o.ns) / 1_000_000,
                               o.score, None)
            && Says(cfg, inputs, i, t.from)
  {
    StartedAt(cfg, inputs, i, j);
    StateIsLatestEvent(cfg, inputs, i);
  }

  /** The score of the latest observation before step `n`, zero before the first. */
  ghost predicate LatestScore(inputs: seq<Input>, n: nat, score: real)
    requires n <= |inputs|
  {
    || (score == 0.0 && forall m | 0 <= m < n :: inputs[m].Force?)
    || exists k | 0 <= k < n ::
         inputs[k].Look? && inputs[k].o.score == score && forall m | k < m < n :: inputs[m].Force?
  }

  lemma {:induction false} ScoreIsLatest(cfg: Config, inputs: seq<Input>, n: nat)
    requires n <= |inputs|
    ensures LatestScore(inputs, n, After(cfg, inputs, n).score)
  {
    if n > 0 {
      ScoreIsLatest(cfg, inputs, n - 1);
      if inputs[n - 1].Look? {
        assert inputs[n - 1].o.score == After(cfg, inputs, n).score;
      }
    }
  }

  /** `force_exit` emits exactly while present, with its own time and reason and the
      latest score. */
  lemma ForceEmitsWhen(cfg: Config, inputs: seq<Input>, i: nat)
    requires i < |inputs| && inputs[i].Force?
    ensures Out(cfg, inputs, i).Some? <==> After(cfg, inputs, i).state == Present
    ensures Says(cfg, inputs, i, After(cfg, inputs, i).state)
    ensures Out(cfg, inputs, i).Some? ==>
              var t := Out(cfg, inputs, i).value;
              && t == Transition(Present, Absent, Exit, inputs[i].ns, 0, t.score, Some(inputs[i].reason))
              && LatestScore(inputs, i, t.score)
  {
    StateIsLatestEvent(cfg, inputs, i);
    ScoreIsLatest(cfg, inputs, i);
  }

  lemma {:induction false} SilentKeepsState(cfg: Config, inputs: seq<Input>, k: nat, n: nat)
    requires k <= n <= |inputs| && Silent(cfg, inputs, k, n)
    ensures After(cfg, inputs, n).state == After(cfg, inputs, k).state
  {
    if k < n {
      SilentKeepsState(cfg, inputs, k, n - 1);
      assert Out(cfg, inputs, n - 1).None?;
    }
  }

  /** Events alternate, starting with ENTER. */
  lemma EventsAlternate(cfg: Config, inputs: seq<Input>, i: nat)
    requires i < |inputs| && Out(cfg, inputs, i).Some?
    ensures Silent(cfg, inputs, 0, i) ==> Out(cfg, inputs, i).value.event == Enter
    ensures forall k | 0 <= k < i && Out(cfg, inputs, k).Some? && Silent(cfg, inputs, k + 1, i) ::
              Out(cfg, inputs, k).value.event != Out(cfg, inputs, i).value.event
  {
    if Silent(cfg, inputs, 0, i) {
      SilentKeepsState(cfg, inputs, 0, i);
    }
    forall k | 0 <= k < i && Out(cfg, inputs, k).Some? && Silent(cfg, inputs, k + 1, i)
      ensures Out(cfg, inputs, k).value.event != Out(cfg, inputs, i).value.event
    {
      SilentKeepsState(cfg, inputs, k + 1, i);
    }
  }

  /** An event of `observe` comes at least its own setting after the event before it,
      however that one came about. */
  lemma EventsAreSpaced(cfg: Config, inputs: seq<Input>, k: nat, i: nat)
    requires forall a, b | 0 <= a <= b < |inputs| :: TimeOf(inputs[a]) <= TimeOf(inputs[b])
    requires k < i < |inputs| && inputs[i].Look?
    requires Out(cfg, inputs, k).Some? && Out(cfg, inputs, i).Some?
    ensures var seconds := if Out(cfg, inputs, i).value.event == Enter then cfg.enterSeconds else cfg.exitSeconds;
            var ns := (TimeOf(inputs[i]) - TimeOf(inputs[k])) as real;
            if seconds >= 0.0 then ns > seconds * 1000000000.0 - 1.0 else ns >= seconds * 1000000000.0
  {
    EmitsExactlyWhen(cfg, inputs, i);
    var j: nat :| j < i && BlockStart(cfg, inputs, j, i);
    EventReportsBlock(cfg, inputs, i, j);
    forall m: nat | m < i && BlockStart(cfg, inputs, m, i) ensures m == j {
      assert Block(cfg, inputs, m, i) && Block(cfg, inputs, j, i);
    }
    assert Silent(cfg, inputs, j, i);
    assert k < j;
    assert TimeOf(inputs[k]) <= TimeOf(inputs[j]);
  }
}
