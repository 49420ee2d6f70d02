/** The circuit breaker kept per Oracle profile and shared by the event sender
    and the record sender, which the main loop runs one after the other. */
module Breaker {
  import opened Text

  datatype CircuitState = Closed | Open | HalfOpen

  datatype Entry = Entry(state: CircuitState, openedAt: Option<int>, lastOraCode: Option<int>)

  const FRESH := Entry(Closed, None, None)

  predicate IsPermanent(code: Option<int>, permanent: set<int>) {
    code.Some? && code.value in permanent
  }

  /** The entry after `state_for`; its `state` is the answer. */
  function Looked(e: Entry, now: Option<int>, timeout: int): Entry {
    if e.state == Open && e.openedAt.Some? && now.Some? && now.value - e.openedAt.value >= timeout
    then e.(state := HalfOpen) else e
  }

  function Failed(e: Entry, code: Option<int>, now: int, permanent: set<int>): Entry {
    if IsPermanent(code, permanent) then Entry(Open, Some(now), code) else e
  }

  function Succeeded(e: Entry): Entry { FRESH }

  class CircuitBreaker {
    const timeout: int
    const permanent: set<int>
    var entries: map<string, Entry>

    constructor (halfOpenAfter: int, permanentCodes: set<int>)
      ensures timeout == halfOpenAfter && permanent == permanentCodes && entries == map[]
    {
      timeout, permanent, entries := halfOpenAfter, permanentCodes, map[];
    }

    function EntryOf(profile: string): Entry
      reads this
    {
      if profile in entries then entries[profile] else FRESH
    }

    method StateFor(profile: string, now: Option<int>) returns (state: CircuitState)
      modifies this
      ensures EntryOf(profile) == Looked(old(EntryOf(profile)), now, timeout)
      ensures state == EntryOf(profile).state
      ensures forall p | p != profile :: EntryOf(p) == old(EntryOf(p))
    {
      var e := EntryOf(profile);
      if e.state == Open && e.openedAt.Some? && now.Some? {
        if now.value - e.openedAt.value >= timeout {
          e := e.(state := HalfOpen);
        }
      }
      entries := entries[profile := e];
      state := e.state;
    }

    method RecordFailure(profile: string, code: Option<int>, now: int)
      modifies this
      ensures EntryOf(profile) == Failed(old(EntryOf(profile)), code, now, permanent)
      ensures forall p | p != profile :: EntryOf(p) == old(EntryOf(p))
    {
      var e := EntryOf(profile);
      entries := entries[profile := e];
      if !IsPermanent(code, permanent) {
        return;
      }
      entries := entries[profile := Entry(Open, Some(now), code)];
    }

    method RecordSuccess(profile: string)
      modifies this
      ensures EntryOf(profile) == Succeeded(old(EntryOf(profile)))
      ensures forall p | p != profile :: EntryOf(p) == old(EntryOf(p))
    {
      entries := entries[profile := Entry(Closed, None, None)];
    }
  }

  // -------------------------------------------------------------------
  // One run_once of either sender, seen from the breaker

  /** What one MERGE makes its sender tell the breaker. `GaveUp` is the record
      sender's unretryable row, which it does not report at all. */
  datatype Outcome = Success | Failure(code: Option<int>) | GaveUp

  function Report(e: Entry, o: Outcome, now: int, permanent: set<int>): Entry {
    match o
    case Success => Succeeded(e)
    case Failure(code) => Failed(e, code, now, permanent)
    case GaveUp => e
  }

  function ReportAll(e: Entry, outcomes: seq<Outcome>, now: int, permanent: set<int>): Entry {
    if outcomes == [] then e
    else Report(ReportAll(e, outcomes[..|outcomes| - 1], now, permanent), outcomes[|outcomes| - 1], now, permanent)
  }

  lemma ReportNext(e: Entry, outcomes: seq<Outcome>, last: Outcome, now: int, permanent: set<int>)
    ensures ReportAll(e, outcomes + [last], now, permanent) ==
            Report(ReportAll(e, outcomes, now, permanent), last, now, permanent)
  {
    assert (outcomes + [last])[..|outcomes|] == outcomes;
  }

  /** `due` lists what the MERGE of each due row would come back with. */
  datatype Run = Run(profile: string, now: int, due: seq<Outcome>)

  /** A run issues its MERGEs unless it finds the breaker open. */
  predicate Issues(e: Entry, run: Run, timeout: int) {
    Looked(e, Some(run.now), timeout).state != Open && run.due != []
  }

  function AfterRun(e: Entry, run: Run, timeout: int, permanent: set<int>): Entry {
    var seen := Looked(e, Some(run.now), timeout);
    if seen.state == Open then seen else ReportAll(seen, run.due, run.now, permanent)
  }

  /** `Sender.run_once` as far as the breaker goes; the record sender's own
      `run_once` is in module RecordSending. A code of `None` is a success here. */
  method EventRunOnce(breaker: CircuitBreaker, profile: string, now: int, codes: seq<Option<int>>)
    returns (merges: nat)
    modifies breaker
    ensures var run := Run(profile, now, EventOutcomes(codes));
            && breaker.EntryOf(profile) ==
               AfterRun(old(breaker.EntryOf(profile)), run, breaker.timeout, breaker.permanent)
            && merges == (if Issues(old(breaker.EntryOf(profile)), run, breaker.timeout) then |codes| else 0)
    ensures forall p | p != profile :: breaker.EntryOf(p) == old(breaker.EntryOf(p))
  {
    merges := 0;
    var state := breaker.StateFor(profile, Some(now));
    if state == Open {
      return;
    }
    ghost var start := breaker.EntryOf(profile);
    for i := 0 to |codes|
      invariant merges == i
      invariant breaker.EntryOf(profile) == ReportAll(start, EventOutcomes(codes)[..i], now, breaker.permanent)
      invariant forall p | p != profile :: breaker.EntryOf(p) == old(breaker.EntryOf(p))
    {
      merges := merges + 1;
      if codes[i].None? {
        breaker.RecordSuccess(profile);
      } else {
        breaker.RecordFailure(profile, codes[i], now);
      }
      assert EventOutcomes(codes)[..i + 1][..i] == EventOutcomes(codes)[..i];
    }
    assert EventOutcomes(codes)[..|codes|] == EventOutcomes(codes);
  }

  function EventOutcomes(codes: seq<Option<int>>): (r: seq<Outcome>)
    ensures |r| == |codes|
    ensures forall i | 0 <= i < |r| :: r[i] == if codes[i].None? then Success else Failure(codes[i])
  {
    seq(|codes|, i requires 0 <= i < |codes| => if codes[i].None? then Success else Failure(codes[i]))
  }

  // -------------------------------------------------------------------
  // Any interleaving of runs, over any profiles

  function EntryBefore(runs: seq<Run>, i: nat, profile: string, timeout: int, permanent: set<int>): Entry
    requires i <= |runs|
  {
    if i == 0 then FRESH
    else
      var e := EntryBefore(runs, i - 1, profile, timeout, permanent);
      if runs[i - 1].profile == profile then AfterRun(e, runs[i - 1], timeout, permanent) else e
  }

  /** An open breaker knows since when. */
  predicate Dated(e: Entry) { e.state == Open ==> e.openedAt.Some? }

  lemma {:induction false} RunKeepsDated(e: Entry, run: Run, timeout: int, permanent: set<int>)
    requires Dated(e)
    ensures Dated(AfterRun(e, run, timeout, permanent))
  {
    ReportKeepsDated(Looked(e, Some(run.now), timeout), run.due, run.now, permanent);
  }

  lemma {:induction false} ReportKeepsDated(e: Entry, due: seq<Outcome>, now: int, permanent: set<int>)
    requires Dated(e)
    ensures Dated(ReportAll(e, due, now, permanent))
  {
    if due != [] {
      ReportKeepsDated(e, due[..|due| - 1], now, permanent);
    }
  }

  /** The run reports a permanent failure and no success after it. */
  predicate EndsInPermanentFailure(due: seq<Outcome>, permanent: set<int>) {
    exists k | 0 <= k < |due| ::
      && due[k].Failure? && due[k].code.Some? && due[k].code.value in permanent
      && forall m | k < m < |due| :: due[m] != Success
  }

  lemma {:induction false} FailureLeavesOpen(e: Entry, due: seq<Outcome>, now: int, permanent: set<int>)
    requires EndsInPermanentFailure(due, permanent)
    ensures var r := ReportAll(e, due, now, permanent);
            && r.state == Open && r.openedAt == Some(now)
            && r.lastOraCode.Some? && r.lastOraCode.value in permanent && Failure(r.lastOraCode) in due
  {
    var n := |due| - 1;
    var k :| && 0 <= k < |due| && due[k].Failure? && due[k].code.Some? && due[k].code.value in permanent
             && forall m | k < m < |due| :: due[m] != Success;
    if k < n {
      assert due[..n][k] == due[k] && due[..n][k].Failure?;
      assert forall m | k < m < n :: due[..n][m] != Success;
      FailureLeavesOpen(e, due[..n], now, permanent);
    }
  }

  /** Run `i` goes through, and its last word is a permanent failure. */
  predicate Trips(runs: seq<Run>, i: nat, timeout: int, permanent: set<int>)
    requires i < |runs|
  {
    && Issues(EntryBefore(runs, i, runs[i].profile, timeout, permanent), runs[i], timeout)
    && EndsInPermanentFailure(runs[i].due, permanent)
  }

  /** No run of the profile between `i` and `j` comes after the quiet period. */
  predicate QuietBetween(runs: seq<Run>, i: nat, j: nat, timeout: int)
    requires i < j <= |runs|
  {
    forall m | i < m < j && runs[m].profile == runs[i].profile :: runs[m].now < runs[i].now + timeout
  }

  lemma {:induction false} StaysOpen(runs: seq<Run>, i: nat, j: nat, timeout: int, permanent: set<int>)
    requires i < j <= |runs| && Trips(runs, i, timeout, permanent) && QuietBetween(runs, i, j, timeout)
    ensures var e := EntryBefore(runs, j, runs[i].profile, timeout, permanent);
            e.state == Open && e.openedAt == Some(runs[i].now)
    decreases j
  {
    var p := runs[i].profile;
    if j == i + 1 {
      var seen := Looked(EntryBefore(runs, i, p, timeout, permanent), Some(runs[i].now), timeout);
      FailureLeavesOpen(seen, runs[i].due, runs[i].now, permanent);
    } else {
      StaysOpen(runs, i, j - 1, timeout, permanent);
    }
  }

  /** After a run that ends in a permanent failure, no run of either sender on
      that profile issues a MERGE until the quiet period is over. */
  lemma QuietPeriod(runs: seq<Run>, i: nat, j: nat, timeout: int, permanent: set<int>)
    requires forall a, b | 0 <= a <= b < |runs| :: runs[a].now <= runs[b].now
    requires i < j < |runs| && Trips(runs, i, timeout, permanent)
    requires runs[j].profile == runs[i].profile && runs[j].now < runs[i].now + timeout
    ensures !Issues(EntryBefore(runs, j, runs[i].profile, timeout, permanent), runs[j], timeout)
  {
    StaysOpen(runs, i, j, timeout, permanent);
  }

  /** The quiet period ends on time: over any runs, the first run of the profile that
      comes at or after its end issues its MERGEs, and none before does. */
  lemma QuietPeriodEnds(runs: seq<Run>, i: nat, j: nat, timeout: int, permanent: set<int>)
    requires i < j < |runs| && Trips(runs, i, timeout, permanent) && QuietBetween(runs, i, j, timeout)
    requires runs[j].profile == runs[i].profile && runs[j].due != []
    ensures Issues(EntryBefore(runs, j, runs[i].profile, timeout, permanent), runs[j], timeout) <==>
            runs[j].now >= runs[i].now + timeout
  {
    StaysOpen(runs, i, j, timeout, permanent);
  }

  // -------------------------------------------------------------------
  // For any clock: exactly when a run finds the breaker open

  /** Reports open a breaker that is not open only if they end in a permanent failure. */
  lemma {:induction false} OpenNeedsFailure(e: Entry, due: seq<Outcome>, now: int, permanent: set<int>)
    requires e.state != Open && ReportAll(e, due, now, permanent).state == Open
    ensures EndsInPermanentFailure(due, permanent)
  {
    var n := |due| - 1;
    if due != [] {
      match due[n] {
        case Success =>
        case Failure(code) =>
          if !IsPermanent(code, permanent) {
            OpenNeedsFailure(e, due[..n], now, permanent);
            FailureStaysLast(due, permanent);
          }
        case GaveUp =>
          OpenNeedsFailure(e, due[..n], now, permanent);
          FailureStaysLast(due, permanent);
      }
    }
  }

  lemma FailureStaysLast(due: seq<Outcome>, permanent: set<int>)
    requires due != [] && due[|due| - 1] != Success && EndsInPermanentFailure(due[..|due| - 1], permanent)
    ensures EndsInPermanentFailure(due, permanent)
  {
    var before := due[..|due| - 1];
    var k :| && 0 <= k < |before| && before[k].Failure?
             && before[k].code.Some? && before[k].code.value in permanent
             && forall m | k < m < |before| :: before[m] != Success;
    assert due[k] == before[k];
    assert forall m | k < m < |before| :: due[m] == before[m];
  }

  /** Run `k` tripped the profile's breaker, and since then no run of the profile came
      past the end of its quiet period. */
  predicate HeldBy(runs: seq<Run>, k: nat, j: nat, profile: string, timeout: int, permanent: set<int>)
    requires j <= |runs|
  {
    && k < j && runs[k].profile == profile
    && Trips(runs, k, timeout, permanent) && QuietBetween(runs, k, j, timeout)
  }

  /** An open breaker was tripped by such a run, at the time it shows. */
  lemma {:induction false} OpenHasCause(runs: seq<Run>, j: nat, profile: string, timeout: int, permanent: set<int>)
    returns (k: nat)
    requires j <= |runs| && EntryBefore(runs, j, profile, timeout, permanent).state == Open
    ensures HeldBy(runs, k, j, profile, timeout, permanent)
    ensures EntryBefore(runs, j, profile, timeout, permanent).openedAt == Some(runs[k].now)
    decreases j
  {
    k := j - 1;
    var e := EntryBefore(runs, k, profile, timeout, permanent);
    var seen := Looked(e, Some(runs[k].now), timeout);
    if runs[k].profile != profile || seen.state == Open {
      k := OpenHasCause(runs, k, profile, timeout, permanent);
    } else {
      OpenNeedsFailure(seen, runs[k].due, runs[k].now, permanent);
      FailureLeavesOpen(seen, runs[k].due, runs[k].now, permanent);
    }
  }

  /** Whatever the clock does: a run with something due is kept from its MERGEs if and
      only if it comes within the quiet period of an earlier run that tripped the
      breaker, with no run of the profile past that period in between. */
  lemma {:induction false} KeptBackIff(runs: seq<Run>, j: nat, timeout: int, permanent: set<int>)
    requires j < |runs| && runs[j].due != []
    ensures var p := runs[j].profile;
            !Issues(EntryBefore(runs, j, p, timeout, permanent), runs[j], timeout) <==>
            exists k: nat :: HeldBy(runs, k, j, p, timeout, permanent) && runs[j].now < runs[k].now + timeout
  {
    var p := runs[j].profile;
    if !Issues(EntryBefore(runs, j, p, timeout, permanent), runs[j], timeout) {
      var k := OpenHasCause(runs, j, p, timeout, permanent);
    }
    if k: nat :| HeldBy(runs, k, j, p, timeout, permanent) && runs[j].now < runs[k].now + timeout {
      StaysOpen(runs, k, j, timeout, permanent);
    }
  }

  /** So the quiet period of run `i` holds for a run that comes within it if and only if
      no run of the profile in between was past it, or a later trip still holds. */
  lemma {:induction false} QuietPeriodIff(runs: seq<Run>, i: nat, j: nat, timeout: int, permanent: set<int>)
    requires i < j < |runs| && Trips(runs, i, timeout, permanent)
    requires runs[j].profile == runs[i].profile && runs[j].now < runs[i].now + timeout && runs[j].due != []
    ensures !Issues(EntryBefore(runs, j, runs[i].profile, timeout, permanent), runs[j], timeout) <==>
            || QuietBetween(runs, i, j, timeout)
            || exists k | i < k < j ::
                 HeldBy(runs, k, j, runs[i].profile, timeout, permanent) && runs[j].now < runs[k].now + timeout
  {
    var p := runs[i].profile;
    KeptBackIff(runs, j, timeout, permanent);
    if !Issues(EntryBefore(runs, j, p, timeout, permanent), runs[j], timeout) {
      var k: nat :| HeldBy(runs, k, j, p, timeout, permanent) && runs[j].now < runs[k].now + timeout;
      if k < i {
        StaysOpen(runs, k, i, timeout, permanent);
      }
    }
    if QuietBetween(runs, i, j, timeout) {
      assert HeldBy(runs, i, j, p, timeout, permanent);
    }
  }

  /** A case where it does not hold: a run that finds no row half-opens the breaker at
      the end of the period, and a clock set back then lets MERGEs out within it. */
  lemma ClockSetBackBreaksQuiet(p: string, code: int)
    ensures var runs := [Run(p, 0, [Failure(Some(code))]), Run(p, 60, []), Run(p, 30, [Success])];
            && EndsInPermanentFailure(runs[0].due, {code})
            && runs[2].now < runs[0].now + 60
            && Issues(EntryBefore(runs, 2, p, 60, {code}), runs[2], 60)
  {
    var runs := [Run(p, 0, [Failure(Some(code))]), Run(p, 60, []), Run(p, 30, [Success])];
    assert runs[0].due[0].Failure?;
    var e0 := EntryBefore(runs, 0, p, 60, {code});
    var e1 := EntryBefore(runs, 1, p, 60, {code});
    assert ReportAll(FRESH, [Failure(Some(code))][..0], 0, {code}) == FRESH;
    assert e1 == Entry(Open, Some(0), Some(code));
    var e2 := EntryBefore(runs, 2, p, 60, {code});
    assert e2 == AfterRun(e1, runs[1], 60, {code});
  }
}
