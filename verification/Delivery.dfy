/** The child side of record delivery: the durable ledger and the MQTT session
    that publishes records and waits for their ACK or NACK. */
module Delivery {
  import opened Text
  import opened Records

  // -------------------------------------------------------------------
  // The ledger

  datatype LedgerStatus = Pending | Acked | Legacy | Nacked

  datatype LedgerRow = LedgerRow(
    mkDate: string, payload: Record, status: LedgerStatus, lastAttempt: Option<real>,
    nackReason: Option<string>, nackedAt: Option<int>)

  /** The rows of one destination. */
  type Ledger = map<Id, LedgerRow>

  predicate Decided(row: LedgerRow) { row.status == Acked || row.status == Nacked }

  function SavedPending(l: Ledger, rec: Record, now: real): Ledger {
    if rec.eventId in l then l[rec.eventId := l[rec.eventId].(lastAttempt := Some(now))]
    else l[rec.eventId := LedgerRow(rec.mkDate, rec, Pending, Some(now), None, None)]
  }

  function Touched(l: Ledger, id: Id, now: real): Ledger {
    if id in l then l[id := l[id].(lastAttempt := Some(now))] else l
  }

  function MarkedAcked(l: Ledger, id: Id): Ledger {
    if id in l then l[id := l[id].(status := Acked)] else l
  }

  function MarkedNacked(l: Ledger, id: Id, reason: string, failedAt: Option<int>): Ledger {
    if id in l && l[id].status == Pending then
      l[id := l[id].(status := Nacked, nackReason := Some(reason), nackedAt := failedAt)]
    else l
  }

  /** Rows are never dropped, their record never changes, and a row that is
      acked, nacked or legacy does not change at all. */
  ghost predicate Keeps(a: Ledger, b: Ledger) {
    forall id | id in a ::
      && id in b && b[id].payload == a[id].payload && b[id].mkDate == a[id].mkDate
      && (a[id].status != Pending ==> b[id] == a[id])
      && (a[id].status == Pending ==> b[id].status != Legacy)
  }

  // -------------------------------------------------------------------
  // Session callbacks

  const SUBACK_FAILURE := 0x80

  datatype Session = Session(subscribed: bool, nackEnabled: bool, expectedMid: Option<int>)

  const OFFLINE := Session(false, false, None)

  datatype Topic = AckTopic | NackTopic | OtherTopic

  /** A payload as the JSON reader sees it. */
  datatype Body =
    | Malformed
    | Fields(eventId: Option<string>, mkDate: Option<string>, reason: Option<string>, failedAt: Option<int>)

  datatype Callback =
    | OnConnect(mid: int)
    | OnSubscribe(mid: int, granted: seq<int>)
    | OnDisconnect
    | OnMessage(topic: Topic, retain: bool, body: Body)

  /** What the callbacks and `send` change. */
  datatype Core = Core(ledger: Ledger, session: Session)

  function HandledAck(l: Ledger, body: Body): Ledger {
    if body.Malformed? || body.eventId.None? || body.eventId.value == "" then l
    else
      var id := body.eventId.value;
      if id !in l || l[id].status != Pending then l
      else if body.mkDate != Some(l[id].mkDate) then l
      else MarkedAcked(l, id)
  }

  function HandledNack(l: Ledger, nackEnabled: bool, body: Body): Ledger {
    if !nackEnabled || body.Malformed? || body.eventId.None? || body.eventId.value == "" then l
    else
      var id := body.eventId.value;
      if id !in l || l[id].status != Pending then l
      else MarkedNacked(l, id, if body.reason.Some? then body.reason.value else "", body.failedAt)
  }

  function After(c: Core, cb: Callback): Core {
    match cb
    case OnConnect(mid) => c.(session := Session(false, false, Some(mid)))
    case OnSubscribe(mid, granted) =>
      if c.session.expectedMid != Some(mid) then c
      else c.(session := Session(|granted| >= 1 && granted[0] != SUBACK_FAILURE,
                                 |granted| >= 2 && granted[1] != SUBACK_FAILURE, Some(mid)))
    case OnDisconnect => c.(session := Session(false, false, c.session.expectedMid))
    case OnMessage(topic, retain, body) =>
      if retain then c
      else match topic
        case AckTopic => c.(ledger := HandledAck(c.ledger, body))
        case NackTopic => c.(ledger := HandledNack(c.ledger, c.session.nackEnabled, body))
        case OtherTopic => c
  }

  function AfterAll(c: Core, cbs: seq<Callback>): Core
    decreases |cbs|
  {
    if cbs == [] then c else AfterAll(After(c, cbs[0]), cbs[1..])
  }

  // -------------------------------------------------------------------
  // send

  datatype Outcome = AckedOutcome | NackedOutcome | PendingOutcome

  /** What `send` finds before it publishes. `Raise` is the content mismatch. */
  datatype Check = Return(outcome: Outcome) | Raise | Publish(ledger: Ledger)

  function Checked(c: Core, rec: Record, now: real, resendAfter: real): Check {
    if !c.session.subscribed then Return(PendingOutcome)
    else if rec.eventId !in c.ledger then Publish(SavedPending(c.ledger, rec, now))
    else
      var row := c.ledger[rec.eventId];
      if row.status == Legacy then Return(PendingOutcome)
      else if row.payload != rec then Raise
      else if row.status == Acked then Return(AckedOutcome)
      else if row.status == Nacked then Return(NackedOutcome)
      else if row.lastAttempt.Some? && now - row.lastAttempt.value < resendAfter then Return(PendingOutcome)
      else Publish(Touched(c.ledger, rec.eventId, now))
  }

  function OutcomeOf(l: Ledger, id: Id): Outcome {
    if id in l && l[id].status == Acked then AckedOutcome
    else if id in l && l[id].status == Nacked then NackedOutcome
    else PendingOutcome
  }

  /** The wait for an answer: `rounds` are the callbacks that run during each
      sleep, up to the deadline. */
  function Waited(c: Core, id: Id, rounds: seq<seq<Callback>>): Core
    decreases |rounds|
  {
    if OutcomeOf(c.ledger, id) != PendingOutcome || rounds == [] then c
    else Waited(AfterAll(c, rounds[0]), id, rounds[1..])
  }

  datatype SendResult = Sent(outcome: Outcome) | ContentMismatch

  /** A whole call of `send`. `accepted` is whether the client took the message. */
  function AfterSend(c: Core, rec: Record, now: real, resendAfter: real, accepted: bool,
                     rounds: seq<seq<Callback>>): Core {
    match Checked(c, rec, now, resendAfter)
    case Publish(ledger) =>
      var saved := Core(ledger, c.session);
      if accepted then Waited(saved, rec.eventId, rounds) else saved
    case _ => c
  }

  function ResultOfSend(c: Core, rec: Record, now: real, resendAfter: real, accepted: bool,
                        rounds: seq<seq<Callback>>): SendResult {
    match Checked(c, rec, now, resendAfter)
    case Return(outcome) => Sent(outcome)
    case Raise => ContentMismatch
    case Publish(_) =>
      Sent(if accepted then OutcomeOf(AfterSend(c, rec, now, resendAfter, accepted, rounds).ledger, rec.eventId)
           else PendingOutcome)
  }

  lemma CallbackKeeps(c: Core, cb: Callback)
    ensures Keeps(c.ledger, After(c, cb).ledger)
  {}

  lemma CheckKeeps(c: Core, rec: Record, now: real, resendAfter: real)
    ensures Checked(c, rec, now, resendAfter).Publish? ==>
              Keeps(c.ledger, Checked(c, rec, now, resendAfter).ledger)
  {}

  /** The attempt time of an event that has one: callbacks leave it alone, and a
      check changes it only to a time at least `resendAfter` later. */
  lemma CallbackKeepsAttempt(c: Core, cb: Callback, id: Id)
    requires id in c.ledger
    ensures id in After(c, cb).ledger && After(c, cb).ledger[id].lastAttempt == c.ledger[id].lastAttempt
  {}

  lemma CheckMovesAttempt(c: Core, rec: Record, now: real, resendAfter: real, id: Id)
    requires id in c.ledger && c.ledger[id].lastAttempt.Some? && Checked(c, rec, now, resendAfter).Publish?
    ensures var l := Checked(c, rec, now, resendAfter).ledger;
            && id in l
            && if id == rec.eventId then
                 l[id].lastAttempt == Some(now) && now - c.ledger[id].lastAttempt.value >= resendAfter
               else l[id].lastAttempt == c.ledger[id].lastAttempt
  {}

  lemma {:induction false} CallbacksKeep(c: Core, cbs: seq<Callback>)
    ensures Keeps(c.ledger, AfterAll(c, cbs).ledger)
    decreases |cbs|
  {
    if cbs != [] {
      CallbacksKeep(After(c, cbs[0]), cbs[1..]);
    }
  }

  lemma {:induction false} WaitKeeps(c: Core, id: Id, rounds: seq<seq<Callback>>)
    ensures Keeps(c.ledger, Waited(c, id, rounds).ledger)
    decreases |rounds|
  {
    if OutcomeOf(c.ledger, id) == PendingOutcome && rounds != [] {
      CallbacksKeep(c, rounds[0]);
      WaitKeeps(AfterAll(c, rounds[0]), id, rounds[1..]);
    }
  }

  /** A call of `send` keeps the ledger's decisions, and the outcome it reports is
      the row's or "pending". */
  lemma SendKeeps(c: Core, rec: Record, now: real, resendAfter: real, accepted: bool, rounds: seq<seq<Callback>>)
    ensures var l := AfterSend(c, rec, now, resendAfter, accepted, rounds).ledger;
            var result := ResultOfSend(c, rec, now, resendAfter, accepted, rounds);
            && Keeps(c.ledger, l)
            && (result.Sent? ==> result.outcome == PendingOutcome || result.outcome == OutcomeOf(l, rec.eventId))
  {
    var check := Checked(c, rec, now, resendAfter);
    if check.Publish? && accepted {
      WaitKeeps(Core(check.ledger, c.session), rec.eventId, rounds);
    }
  }

  // -------------------------------------------------------------------
  // What `send` and the callbacks come to, on the fields

  /** What a call does first. Without a subscription, for a legacy row and before
      `resendAfter` has passed it does nothing and tells "pending"; a decided row is told
      as it is; another record under the id raises. It publishes exactly when it is
      subscribed and the record has no row, or its own pending row that was never tried
      or was last tried `resendAfter` ago or more. */
  lemma SendsExactlyWhen(c: Core, rec: Record, now: real, resendAfter: real)
    ensures var check, l, id := Checked(c, rec, now, resendAfter), c.ledger, rec.eventId;
            && (check.Publish? <==>
                c.session.subscribed &&
                (id in l ==> && l[id].status == Pending && l[id].payload == rec
                             && (l[id].lastAttempt.Some? ==> now - l[id].lastAttempt.value >= resendAfter)))
            && (check.Publish? ==>
                  check.ledger == if id in l then l[id := l[id].(lastAttempt := Some(now))]
                                  else l[id := LedgerRow(rec.mkDate, rec, Pending, Some(now), None, None)])
            && (check.Raise? <==> c.session.subscribed && id in l && l[id].status != Legacy && l[id].payload != rec)
            && (check.Return? ==>
                  check.outcome == if !c.session.subscribed || l[id].status == Legacy || l[id].status == Pending
                                   then PendingOutcome
                                   else if l[id].status == Acked then AckedOutcome else NackedOutcome)
  {}

  /** The wait runs the callbacks of round after round, and stops as soon as the row is
      decided, or after the last round. */
  lemma {:induction false} WaitEnds(c: Core, id: Id, rounds: seq<seq<Callback>>) returns (n: nat)
    ensures n <= |rounds| && Waited(c, id, rounds) == AfterRounds(c, rounds, n)
    ensures forall m: nat | m < n :: !DecidedIn(AfterRounds(c, rounds, m).ledger, id)
    ensures n < |rounds| ==> DecidedIn(AfterRounds(c, rounds, n).ledger, id)
    decreases |rounds|
  {
    n := 0;
    if OutcomeOf(c.ledger, id) == PendingOutcome && rounds != [] {
      var c1 := AfterAll(c, rounds[0]);
      var k := WaitEnds(c1, id, rounds[1..]);
      n := k + 1;
      forall m: nat | m <= k ensures AfterRounds(c, rounds, m + 1) == AfterRounds(c1, rounds[1..], m) {
        RoundsShift(c, rounds, m);
      }
      forall m: nat | m < n ensures !DecidedIn(AfterRounds(c, rounds, m).ledger, id) {
        if m > 0 {
          assert !DecidedIn(AfterRounds(c1, rounds[1..], m - 1).ledger, id);
        }
      }
    }
  }

  predicate DecidedIn(l: Ledger, id: Id) { id in l && (l[id].status == Acked || l[id].status == Nacked) }

  /** After the callbacks of the first `n` rounds. */
  function AfterRounds(c: Core, rounds: seq<seq<Callback>>, n: nat): Core
    requires n <= |rounds|
  {
    if n == 0 then c else AfterAll(AfterRounds(c, rounds, n - 1), rounds[n - 1])
  }

  lemma {:induction false} RoundsShift(c: Core, rounds: seq<seq<Callback>>, m: nat)
    requires m + 1 <= |rounds|
    ensures AfterRounds(c, rounds, m + 1) == AfterRounds(AfterAll(c, rounds[0]), rounds[1..], m)
  {
    if m > 0 {
      RoundsShift(c, rounds, m - 1);
    }
  }

  /** What a publishing call tells: the row's decision at the end of the wait. A message
      the client did not take is not waited for. */
  lemma PublishTells(c: Core, rec: Record, now: real, resendAfter: real, accepted: bool, rounds: seq<seq<Callback>>)
    requires Checked(c, rec, now, resendAfter).Publish?
    ensures var l := AfterSend(c, rec, now, resendAfter, accepted, rounds).ledger;
            var result := ResultOfSend(c, rec, now, resendAfter, accepted, rounds);
            && rec.eventId in l && result.Sent?
            && (accepted ==> match l[rec.eventId].status
                             case Acked => result.outcome == AckedOutcome
                             case Nacked => result.outcome == NackedOutcome
                             case _ => result.outcome == PendingOutcome)
            && (!accepted ==> result.outcome == PendingOutcome && l == Checked(c, rec, now, resendAfter).ledger)
  {
    var ledger := Checked(c, rec, now, resendAfter).ledger;
    CheckKeeps(c, rec, now, resendAfter);
    WaitKeeps(Core(ledger, c.session), rec.eventId, rounds);
  }

  /** A callback changes a row only if the row is pending and the message is not retained
      and names it: an ACK with its MK_DATE acks it, a NACK while NACKs are enabled nacks
      it with the reason and time it carries. */
  lemma CallbackDecides(c: Core, cb: Callback, id: Id)
    requires id in c.ledger
    ensures var row, l := c.ledger[id], After(c, cb).ledger;
            var open := cb.OnMessage? && !cb.retain && cb.body.Fields? && cb.body.eventId == Some(id)
                        && id != "" && row.status == Pending;
            && id in l
            && l[id] == if open && cb.topic == AckTopic && cb.body.mkDate == Some(row.mkDate) then
                          row.(status := Acked)
                        else if open && cb.topic == NackTopic && c.session.nackEnabled then
                          row.(status := Nacked, nackedAt := cb.body.failedAt,
                               nackReason := Some(if cb.body.reason.Some? then cb.body.reason.value else ""))
                        else row
    ensures After(c, cb).ledger.Keys == c.ledger.Keys
  {}

  // -------------------------------------------------------------------
  // The classes

  /** The SQLite file: rows by destination, then by event id. */
  class DeliveryDb {
    var rows: map<string, Ledger>

    constructor ()
      ensures rows == map[]
    {
      rows := map[];
    }

    function LedgerOf(destination: string): Ledger
      reads this
    {
      if destination in rows then rows[destination] else map[]
    }
  }

  class DeliveryStore {
    const db: DeliveryDb
    const destination: string

    constructor (db: DeliveryDb, destination: string)
      ensures this.db == db && this.destination == destination
    {
      this.db, this.destination := db, destination;
    }

    function Ledger(): Ledger
      reads this, db
    {
      db.LedgerOf(destination)
    }

    twostate predicate OthersUnchanged()
      reads this, db
    {
      forall d | d != destination :: db.LedgerOf(d) == old(db.LedgerOf(d))
    }

    method Put(id: Id, row: LedgerRow)
      modifies db
      ensures Ledger() == old(Ledger())[id := row] && OthersUnchanged()
    {
      db.rows := db.rows[destination := Ledger()[id := row]];
    }

    method Get(id: Id) returns (row: Option<LedgerRow>)
      ensures row == if id in Ledger() then Some(Ledger()[id]) else None
    {
      if id in Ledger() { row := Some(Ledger()[id]); } else { row := None; }
    }

    method SavePending(rec: Record, now: real)
      modifies db
      ensures Ledger() == SavedPending(old(Ledger()), rec, now) && OthersUnchanged()
    {
      var row := Get(rec.eventId);
      if row.Some? {
        Put(rec.eventId, row.value.(lastAttempt := Some(now)));
      } else {
        Put(rec.eventId, LedgerRow(rec.mkDate, rec, Pending, Some(now), None, None));
      }
    }

    method TouchPending(id: Id, now: real)
      modifies db
      ensures Ledger() == Touched(old(Ledger()), id, now) && OthersUnchanged()
    {
      var row := Get(id);
      if row.Some? {
        Put(id, row.value.(lastAttempt := Some(now)));
      }
    }

    method MarkAcked(id: Id)
      modifies db
      ensures Ledger() == MarkedAcked(old(Ledger()), id) && OthersUnchanged()
    {
      var row := Get(id);
      if row.Some? {
        Put(id, row.value.(status := Acked));
      }
    }

    method MarkNacked(id: Id, reason: string, failedAt: Option<int>) returns (updated: bool)
      modifies db
      ensures Ledger() == MarkedNacked(old(Ledger()), id, reason, failedAt) && OthersUnchanged()
      ensures updated == (id in old(Ledger()) && old(Ledger())[id].status == Pending)
    {
      updated := false;
      var row := Get(id);
      if row.Some? && row.value.status == Pending {
        Put(id, row.value.(status := Nacked, nackReason := Some(reason), nackedAt := failedAt));
        updated := true;
      }
    }
  }

  class AckSession {
    const store: DeliveryStore
    const resendAfter: real
    var subscribed: bool
    var nackEnabled: bool
    var expectedMid: Option<int>
    var published: seq<Record>

    constructor (store: DeliveryStore, resendAfter: real)
      ensures this.store == store && this.resendAfter == resendAfter
      ensures !subscribed && !nackEnabled && expectedMid == None && published == []
    {
      this.store, this.resendAfter := store, resendAfter;
      subscribed, nackEnabled, expectedMid, published := false, false, None, [];
    }

    ghost function View(): Core
      reads this, store, store.db
    {
      Core(store.Ledger(), Session(subscribed, nackEnabled, expectedMid))
    }

    method Connected(mid: int)
      modifies this
      ensures View() == After(old(View()), OnConnect(mid)) && published == old(published)
    {
      subscribed := false;
      nackEnabled := false;
      expectedMid := Some(mid);
    }

    method Subscribed(mid: int, granted: seq<int>)
      modifies this
      ensures View() == After(old(View()), OnSubscribe(mid, granted)) && published == old(published)
    {
      if expectedMid != Some(mid) {
        return;
      }
      var ackOk := |granted| >= 1 && granted[0] != SUBACK_FAILURE;
      nackEnabled := |granted| >= 2 && granted[1] != SUBACK_FAILURE;
      subscribed := ackOk;
    }

    method Disconnected()
      modifies this
      ensures View() == After(old(View()), OnDisconnect) && published == old(published)
    {
      subscribed := false;
      nackEnabled := false;
    }

    method Message(topic: Topic, retain: bool, body: Body)
      modifies store.db
      ensures View() == After(old(View()), OnMessage(topic, retain, body)) && store.OthersUnchanged()
    {
      if retain {
        return;
      }
      match topic
      case AckTopic => HandleAck(body);
      case NackTopic => HandleNack(body);
      case OtherTopic =>
    }

    method HandleAck(body: Body)
      modifies store.db
      ensures store.Ledger() == HandledAck(old(store.Ledger()), body) && store.OthersUnchanged()
    {
      if body.Malformed? || body.eventId.None? || body.eventId.value == "" {
        return;
      }
      var row := store.Get(body.eventId.value);
      if row.None? || row.value.status != Pending {
        return;
      }
      if Some(row.value.mkDate) != body.mkDate {
        return;
      }
      store.MarkAcked(body.eventId.value);
    }

    method HandleNack(body: Body)
      modifies store.db
      ensures store.Ledger() == HandledNack(old(store.Ledger()), nackEnabled, body) && store.OthersUnchanged()
    {
      if !nackEnabled || body.Malformed? || body.eventId.None? || body.eventId.value == "" {
        return;
      }
      var row := store.Get(body.eventId.value);
      if row.None? || row.value.status != Pending {
        return;
      }
      var _ := store.MarkNacked(body.eventId.value,
                                if body.reason.Some? then body.reason.value else "", body.failedAt);
    }

    method Run(cb: Callback)
      modifies this, store.db
      ensures View() == After(old(View()), cb) && published == old(published)
      ensures store.OthersUnchanged()
    {
      match cb
      case OnConnect(mid) => Connected(mid);
      case OnSubscribe(mid, granted) => Subscribed(mid, granted);
      case OnDisconnect => Disconnected();
      case OnMessage(topic, retain, body) => Message(topic, retain, body);
    }

    method Send(rec: Record, now: real, accepted: bool, rounds: seq<seq<Callback>>) returns (result: SendResult)
      modifies this, store.db
      ensures View() == AfterSend(old(View()), rec, now, resendAfter, accepted, rounds)
      ensures result == ResultOfSend(old(View()), rec, now, resendAfter, accepted, rounds)
      ensures published == old(published) +
                           if Checked(old(View()), rec, now, resendAfter).Publish? then [rec] else []
      ensures published == old(published) + [rec] <==>
              old(subscribed) &&
              (rec.eventId in old(store.Ledger()) ==>
                 var row := old(store.Ledger())[rec.eventId];
                 && row.status == Pending && row.payload == rec
                 && (row.lastAttempt.Some? ==> now - row.lastAttempt.value >= resendAfter))
      ensures store.OthersUnchanged()
    {
      if !subscribed {
        return Sent(PendingOutcome);
      }
      var existing := store.Get(rec.eventId);
      if existing.None? {
        store.SavePending(rec, now);
      } else {
        var row := existing.value;
        if row.status == Legacy { return Sent(PendingOutcome); }
        if row.payload != rec { return ContentMismatch; }
        if row.status == Acked { return Sent(AckedOutcome); }
        if row.status == Nacked { return Sent(NackedOutcome); }
        if row.lastAttempt.Some? && now - row.lastAttempt.value < resendAfter {
          return Sent(PendingOutcome);
        }
        store.TouchPending(rec.eventId, now);
      }
      result := PublishAndWait(rec, accepted, rounds);
    }

    method PublishAndWait(rec: Record, accepted: bool, rounds: seq<seq<Callback>>) returns (result: SendResult)
      modifies this, store.db
      ensures published == old(published) + [rec]
      ensures View() == if accepted then Waited(old(View()), rec.eventId, rounds) else old(View())
      ensures result == Sent(if accepted then OutcomeOf(View().ledger, rec.eventId) else PendingOutcome)
      ensures store.OthersUnchanged()
    {
      published := published + [rec];
      if !accepted {
        return Sent(PendingOutcome);
      }
      var round := 0;
      while true
        invariant round <= |rounds|
        invariant published == old(published) + [rec]
        invariant Waited(View(), rec.eventId, rounds[round..]) == Waited(old(View()), rec.eventId, rounds)
        invariant store.OthersUnchanged()
        decreases |rounds| - round
      {
        var row := store.Get(rec.eventId);
        if row.Some? && row.value.status == Acked { return Sent(AckedOutcome); }
        if row.Some? && row.value.status == Nacked { return Sent(NackedOutcome); }
        if round == |rounds| { return Sent(PendingOutcome); }
        assert rounds[round..][0] == rounds[round] && rounds[round..][1..] == rounds[round + 1..];
        Sleep(rounds[round]);
        round := round + 1;
      }
    }

    method Sleep(cbs: seq<Callback>)
      modifies this, store.db
      ensures View() == AfterAll(old(View()), cbs) && published == old(published)
      ensures store.OthersUnchanged()
    {
      for i := 0 to |cbs|
        invariant AfterAll(View(), cbs[i..]) == AfterAll(old(View()), cbs)
        invariant published == old(published) && store.OthersUnchanged()
      {
        assert cbs[i..][0] == cbs[i] && cbs[i..][1..] == cbs[i + 1..];
        Run(cbs[i]);
      }
    }
  }
}
