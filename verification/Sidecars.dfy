/** What a nacked ledger row and a sidecar quote: a NACK the bridge published. */
module Sidecars {
  import opened Text
  import opened Records
  import opened Protocol
  import A = Archiving
  import B = RecordSending
  import D = Delivery
  import Archives
  import Safety
  import Sessions

  // -------------------------------------------------------------------
  // Ledger rows

  /** Some published NACK names the row's event with this reason and time. */
  predicate Quotes(nacks: seq<B.Nack>, id: Id, reason: Option<string>, failedAt: Option<int>) {
    exists i | 0 <= i < |nacks| ::
      nacks[i].eventId == id && reason == Some(nacks[i].reason) && failedAt == nacks[i].failedAt
  }

  ghost predicate RowsQuote(nacks: seq<B.Nack>, l: D.Ledger) {
    forall id | id in l && l[id].status == D.Nacked :: Quotes(nacks, id, l[id].nackReason, l[id].nackedAt)
  }

  lemma QuotesStays(nacks: seq<B.Nack>, more: seq<B.Nack>, id: Id, reason: Option<string>, failedAt: Option<int>)
    requires Quotes(nacks, id, reason, failedAt) && nacks <= more
    ensures Quotes(more, id, reason, failedAt)
  {
    var i :| 0 <= i < |nacks| && nacks[i].eventId == id && reason == Some(nacks[i].reason)
             && failedAt == nacks[i].failedAt;
    assert more[i] == nacks[i];
  }

  lemma CallQuotes(s: State, c: D.Core, cb: D.Callback)
    requires Genuine(s.b, cb) && RowsQuote(s.b.nacks, c.ledger)
    ensures RowsQuote(s.b.nacks, D.After(c, cb).ledger)
  {
    var l := D.After(c, cb).ledger;
    forall id | id in l && l[id].status == D.Nacked
      ensures Quotes(s.b.nacks, id, l[id].nackReason, l[id].nackedAt)
    {
      D.CallbackDecides(c, cb, id);
      if l[id] != c.ledger[id] {
        var i :| 0 <= i < |s.b.nacks| && cb.body == NackBody(s.b.nacks[i]);
        assert s.b.nacks[i].eventId == id;
      }
    }
  }

  lemma StartQuotes(nacks: seq<B.Nack>, k: Kid, rec: Record, now: real, resendAfter: real)
    requires RowsQuote(nacks, k.core.ledger)
    ensures RowsQuote(nacks, Started(k, rec, now, resendAfter).core.ledger)
  {
    Sessions.StartLedger(k, rec, now, resendAfter);
    D.SendsExactlyWhen(k.core, rec, now, resendAfter);
  }

  lemma KidQuotes(p: Params, s: State, k: Kid, step: Step)
    requires IsKidStep(step) && KidEnabled(s, k, step) && RowsQuote(s.b.nacks, k.core.ledger)
    ensures RowsQuote(s.b.nacks, KidDo(p, s, k, step).core.ledger)
  {
    if step.Call? {
      CallQuotes(s, k.core, step.cb);
    } else if step.Start? {
      StartQuotes(s.b.nacks, k, step.rec, step.now, p.resendAfter);
    } else {
      Sessions.LedgerUnwritten(p, s, k, step);
    }
  }

  lemma NacksGrow(p: Params, s: State, step: Step)
    requires Enabled(p, s, step)
    ensures s.b.nacks <= Do(p, s, step).b.nacks
  {}

  lemma StepQuotes(p: Params, s: State, step: Step, c: string)
    requires Enabled(p, s, step) && c in s.kids && RowsQuote(s.b.nacks, s.kids[c].core.ledger)
    ensures c in Do(p, s, step).kids
    ensures RowsQuote(Do(p, s, step).b.nacks, Do(p, s, step).kids[c].core.ledger)
  {
    var t := Do(p, s, step);
    NacksGrow(p, s, step);
    if IsKidStep(step) && step.kid == c {
      KidQuotes(p, s, s.kids[c], step);
    }
    RowsQuoteStays(s.b.nacks, t.b.nacks, t.kids[c].core.ledger);
  }

  lemma RowsQuoteStays(nacks: seq<B.Nack>, more: seq<B.Nack>, l: D.Ledger)
    requires RowsQuote(nacks, l) && nacks <= more
    ensures RowsQuote(more, l)
  {
    forall id | id in l && l[id].status == D.Nacked
      ensures Quotes(more, id, l[id].nackReason, l[id].nackedAt)
    {
      QuotesStays(nacks, more, id, l[id].nackReason, l[id].nackedAt);
    }
  }

  lemma {:induction false} RunQuotes(p: Params, s: State, steps: seq<Step>, t: State, c: string)
    requires c in s.kids && RowsQuote(s.b.nacks, s.kids[c].core.ledger)
    requires IsRun(p, s, steps, t)
    ensures c in t.kids && RowsQuote(t.b.nacks, t.kids[c].core.ledger)
    decreases |steps|
  {
    if steps != [] {
      StepQuotes(p, s, steps[0], c);
      RunQuotes(p, Do(p, s, steps[0]), steps[1..], t, c);
    }
  }

  /** In every reachable state a nacked row carries the reason and the time of a NACK
      that the bridge published for its event. */
  lemma NackedRowQuotes(p: Params, t: State, c: string, id: Id)
    requires c in t.kids && id in t.kids[c].core.ledger && t.kids[c].core.ledger[id].status == D.Nacked
    requires Reachable(p, t)
    ensures var row := t.kids[c].core.ledger[id];
            exists n | n in t.b.nacks ::
              n.eventId == id && row.nackReason == Some(n.reason) && row.nackedAt == n.failedAt
  {
    var s, steps :| Init(s) && IsRun(p, s, steps, t);
    Sessions.KidsAreFixed(p, s, steps, t);
    assert KidInit(s.kids[c]);
    RunQuotes(p, s, steps, t, c);
    var row := t.kids[c].core.ledger[id];
    assert Quotes(t.b.nacks, id, row.nackReason, row.nackedAt);
    var i :| 0 <= i < |t.b.nacks| && t.b.nacks[i].eventId == id && row.nackReason == Some(t.b.nacks[i].reason)
             && row.nackedAt == t.b.nacks[i].failedAt;
    assert t.b.nacks[i] in t.b.nacks;
  }

  // -------------------------------------------------------------------
  // Sidecars

  /** A row listed for a line that was read names the line's record. */
  lemma ListedRow(p: Params, t: State, c: string, m: nat, i: nat) returns (rec: Record)
    requires c in t.kids && m < |t.kids[c].moves| && !t.kids[c].moves[m].toSent
    requires i < |Archives.RowsOf(t.kids[c], t.kids[c].moves[m])|
    requires Reachable(p, t)
    ensures var k := t.kids[c];
            var row, kinds := Archives.RowsOf(k, k.moves[m])[i], A.KindsIn(k.moves[m].read, k.device);
            && 1 <= row.0 <= |kinds| && kinds[row.0 - 1] == A.Carries(rec)
            && row.1 == rec.eventId && row.1 in k.core.ledger && k.core.ledger[row.1].status == D.Nacked
            && k.core.ledger[row.1].mkDate == rec.mkDate
  {
    var k := t.kids[c];
    var read := k.moves[m].read;
    var row, kinds := Archives.RowsOf(k, k.moves[m])[i], A.KindsIn(read, k.device);
    A.NackedLinesAre(k.core.ledger, kinds, row);
    rec := kinds[row.0 - 1].rec;
    A.CarriedIsValid(read, k.device, row.0 - 1);
    Safety.ReachableInv(p, t);
    assert Safety.KidOk(t.b.table, k);
    assert Safety.LedgerRowOk(t.b.table, k.device, row.1, k.core.ledger[row.1]);
    EventIdInjective(rec, k.core.ledger[row.1].payload);
  }

  /** Every row of the sidecar beside a moved file is for a line that was read and its
      record, with the MK_DATE of the record and the reason and time of a NACK that the
      bridge published for it. */
  lemma SidecarQuotes(p: Params, t: State, c: string, m: nat, row: A.SidecarRow)
    requires c in t.kids && m < |t.kids[c].moves| && !t.kids[c].moves[m].toSent
    requires var k := t.kids[c]; k.moves[m].target in k.sidecars && row in k.sidecars[k.moves[m].target]
    requires Reachable(p, t)
    ensures var kinds := A.KindsIn(t.kids[c].moves[m].read, t.kids[c].device);
            && 1 <= row.lineNo <= |kinds| && kinds[row.lineNo - 1].Carries?
            && row.eventId == kinds[row.lineNo - 1].rec.eventId
            && row.mkDate == Some(kinds[row.lineNo - 1].rec.mkDate)
            && exists n | n in t.b.nacks ::
                 n.eventId == row.eventId && row.reason == Some(n.reason) && row.failedAt == n.failedAt
  {
    var k := t.kids[c];
    Archives.ReachableOk(p, t, c);
    assert Archives.MoveOk(k, k.moves[m]);
    var side := k.sidecars[k.moves[m].target];
    var i :| 0 <= i < |side| && side[i] == row;
    var rec := ListedRow(p, t, c, m, i);
    NackedRowQuotes(p, t, c, rec.eventId);
  }
}
