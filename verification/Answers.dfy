/** Asking the provider again. The answer repeats for ever, with one exception: a delayed success
    that was first answered unknown. */
module Answers {
  import opened Collections
  import opened LedgerSpec
  import opened Invariant
  import opened Provider
  import opened Protocol
  import opened Agreement
  import opened RunProperties

  /** The two receipts of one attempt at the ends of a run. */
  lemma ReceiptLater(config: Config, es: seq<Event>, fs: seq<Event>, w: Work)
    requires w in Reached(config, es).works && w.id in Reached(config, es).receipts
    ensures var s, t := Reached(config, es), Reached(config, es + fs);
            && w.id in t.receipts && ReceiptGrows(s.receipts[w.id], t.receipts[w.id])
            && Consistent(s.receipts[w.id]) && Consistent(t.receipts[w.id])
            && Acceptable(w) && Matches(t.receipts[w.id], w)
  {
    ReachedInv(config, es);
    ReachedInv(config, es + fs);
    ReachedMoves(config, es, fs);
    NoSubmissionIsRefused(config, es, w, 0);
    var s, t := Reached(config, es), Reached(config, es + fs);
    assert ReceiptRow(s.ledger.config, s.ledger.attempts, w.id, s.receipts[w.id]);
    assert ReceiptGrows(s.receipts[w.id], t.receipts[w.id]);
    assert ReceiptRow(t.ledger.config, t.ledger.attempts, w.id, t.receipts[w.id]);
  }

  /** Whatever has happened in between, a repeated question is answered, never lost, and gives the
      stored result unless it was a delayed success still unknown that has matured since. */
  lemma AskAgain(config: Config, es: seq<Event>, fs: seq<Event>, w: Work, now: Instant)
    requires w in Reached(config, es).works && w.id in Reached(config, es).receipts
    ensures w.id in Reached(config, es + fs).receipts
    ensures var r, q := Reached(config, es).receipts[w.id], Reached(config, es + fs).receipts[w.id];
            var reply := Reply(Reached(config, es + fs).receipts, w, now);
            && reply.Answered? && !reply.lost
            && (reply.result == r.result <==>
                 !(r.scenario.DelayedSuccess? && r.result.ResultUnknown?
                   && (q.result.ResultSucceeded? || r.acceptedAt + 3_000_000 <= now)))
  {
    ReceiptLater(config, es, fs, w);
  }

  /** A later question is answered with the given result. */
  ghost predicate Repeats(config: Config, es: seq<Event>, w: Work, result: Result, fs: seq<Event>, now: Instant) {
    var reply := Reply(Reached(config, es + fs).receipts, w, now);
    reply.Answered? && reply.result == result
  }

  lemma StoredResultRepeats(config: Config, es: seq<Event>, w: Work)
    requires w in Reached(config, es).works && w.id in Reached(config, es).receipts
    ensures var r := Reached(config, es).receipts[w.id];
            (forall fs, now :: Repeats(config, es, w, r.result, fs, now)) <==> !(w.scenario.DelayedSuccess? && r.result.ResultUnknown?)
  {
    var r := Reached(config, es).receipts[w.id];
    ReceiptLater(config, es, [], w);
    assert es + [] == es;
    if w.scenario.DelayedSuccess? && r.result.ResultUnknown? {
      AskAgain(config, es, [], w, r.acceptedAt + 3 * SECOND);
      assert !Repeats(config, es, w, r.result, [], r.acceptedAt + 3 * SECOND);
    } else {
      forall fs, now ensures Repeats(config, es, w, r.result, fs, now) { AskAgain(config, es, fs, w, now); }
    }
  }

  /** The promise and its exact condition: after a first answer every later question, in every
      continuation and at every clock reading, gets the same result if and only if the answer was
      not "unknown" for a delayed success. */
  lemma SameAnswerForEver(config: Config, es: seq<Event>, w: Work, first: Instant)
    requires w in Reached(config, es).works
    ensures var answer := Reply(Reached(config, es).receipts, w, first);
            && answer.Answered?
            && ((forall fs, now :: Repeats(config, es + [Submit(w, first)], w, answer.result, fs, now))
                <==> !(w.scenario.DelayedSuccess? && answer.result.ResultUnknown?))
  {
    NoSubmissionIsRefused(config, es, w, first);
    ReachedStep(config, es, Submit(w, first));
    var s, t := Reached(config, es), Reached(config, es + [Submit(w, first)]);
    assert t.receipts == Accept(s.receipts, w, first) && w in t.works;
    StoredResultRepeats(config, es + [Submit(w, first)], w);
  }

  // ---------- first answers ----------

  /** The provider has been asked about the attempt along the run. */
  ghost predicate Asked(config: Config, es: seq<Event>, id: Uuid) {
    exists k :: 0 <= k < |es| && AskedAt(config, es, id, k)
  }

  ghost predicate AskedAt(config: Config, es: seq<Event>, id: Uuid, k: nat)
    requires k < |es|
  {
    es[k].Submit? && es[k].work.id == id && es[k].work in Reached(config, es[..k]).works
  }

  lemma AskedOn(config: Config, es: seq<Event>, e: Event, id: Uuid)
    ensures Asked(config, es + [e], id) <==>
      Asked(config, es, id) || (e.Submit? && e.work.id == id && e.work in Reached(config, es).works)
  {
    var all := es + [e];
    assert all[..|es|] == es;
    forall k | 0 <= k < |es| ensures AskedAt(config, all, id, k) <==> AskedAt(config, es, id, k) {
      assert all[..k] == es[..k];
    }
    if e.Submit? && e.work.id == id && e.work in Reached(config, es).works { assert AskedAt(config, all, id, |es|); }
    if Asked(config, es, id) {
      var k :| 0 <= k < |es| && AskedAt(config, es, id, k);
      assert AskedAt(config, all, id, k);
    }
  }

  lemma ReceiptStep(s: System, e: Event, id: Uuid)
    requires Inv(s)
    ensures id in Exec(s, e).receipts <==> id in s.receipts || (e.Submit? && e.work.id == id && e.work in s.works)
  {
    if e.Submit? && e.work in s.works { Accepted(s, e.work, e.now); }
  }

  /** A work under way is always answered. */
  lemma Accepted(s: System, w: Work, now: Instant)
    requires Inv(s) && w in s.works
    ensures Reply(s.receipts, w, now).Answered?
  {
    var L := s.ledger;
    assert WorkRow(L.config, L.attempts, s.receipts, w);
    assert AttemptRow(L.config, L.orders, L.holds, L.attempts[w.id]);
    OrderAmount(L, w.orderId);
    if w.id in s.receipts { assert ReceiptRow(L.config, L.attempts, w.id, s.receipts[w.id]); }
  }

  /** There is a receipt for exactly the attempts the provider has been asked about. */
  lemma {:induction false} ReceiptIffAsked(config: Config, es: seq<Event>, id: Uuid)
    ensures id in Reached(config, es).receipts <==> Asked(config, es, id)
    decreases |es|
  {
    if es != [] {
      var n := |es| - 1;
      ReceiptIffAsked(config, es[..n], id);
      ReachedInv(config, es[..n]);
      ReachedStep(config, es[..n], es[n]);
      ReceiptStep(Reached(config, es[..n]), es[n], id);
      AskedOn(config, es[..n], es[n], id);
      assert es == es[..n] + [es[n]];
    }
  }

  /** The result of a first question, by the scenario and the attempt's own deadline. */
  function ByScenario(scenario: Scenario, late: bool): Result {
    match scenario
    case Success => if late then ResultFailed else ResultSucceeded
    case LostResponse => if late then ResultFailed else ResultSucceeded
    case Failure => ResultFailed
    case DelayedSuccess => if late then ResultFailed else ResultUnknown
    case NeverResolved => if late then ResultFailed else ResultUnknown
  }

  /** The answer to any work in any reachable state: lost exactly on the first question of an attempt
      started with the lost-response scenario; the first result is decided by the scenario and by
      whether the attempt's payment window is over. */
  lemma FirstAnswer(config: Config, es: seq<Event>, w: Work, now: Instant)
    requires w in Reached(config, es).works
    ensures var s, reply := Reached(config, es), Reply(Reached(config, es).receipts, w, now);
            && reply.Answered? && w.id in s.ledger.attempts
            && var a := s.ledger.attempts[w.id];
            && (reply.lost <==> a.scenario.LostResponse? && !Asked(config, es, w.id))
            && (!Asked(config, es, w.id) ==>
                 reply.result == ByScenario(a.scenario, a.createdAt + config.paymentWindow * 1_000_000 <= now))
  {
    ReachedInv(config, es);
    ConfigKept(config, es);
    ReceiptIffAsked(config, es, w.id);
    var s := Reached(config, es);
    Accepted(s, w, now);
    assert WorkRow(s.ledger.config, s.ledger.attempts, s.receipts, w);
  }

  /** The receipt a first question leaves: the facts of the attempt, the reading of the question and the
      first result. */
  lemma FirstReceipt(config: Config, es: seq<Event>, w: Work, now: Instant)
    requires w in Reached(config, es).works && !Asked(config, es, w.id)
    ensures var s, t := Reached(config, es), Exec(Reached(config, es), Submit(w, now));
            && w.id in s.ledger.attempts
            && var a := s.ledger.attempts[w.id];
               var deadline := a.createdAt + config.paymentWindow * 1_000_000;
            t.receipts == s.receipts[w.id := Receipt(a.amount, a.scenario, now, deadline, ByScenario(a.scenario, deadline <= now))]
  {
    ReachedInv(config, es);
    ConfigKept(config, es);
    ReceiptIffAsked(config, es, w.id);
    FirstAnswer(config, es, w, now);
    var s := Reached(config, es);
    assert WorkRow(s.ledger.config, s.ledger.attempts, s.receipts, w);
  }

  // ---------- a lost response ----------

  /** What a worker makes of an answer that arrives: a lost one is unknown to it. */
  function Heard(reply: Answer): Result {
    if reply.Answered? && !reply.lost then reply.result else ResultUnknown
  }

  /** One job: ask the provider and report what was heard. */
  ghost function Job(s: System, w: Work, now: Instant): seq<Event> {
    [Submit(w, now), Deliver(ApplyCall(w.id, w.amount, Heard(Reply(s.receipts, w, now)), now, now, now))]
  }

  /** A job whose answer is heard leaves its open attempt with what was heard. */
  lemma JobLeaves(s: System, w: Work, now: Instant)
    requires Inv(s) && w in s.works && w.id in s.ledger.attempts && !s.ledger.attempts[w.id].Terminal()
    ensures var t := After(s, Job(s, w, now));
            && Inv(t) && w in t.works && t.receipts == Accept(s.receipts, w, now)
            && w.id in t.ledger.attempts && w.id in t.receipts
            && t.ledger.attempts[w.id].status == StatusOf(Heard(Reply(s.receipts, w, now)))
  {
    var e, f := Job(s, w, now)[0], Job(s, w, now)[1];
    assert Job(s, w, now) == [e] + [f];
    AfterConcat(s, [e], [f]);
    JobAsks(s, w, now);
    var t := Exec(s, e);
    assert After(s, [e]) == t && After(t, [f]) == Exec(t, f);
    ExecKeepsInv(s, e);
    ExecKeepsInv(t, f);
    JobTells(t, w, f.call);
  }

  lemma JobAsks(s: System, w: Work, now: Instant)
    requires Inv(s) && w in s.works
    ensures var t, reply := Exec(s, Submit(w, now)), Reply(s.receipts, w, now);
            && reply.Answered? && Message(w.id, w.amount, reply.result) in t.sent
            && t.ledger == s.ledger && t.works == s.works && t.receipts == Accept(s.receipts, w, now) && w.id in t.receipts
  {
    Accepted(s, w, now);
  }

  lemma JobTells(s: System, w: Work, c: ApplyCall)
    requires Inv(s) && w in s.works && w.id in s.ledger.attempts && !s.ledger.attempts[w.id].Terminal()
    requires c.attempt == w.id && c.amount == w.amount
    requires c.result.ResultUnknown? || Message(w.id, w.amount, c.result) in s.sent
    ensures var t := Exec(s, Deliver(c));
            && t == s.(ledger := t.ledger) && w.id in t.ledger.attempts && t.ledger.attempts[w.id].status == StatusOf(c.result)
  {
    assert WorkRow(s.ledger.config, s.ledger.attempts, s.receipts, w);
    var m := Message(w.id, w.amount, c.result);
    assert m.id == c.attempt && m.result == c.result;
    OpenAttempt(s.ledger, w.id);
  }

  /** A lost response costs one job: the first leaves the payment unknown, the second, at any later or
      earlier reading, finds the receipt: succeeded if the first question came inside the payment
      window, and failed otherwise. */
  lemma LostResponseRecovers(config: Config, es: seq<Event>, w: Work, first: Instant, second: Instant)
    requires w in Reached(config, es).works && !Asked(config, es, w.id)
    requires w.id in Reached(config, es).ledger.attempts && !Reached(config, es).ledger.attempts[w.id].Terminal()
    requires Reached(config, es).ledger.attempts[w.id].scenario.LostResponse?
    ensures var s := Reached(config, es);
            var t := After(s, Job(s, w, first));
            var u := After(t, Job(t, w, second));
            && w.id in t.ledger.attempts && t.ledger.attempts[w.id].status.Unknown?
            && w.id in u.ledger.attempts
            && u.ledger.attempts[w.id].status ==
                 if first < s.ledger.attempts[w.id].createdAt + config.paymentWindow * 1_000_000 then Succeeded else Failed
  {
    ReachedInv(config, es);
    FirstAnswer(config, es, w, first);
    ReceiptIffAsked(config, es, w.id);
    var s := Reached(config, es);
    JobLeaves(s, w, first);
    var t := After(s, Job(s, w, first));
    SecondFinds(s.receipts, w, first, second);
    JobLeaves(t, w, second);
  }

  /** The second answer is the stored first one, and it arrives. */
  lemma SecondFinds(receipts: map<Uuid, Receipt>, w: Work, first: Instant, second: Instant)
    requires w.id !in receipts && Reply(receipts, w, first).Answered? && w.scenario.LostResponse?
    ensures Reply(Accept(receipts, w, first), w, second) == Answered(Reply(receipts, w, first).result, false)
  {
  }

  /** The questions the provider refuses: no amount, no deadline, or another amount or scenario than
      the stored one. A refused question changes nothing. */
  lemma RefusedQuestions(receipts: map<Uuid, Receipt>, w: Work, now: Instant)
    ensures Reply(receipts, w, now).InvalidRequest? <==> w.amount <= 0 || w.deadline.None?
    ensures Reply(receipts, w, now).IdempotencyConflict? <==>
      w.amount > 0 && w.deadline.Some? && w.id in receipts
      && (receipts[w.id].amount != w.amount || receipts[w.id].scenario != w.scenario)
    ensures !Reply(receipts, w, now).Answered? ==> Accept(receipts, w, now) == receipts
  {
  }
}
