/** What any continuation of a run can make of an open payment: a reported success settles its order
    exactly once among all other events, and the payment can still be finished unless the provider
    has accepted it for ever unknown. */
module Continuations {
  import opened Collections
  import opened LedgerSpec
  import opened Invariant
  import opened Evolution
  import opened Provider
  import opened Protocol
  import opened Agreement
  import opened RunProperties

  predicate Pending(L: Ledger, a: Uuid) { a in L.attempts && !L.attempts[a].Terminal() }

  // ---------- exactly once ----------

  /** The environment reports a success of `a` with its amount. */
  ghost predicate Reports(s: System, e: Event, a: Uuid) {
    && Enabled(s, e) && e.Deliver? && e.call.attempt == a && e.call.result.ResultSucceeded?
    && a in s.ledger.attempts && e.call.amount == s.ledger.attempts[a].amount
  }

  /** The first report of a success along a run. */
  ghost predicate FirstReport(s: System, es: seq<Event>, a: Uuid, k: nat)
    requires Linked(s.ledger) && k < |es|
  {
    Reports(After(s, es[..k]), es[k], a) && forall j :: 0 <= j < k ==> !Reports(After(s, es[..j]), es[j], a)
  }

  ghost predicate Reported(s: System, es: seq<Event>, a: Uuid)
    requires Linked(s.ledger)
  {
    exists k :: 0 <= k < |es| && Reports(After(s, es[..k]), es[k], a)
  }

  lemma AfterTail(s: System, es: seq<Event>, k: nat)
    requires Linked(s.ledger) && 0 < k <= |es|
    ensures After(s, es[..k]) == After(Exec(s, es[0]), es[1..][..k - 1])
  {
    assert es[..k][0] == es[0] && es[..k][1..] == es[1..][..k - 1];
  }

  lemma ReportShifts(s: System, es: seq<Event>, a: Uuid, k: nat)
    requires Linked(s.ledger) && 0 < k < |es|
    ensures Reports(After(s, es[..k]), es[k], a) <==> Reports(After(Exec(s, es[0]), es[1..][..k - 1]), es[1..][k - 1], a)
  {
    AfterTail(s, es, k);
  }

  lemma ReportedTail(s: System, es: seq<Event>, a: Uuid)
    requires Linked(s.ledger) && es != [] && !Reports(s, es[0], a)
    ensures Reported(s, es, a) <==> Reported(Exec(s, es[0]), es[1..], a)
  {
    if Reported(s, es, a) { ReportedThen(s, es, a); }
    if Reported(Exec(s, es[0]), es[1..], a) { ReportedBefore(s, es, a); }
  }

  lemma ReportedThen(s: System, es: seq<Event>, a: Uuid)
    requires Linked(s.ledger) && es != [] && !Reports(s, es[0], a) && Reported(s, es, a)
    ensures Reported(Exec(s, es[0]), es[1..], a)
  {
    var k :| 0 <= k < |es| && Reports(After(s, es[..k]), es[k], a);
    assert k != 0 by { assert es[..0] == [] && After(s, es[..0]) == s; }
    ReportShifts(s, es, a, k);
    assert Reports(After(Exec(s, es[0]), es[1..][..k - 1]), es[1..][k - 1], a);
  }

  lemma ReportedBefore(s: System, es: seq<Event>, a: Uuid)
    requires Linked(s.ledger) && es != [] && Reported(Exec(s, es[0]), es[1..], a)
    ensures Reported(s, es, a)
  {
    var k :| 0 <= k < |es[1..]| && Reports(After(Exec(s, es[0]), es[1..][..k]), es[1..][k], a);
    ReportShifts(s, es, a, k + 1);
  }

  lemma FirstReportTail(s: System, es: seq<Event>, a: Uuid, k: nat)
    requires Linked(s.ledger) && es != [] && !Reports(s, es[0], a)
    requires k < |es[1..]| && FirstReport(Exec(s, es[0]), es[1..], a, k)
    ensures FirstReport(s, es, a, k + 1)
  {
    var t, tail := Exec(s, es[0]), es[1..];
    AfterTail(s, es, k + 1);
    forall j | 0 <= j < k + 1 ensures !Reports(After(s, es[..j]), es[j], a) {
      if j == 0 {
        assert es[..0] == [] && After(s, es[..0]) == s;
      } else {
        AfterTail(s, es, j);
        assert !Reports(After(t, tail[..j - 1]), tail[j - 1], a);
      }
    }
  }

  /** One step of an open payment. */
  lemma StepOfOpen(s: System, e: Event, a: Uuid)
    requires Inv(s) && Pending(s.ledger, a)
    ensures var t := Exec(s, e);
            && a in t.ledger.attempts
            && (t.ledger.attempts[a].status.Succeeded? <==> Reports(s, e, a))
            && (Reports(s, e, a) ==> t.ledger.attempts[a].terminalAt == Some(e.call.terminalAt))
  {
    var L := s.ledger;
    OpenAttempt(L, a);
    match e {
      case NewSale(c) => assert CreateSale(L, c).attempts == L.attempts;
      case Buy(c) => assert Purchase(L, c).attempts == L.attempts;
      case Sweep(id, now) => assert Expire(L, id, now).attempts == L.attempts;
      case Deliver(c) => OneResult(L, c, a);
      case Pay(c) => StartKeepsAttempts(L, c);
      case Lease(id, now) => ClaimTouchesLease(L, id, now);
      case _ =>
    }
  }

  lemma OneResult(L: Ledger, c: ApplyCall, a: Uuid)
    requires Valid(L) && Linked(L) && Pending(L, a)
    ensures var M := Apply(L, c);
            && a in M.attempts
            && M.attempts[a] == if c.attempt == a && c.amount == L.attempts[a].amount then Resolve(L.attempts[a], c) else L.attempts[a]
  {
    OpenAttempt(L, a);
  }

  /** A failed payment is never reported as a success. */
  lemma NoReportAfterFailure(s: System, e: Event, a: Uuid)
    requires Inv(s) && a in s.ledger.attempts && s.ledger.attempts[a].status.Failed?
    ensures !Reports(s, e, a)
  {
    assert AgreeRow(s.ledger.attempts, s.receipts, a);
  }

  lemma {:induction false} FinalAlong(s: System, es: seq<Event>, a: Uuid)
    requires Inv(s) && a in s.ledger.attempts && s.ledger.attempts[a].Terminal()
    ensures var M := After(s, es).ledger;
            a in M.attempts && M.attempts[a].status == s.ledger.attempts[a].status && M.attempts[a].terminalAt == s.ledger.attempts[a].terminalAt
    ensures s.ledger.attempts[a].status.Failed? ==> !Reported(s, es, a)
  {
    RunMoves(s, es);
    assert AttemptGrows(s.ledger.attempts[a], After(s, es).ledger.attempts[a]);
    if s.ledger.attempts[a].status.Failed? {
      forall k | 0 <= k < |es| ensures !Reports(After(s, es[..k]), es[k], a) {
        RunKeepsInv(s, es[..k]);
        RunMoves(s, es[..k]);
        assert AttemptGrows(s.ledger.attempts[a], After(s, es[..k]).ledger.attempts[a]);
        NoReportAfterFailure(After(s, es[..k]), es[k], a);
      }
    }
  }

  /** How a run with an open payment ends: succeeded exactly if a success was reported, and then at
      the time of the first report. */
  ghost predicate EndsAsReported(s: System, es: seq<Event>, a: Uuid)
    requires Linked(s.ledger)
  {
    var M := After(s, es).ledger;
    && a in M.attempts
    && (M.attempts[a].status.Succeeded? <==> Reported(s, es, a))
    && (Reported(s, es, a) ==> exists k: nat :: k < |es| && FirstReport(s, es, a, k)
                                                && M.attempts[a].terminalAt == Some(es[k].call.terminalAt))
  }

  lemma ReportedNow(s: System, es: seq<Event>, a: Uuid)
    requires Inv(s) && Pending(s.ledger, a) && es != [] && Reports(s, es[0], a)
    ensures EndsAsReported(s, es, a)
  {
    ExecKeepsInv(s, es[0]);
    StepOfOpen(s, es[0], a);
    FinalAlong(Exec(s, es[0]), es[1..], a);
    assert es[..0] == [] && After(s, es[..0]) == s;
    assert FirstReport(s, es, a, 0);
  }

  lemma ReportedLater(s: System, es: seq<Event>, a: Uuid)
    requires Linked(s.ledger) && es != [] && !Reports(s, es[0], a)
    requires EndsAsReported(Exec(s, es[0]), es[1..], a)
    ensures EndsAsReported(s, es, a)
  {
    ReportedTail(s, es, a);
    var t, tail := Exec(s, es[0]), es[1..];
    if Reported(t, tail, a) {
      var k: nat :| k < |tail| && FirstReport(t, tail, a, k) && After(t, tail).ledger.attempts[a].terminalAt == Some(tail[k].call.terminalAt);
      FirstReportTail(s, es, a, k);
      assert es[k + 1] == tail[k];
    }
  }

  lemma {:induction false} SuccessExactlyIfReported(s: System, es: seq<Event>, a: Uuid)
    requires Inv(s) && Pending(s.ledger, a)
    ensures EndsAsReported(s, es, a)
    decreases |es|
  {
    if es != [] {
      var e, t := es[0], Exec(s, es[0]);
      ExecKeepsInv(s, e);
      StepOfOpen(s, e, a);
      if Reports(s, e, a) {
        ReportedNow(s, es, a);
      } else {
        if Pending(t.ledger, a) {
          SuccessExactlyIfReported(t, es[1..], a);
        } else {
          FinalAlong(t, es[1..], a);
        }
        ReportedLater(s, es, a);
      }
    }
  }

  /** What an order contributes to the held and sold units of an item: the column without the
      quantities of all other orders. */
  ghost function OwnHeld(L: Ledger, order: Uuid, i: Uuid): int
    requires i in L.items
  {
    L.items[i].held - Sum(HeldStock, L.orders - {order}, i)
  }

  ghost function OwnSold(L: Ledger, order: Uuid, i: Uuid): int
    requires i in L.items
  {
    L.items[i].sold - Sum(SoldStock, L.orders - {order}, i)
  }

  lemma SumWithout(t: Tally, orders: map<Uuid, Order>, order: Uuid, i: Uuid)
    requires order in orders
    ensures Sum(t, orders, i) == Share(t, orders[order], i) + Sum(t, orders - {order}, i)
  {
    TotalSplit(Shares(t, orders, i), order);
    assert Shares(t, orders - {order}, i) == Shares(t, orders, i) - {order};
  }

  lemma OwnShares(L: Ledger, order: Uuid, i: Uuid)
    requires RowsOk(L) && order in L.orders && i in L.items
    ensures OwnHeld(L, order, i) == Share(HeldStock, L.orders[order], i)
    ensures OwnSold(L, order, i) == Share(SoldStock, L.orders[order], i)
  {
    assert StockRow(L.items, L.orders, i);
    SumWithout(HeldStock, L.orders, order, i);
    SumWithout(SoldStock, L.orders, order, i);
  }

  /** The rows and the stock of an order are the same in both ledgers. */
  ghost predicate SameForOrder(L: Ledger, M: Ledger, order: Uuid) {
    && order in L.orders && order in M.orders && M.orders[order] == L.orders[order]
    && order in L.holds && order in M.holds && M.holds[order] == L.holds[order]
    && forall i :: i in L.items ==>
         i in M.items && OwnHeld(M, order, i) == OwnHeld(L, order, i) && OwnSold(M, order, i) == OwnSold(L, order, i)
  }

  /** Rows that agree have stock that agrees. */
  lemma SameRowsSameStock(L: Ledger, M: Ledger, order: Uuid)
    requires RowsOk(L) && RowsOk(M) && order in L.orders && order in M.orders && M.orders[order] == L.orders[order]
    requires order in L.holds && order in M.holds && M.holds[order] == L.holds[order]
    requires forall i :: i in L.items ==> i in M.items
    ensures SameForOrder(L, M, order)
  {
    forall i | i in L.items ensures OwnHeld(M, order, i) == OwnHeld(L, order, i) && OwnSold(M, order, i) == OwnSold(L, order, i) {
      OwnShares(L, order, i);
      OwnShares(M, order, i);
    }
  }

  /** An order whose payment is live has the rows its status asks for. */
  lemma LiveRows(L: Ledger, M: Ledger, a: Uuid)
    requires Valid(L) && Valid(M) && Evolves(L, M) && Pending(L, a)
    requires a in M.attempts && !M.attempts[a].status.Failed?
    ensures var order := L.attempts[a].orderId;
            && order in L.orders && order in M.orders && order in L.holds && order in M.holds
            && M.orders[order] == L.orders[order].(status := OrderFor(M.attempts[a].status))
            && M.holds[order] == L.holds[order].(status := HoldFor(OrderFor(M.attempts[a].status)))
  {
    var order := L.attempts[a].orderId;
    OpenAttempt(L, a);
    assert AttemptRow(L.config, L.orders, L.holds, L.attempts[a]);
    assert AttemptGrows(L.attempts[a], M.attempts[a]);
    assert AttemptRow(M.config, M.orders, M.holds, M.attempts[a]);
    assert OrderGrows(L.orders[order], M.orders[order]) && HoldGrows(L.holds[order], M.holds[order]);
    assert HoldRow(L.config, L.orders[order], L.holds[order]) && HoldRow(M.config, M.orders[order], M.holds[order]);
  }

  /** One success alone leads to valid rows. */
  lemma SettledAlone(L: Ledger, a: Uuid)
    requires Valid(L) && Linked(L) && Pending(L, a)
    ensures var order := L.attempts[a].orderId;
            && order in L.orders && order in L.holds && RowsOk(Settle(L, order, true))
            && Settle(L, order, true).orders == L.orders[order := L.orders[order].(status := OrderConfirmed)]
            && Settle(L, order, true).holds == L.holds[order := L.holds[order].(status := HoldConfirmed)]
            && Settle(L, order, true).items.Keys == L.items.Keys
  {
    OpenAttempt(L, a);
    SettleKeepsRows(L, L.attempts[a].orderId, true);
  }

  lemma AsOneSuccess(L: Ledger, M: Ledger, a: Uuid)
    requires Valid(L) && Linked(L) && Valid(M) && Evolves(L, M) && Pending(L, a)
    requires a in M.attempts && M.attempts[a].status.Succeeded?
    ensures var order := L.attempts[a].orderId;
            order in L.orders && order in L.holds && SameForOrder(Settle(L, order, true), M, order)
  {
    var order := L.attempts[a].orderId;
    LiveRows(L, M, a);
    SettledAlone(L, a);
    assert forall i :: i in L.items.Keys ==> i in M.items;
    SameRowsSameStock(Settle(L, order, true), M, order);
  }

  lemma AsBefore(L: Ledger, M: Ledger, a: Uuid)
    requires Valid(L) && Linked(L) && Valid(M) && Evolves(L, M) && Pending(L, a) && Pending(M, a)
    ensures SameForOrder(L, M, L.attempts[a].orderId)
  {
    OpenAttempt(L, a);
    LiveRows(L, M, a);
    SameRowsSameStock(L, M, L.attempts[a].orderId);
  }

  /** Whatever else happens to the whole system, any number of reports of a success leaves the rows
      and the stock of the order exactly as one success alone does; without a report they stay as
      they are until the payment fails. */
  lemma SettledExactlyOnce(config: Config, es: seq<Event>, fs: seq<Event>, a: Uuid)
    requires Pending(Reached(config, es).ledger, a)
    ensures var s := Reached(config, es);
            var L, M := s.ledger, Reached(config, es + fs).ledger;
            var order := L.attempts[a].orderId;
            && order in L.orders && order in L.holds
            && After(s, fs) == Reached(config, es + fs) && EndsAsReported(s, fs, a)
            && (Reported(s, fs, a) ==> SameForOrder(Settle(L, order, true), M, order))
            && (Pending(M, a) ==> SameForOrder(L, M, order))
  {
    ReachedInv(config, es);
    ReachedInv(config, es + fs);
    ReachedMoves(config, es, fs);
    AfterConcat(Initial(config), es, fs);
    var s, t := Reached(config, es), Reached(config, es + fs);
    OpenAttempt(s.ledger, a);
    SuccessExactlyIfReported(s, fs, a);
    if Reported(s, fs, a) { AsOneSuccess(s.ledger, t.ledger, a); }
    if Pending(t.ledger, a) { AsBefore(s.ledger, t.ledger, a); }
  }

  // ---------- recovery ----------

  /** The provider has accepted the payment in time under the scenario that is never resolved. */
  ghost predicate Stuck(s: System, a: Uuid) {
    a in s.receipts && s.receipts[a].scenario.NeverResolved? && s.receipts[a].result.ResultUnknown?
  }

  lemma {:induction false} StuckForEver(config: Config, es: seq<Event>, fs: seq<Event>, a: Uuid)
    requires Pending(Reached(config, es).ledger, a) && Stuck(Reached(config, es), a)
    ensures Pending(Reached(config, es + fs).ledger, a)
  {
    ReachedMoves(config, es, fs);
    ReachedInv(config, es);
    ReachedInv(config, es + fs);
    var s, t := Reached(config, es), Reached(config, es + fs);
    assert AttemptGrows(s.ledger.attempts[a], t.ledger.attempts[a]);
    assert ReceiptRow(s.ledger.config, s.ledger.attempts, a, s.receipts[a]);
    assert ReceiptGrows(s.receipts[a], t.receipts[a]);
    assert ReceiptRow(t.ledger.config, t.ledger.attempts, a, t.receipts[a]);
    assert AgreeRow(t.ledger.attempts, t.receipts, a);
  }

  ghost function WorkNow(L: Ledger, a: Uuid): Work
    requires a in L.attempts && L.attempts[a].orderId in L.holds
  {
    var x := L.attempts[a];
    Work(a, x.orderId, x.amount, x.scenario, L.holds[x.orderId].deadline)
  }

  /** Another worker reads the attempt and its hold. */
  lemma WorkRead(s: System, a: Uuid) returns (es: seq<Event>)
    requires Inv(s) && Pending(s.ledger, a)
    ensures s.ledger.attempts[a].orderId in s.ledger.holds
    ensures var t := After(s, es); t.ledger == s.ledger && t.receipts == s.receipts && WorkNow(s.ledger, a) in t.works
  {
    OpenAttempt(s.ledger, a);
    var x := s.ledger.attempts[a];
    var h := Half(a, x.orderId, x.amount, x.scenario);
    var e, f := ReadAttempt(a), ReadHold(h);
    es := [e] + [f];
    AfterConcat(s, [e], [f]);
    assert After(s, [e]) == Exec(s, e);
    assert After(Exec(s, e), [f]) == Exec(Exec(s, e), f);
  }

  /** A clock reading at which the provider's answer is final. */
  ghost function LateEnough(s: System, a: Uuid): Instant
    requires a in s.ledger.attempts
  {
    if a in s.receipts then s.receipts[a].acceptedAt + 3 * SECOND else Window(s.ledger.config, s.ledger.attempts[a])
  }

  lemma AnswerIsFinal(s: System, w: Work)
    requires Inv(s) && w in s.works && Pending(s.ledger, w.id) && !Stuck(s, w.id)
    ensures var reply := Reply(s.receipts, w, LateEnough(s, w.id)); reply.Answered? && !reply.result.ResultUnknown?
  {
    var L := s.ledger;
    assert WorkRow(L.config, L.attempts, s.receipts, w);
    assert AttemptRow(L.config, L.orders, L.holds, L.attempts[w.id]);
    OrderAmount(L, w.orderId);
    if w.id in s.receipts { assert ReceiptRow(L.config, L.attempts, w.id, s.receipts[w.id]); }
  }

  /** The provider is asked late enough and its answer is reported. */
  lemma AskedAndTold(s: System, w: Work) returns (es: seq<Event>)
    requires Inv(s) && w in s.works && Pending(s.ledger, w.id) && !Stuck(s, w.id)
    ensures var t := After(s, es); w.id in t.ledger.attempts && t.ledger.attempts[w.id].Terminal()
  {
    var now := LateEnough(s, w.id);
    AnswerIsFinal(s, w);
    var result := Reply(s.receipts, w, now).result;
    var c := ApplyCall(w.id, w.amount, result, now, now, now);
    var e, f := Submit(w, now), Deliver(c);
    es := [e] + [f];
    AfterConcat(s, [e], [f]);
    var t := Exec(s, e);
    assert After(s, [e]) == t && After(t, [f]) == Exec(t, f);
    ExecKeepsInv(s, e);
    assert WorkRow(s.ledger.config, s.ledger.attempts, s.receipts, w);
    var m := Message(w.id, w.amount, result);
    assert m in t.sent && m.id == c.attempt && m.result == c.result;
    OneResult(t.ledger, c, w.id);
  }

  /** From every reachable state an open payment can still be finished if and only if the provider
      has not accepted it in time under the scenario that is never resolved. */
  lemma RecoverableExactlyWhen(config: Config, es: seq<Event>, a: Uuid)
    requires Pending(Reached(config, es).ledger, a)
    ensures (exists fs :: Finished(config, es + fs, a)) <==> !Stuck(Reached(config, es), a)
  {
    var s := Reached(config, es);
    if Stuck(s, a) {
      forall fs ensures !Finished(config, es + fs, a) { StuckForEver(config, es, fs, a); }
    } else {
      ReachedInv(config, es);
      var read := WorkRead(s, a);
      RunKeepsInv(s, read);
      var told := AskedAndTold(After(s, read), WorkNow(s.ledger, a));
      AfterConcat(s, read, told);
      AfterConcat(Initial(config), es, read + told);
      assert Finished(config, es + (read + told), a);
    }
  }

  ghost predicate Finished(config: Config, es: seq<Event>, a: Uuid) {
    a in Reached(config, es).ledger.attempts && Reached(config, es).ledger.attempts[a].Terminal()
  }
}
