/** What never changes back: the facts of a row fixed at its insertion, and final statuses.
    `Evolves` relates any ledger to every ledger that can follow it. */
module Evolution {
  import opened Collections
  import opened Keys
  import opened LedgerSpec
  import opened Invariant

  ghost predicate ItemGrows(x: Item, y: Item) {
    y.saleId == x.saleId && y.price == x.price && y.perUserLimit == x.perUserLimit && y.total == x.total && x.sold <= y.sold
  }

  ghost predicate OrderGrows(x: Order, y: Order) {
    && y == x.(status := y.status)
    && (x.status.OrderConfirmed? || x.status.OrderExpired? ==> y.status == x.status)
  }

  ghost predicate HoldGrows(x: Hold, y: Hold) {
    y.expiresAt == x.expiresAt && (!x.status.Active? ==> y.status == x.status)
  }

  ghost predicate AttemptGrows(x: Attempt, y: Attempt) {
    && y == x.(status := y.status, nextCheckAt := y.nextCheckAt, leaseUntil := y.leaseUntil, terminalAt := y.terminalAt)
    && (x.Terminal() ==> y.status == x.status && y.terminalAt == x.terminalAt)
  }

  ghost predicate ItemsGrow(L: Ledger, M: Ledger) {
    && (forall i :: i in L.items ==> i in M.items)
    && forall i {:trigger ItemGrows(L.items[i], M.items[i])} :: i in L.items ==> ItemGrows(L.items[i], M.items[i])
  }

  /** A sale's list of items is fixed when the sale is created. */
  ghost predicate NewItemsNewSales(L: Ledger, M: Ledger) {
    forall i :: i in M.items && i !in L.items ==> M.items[i].saleId !in L.sales
  }

  ghost predicate SalesGrow(L: Ledger, M: Ledger) {
    forall k :: k in L.sales ==> k in M.sales && M.sales[k] == L.sales[k]
  }

  ghost predicate OrdersGrow(L: Ledger, M: Ledger) {
    && (forall k :: k in L.orders ==> k in M.orders)
    && forall k {:trigger OrderGrows(L.orders[k], M.orders[k])} :: k in L.orders ==> OrderGrows(L.orders[k], M.orders[k])
  }

  ghost predicate HoldsGrow(L: Ledger, M: Ledger) {
    && (forall k :: k in L.holds ==> k in M.holds)
    && forall k {:trigger HoldGrows(L.holds[k], M.holds[k])} :: k in L.holds ==> HoldGrows(L.holds[k], M.holds[k])
  }

  ghost predicate AttemptsGrow(L: Ledger, M: Ledger) {
    && (forall a :: a in L.attempts ==> a in M.attempts)
    && forall a {:trigger AttemptGrows(L.attempts[a], M.attempts[a])} :: a in L.attempts ==>
      AttemptGrows(L.attempts[a], M.attempts[a])
  }

  ghost predicate Evolves(L: Ledger, M: Ledger) {
    && M.config == L.config
    && SalesGrow(L, M) && ItemsGrow(L, M) && NewItemsNewSales(L, M)
    && OrdersGrow(L, M) && HoldsGrow(L, M) && AttemptsGrow(L, M)
  }

  lemma EvolvesItself(L: Ledger)
    ensures Evolves(L, L)
  {
  }

  lemma EvolvesOn(L: Ledger, M: Ledger, N: Ledger)
    requires Evolves(L, M) && Evolves(M, N) && SalesOk(M.sales, M.items)
    ensures Evolves(L, N)
  {
    forall i | i in L.items ensures i in N.items && ItemGrows(L.items[i], N.items[i]) {
      assert ItemGrows(L.items[i], M.items[i]) && ItemGrows(M.items[i], N.items[i]);
    }
    forall k | k in L.orders ensures k in N.orders && OrderGrows(L.orders[k], N.orders[k]) {
      assert OrderGrows(L.orders[k], M.orders[k]) && OrderGrows(M.orders[k], N.orders[k]);
    }
    forall k | k in L.holds ensures k in N.holds && HoldGrows(L.holds[k], N.holds[k]) {
      assert HoldGrows(L.holds[k], M.holds[k]) && HoldGrows(M.holds[k], N.holds[k]);
    }
    forall a | a in L.attempts ensures a in N.attempts && AttemptGrows(L.attempts[a], N.attempts[a]) {
      assert AttemptGrows(L.attempts[a], M.attempts[a]) && AttemptGrows(M.attempts[a], N.attempts[a]);
    }
    forall i | i in N.items && i !in L.items ensures N.items[i].saleId !in L.sales {
      if i in M.items { assert ItemGrows(M.items[i], N.items[i]); }
    }
  }

  lemma CreateSaleEvolves(L: Ledger, c: SaleCall)
    ensures Evolves(L, CreateSale(L, c))
  {
    var M := CreateSale(L, c);
    if FreshSale(L, c) {
      forall i | i in L.items ensures i in M.items && M.items[i] == L.items[i] { assert i in c.items ==> i in c.items.Keys * L.items.Keys; }
    }
  }

  lemma HoldStockGrows(L: Ledger, M: Ledger, wants: map<Uuid, nat>)
    requires M.items == HoldStock(L.items, wants)
    ensures ItemsGrow(L, M)
  {
  }

  lemma InsertEvolves(L: Ledger, M: Ledger, id: Uuid, o: Order, h: Hold, wants: map<Uuid, nat>)
    requires Inserts(L, M, id, o, h, wants) && L.holds.Keys == L.orders.Keys
    ensures Evolves(L, M)
  {
    HoldStockGrows(L, M, wants);
    assert forall k :: k in L.orders ==> k in M.orders && M.orders[k] == L.orders[k];
    assert forall k :: k in L.holds ==> k in M.holds && M.holds[k] == L.holds[k];
  }

  lemma PurchaseEvolves(L: Ledger, c: PurchaseCall)
    requires Linked(L) && Validated(c.request)
    ensures Evolves(L, Purchase(L, c))
  {
    if DecidePurchase(L, c).Placed? {
      PlaceInserts(L, c);
      InsertEvolves(L, Place(L, c), c.id, PlacedOrder(L, c), PlacedHold(L, c), Wants(c));
    } else {
      EvolvesItself(L);
    }
  }

  lemma StartEvolves(L: Ledger, c: StartCall)
    requires Linked(L)
    ensures Evolves(L, Start(L, c))
  {
    if DecideStart(L, c).Started? {
      FreshStart(L, c);
      var M := Begin(L, c);
      forall k | k in L.orders ensures k in M.orders && OrderGrows(L.orders[k], M.orders[k]) {}
      forall k | k in L.holds ensures k in M.holds && HoldGrows(L.holds[k], M.holds[k]) {}
      forall a | a in L.attempts ensures a in M.attempts && AttemptGrows(L.attempts[a], M.attempts[a]) {}
    } else {
      EvolvesItself(L);
    }
  }

  lemma SettleEvolves(L: Ledger, id: Uuid, confirm: bool)
    requires id in L.orders && id in L.holds && Open(L.orders[id]) && L.holds[id].status.Active?
    ensures Evolves(L, Settle(L, id, confirm))
  {
    var M := Settle(L, id, confirm);
    forall i | i in L.items ensures i in M.items && ItemGrows(L.items[i], M.items[i]) {}
    forall k | k in L.orders ensures k in M.orders && OrderGrows(L.orders[k], M.orders[k]) {}
    forall k | k in L.holds ensures k in M.holds && HoldGrows(L.holds[k], M.holds[k]) {}
    assert M.attempts == L.attempts;
  }

  lemma ReopenEvolves(L: Ledger, id: Uuid, status: OrderStatus)
    requires id in L.orders && Open(L.orders[id])
    ensures Evolves(L, SetOrder(L, id, status))
  {
    var M := SetOrder(L, id, status);
    forall k | k in L.orders ensures k in M.orders && OrderGrows(L.orders[k], M.orders[k]) {}
  }

  lemma RecordEvolves(L: Ledger, c: ApplyCall)
    requires c.attempt in L.attempts && !L.attempts[c.attempt].Terminal()
    ensures Evolves(L, Record(L, c))
  {
    var M := Record(L, c);
    forall a | a in L.attempts ensures a in M.attempts && AttemptGrows(L.attempts[a], M.attempts[a]) {}
  }

  lemma FailureEvolves(L: Ledger, order: Uuid)
    requires order in L.orders && order in L.holds && Open(L.orders[order]) && SalesOk(L.sales, L.items)
    ensures Evolves(L, SetOrder(L, order, PaymentPending))
    ensures Evolves(L, Release(SetOrder(L, order, PaymentPending), order))
  {
    var N := SetOrder(L, order, PaymentPending);
    ReopenEvolves(L, order, PaymentPending);
    if N.holds[order].status.Active? {
      SettleEvolves(N, order, false);
      EvolvesOn(L, N, Settle(N, order, false));
    }
  }

  lemma SettledEvolves(L: Ledger, c: ApplyCall)
    requires Linked(L) && DecideApply(L, c).Applied? && SalesOk(L.sales, L.items)
    requires L.orders[L.attempts[c.attempt].orderId].status.PaymentProcessing?
    ensures Evolves(L, Settled(L, c))
  {
    var order := L.attempts[c.attempt].orderId;
    var M := Record(L, c);
    RecordEvolves(L, c);
    match c.result {
      case ResultSucceeded => SettleEvolves(M, order, true);
      case ResultUnknown => EvolvesItself(M);
      case ResultFailed => FailureEvolves(M, order);
    }
    EvolvesOn(L, M, Settled(L, c));
  }

  lemma ApplyEvolves(L: Ledger, c: ApplyCall)
    requires Valid(L) && Linked(L)
    ensures Evolves(L, Apply(L, c))
  {
    if DecideApply(L, c).Applied? {
      OpenAttempt(L, c.attempt);
      SettledEvolves(L, c);
    } else {
      EvolvesItself(L);
    }
  }

  lemma ExpireEvolves(L: Ledger, id: Uuid, now: Instant)
    requires Linked(L)
    ensures Evolves(L, Expire(L, id, now))
  {
    if Expires(L, id, now) { SettleEvolves(L, id, false); } else { EvolvesItself(L); }
  }

  lemma LeaseEvolves(L: Ledger, id: Uuid, lease: Option<Instant>)
    requires id in L.attempts
    ensures Evolves(L, L.(attempts := L.attempts[id := L.attempts[id].(leaseUntil := lease)]))
  {
    var M := L.(attempts := L.attempts[id := L.attempts[id].(leaseUntil := lease)]);
    forall a | a in L.attempts ensures a in M.attempts && AttemptGrows(L.attempts[a], M.attempts[a]) {}
  }

  lemma ClaimEvolves(L: Ledger, id: Uuid, now: Instant)
    ensures Evolves(L, Claim(L, id, now))
  {
    if id in Claimable(L, now) {
      LeaseEvolves(L, id, Some(now + LEASE));
    } else {
      EvolvesItself(L);
    }
  }
}
