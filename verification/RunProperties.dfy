/** Safety of every run: any number of buyers, workers, callbacks and sweeps, in any order,
    with stale, duplicated and lost messages and arbitrary clock readings. */
module RunProperties {
  import opened Collections
  import opened Keys
  import opened LedgerSpec
  import opened Invariant
  import opened Evolution
  import opened Provider
  import opened Protocol
  import opened Agreement

  function Reached(config: Config, es: seq<Event>): (s: System)
    ensures Linked(s.ledger)
  {
    After(Initial(config), es)
  }

  lemma ReachedInv(config: Config, es: seq<Event>)
    ensures Inv(Reached(config, es))
  {
    InitialInv(config);
    RunKeepsInv(Initial(config), es);
  }

  lemma ReachedMoves(config: Config, es: seq<Event>, fs: seq<Event>)
    ensures Moves(Reached(config, es), Reached(config, es + fs))
  {
    ReachedInv(config, es);
    AfterConcat(Initial(config), es, fs);
    RunMoves(Reached(config, es), fs);
  }

  lemma ReachedStep(config: Config, es: seq<Event>, e: Event)
    ensures Reached(config, es + [e]) == Exec(Reached(config, es), e)
  {
    AfterConcat(Initial(config), es, [e]);
    var s := Reached(config, es);
    assert After(s, [e]) == Exec(s, e);
  }

  lemma ConfigKept(config: Config, es: seq<Event>)
    ensures Reached(config, es).ledger.config == config
  {
    ReachedMoves(config, [], es);
    assert [] + es == es;
  }

  // ---------- stock ----------

  /** The books balance for every item, and no unit is counted twice. */
  lemma StockLedger(config: Config, es: seq<Event>, i: Uuid)
    requires i in Reached(config, es).ledger.items
    ensures var L := Reached(config, es).ledger;
            var row := L.items[i];
            && row.total == row.available + row.held + row.sold
            && 0 <= row.available <= MAX_STOCK && 0 <= row.held <= MAX_STOCK && 0 <= row.sold <= MAX_STOCK
            && row.held == Sum(HeldStock, L.orders, i)
            && row.sold == Sum(SoldStock, L.orders, i)
  {
    ReachedInv(config, es);
    var L := Reached(config, es).ledger;
    assert StockRow(L.items, L.orders, i);
  }

  /** Over all keys, retries and expiries, a user never holds or owns more than the limit. */
  lemma PerUserLimit(config: Config, es: seq<Event>, user: string, i: Uuid)
    requires i in Reached(config, es).ledger.items
    ensures var L := Reached(config, es).ledger;
            Sum(UsedBy(user), L.orders, i) <= L.items[i].perUserLimit
  {
    ReachedInv(config, es);
    var L := Reached(config, es).ledger;
    assert LimitRow(L.items, L.orders, user, i);
  }

  lemma LineAmounts(items: map<Uuid, Item>, orders: map<Uuid, Order>, o: Order, i: Uuid)
    requires StockOk(items, orders) && i in o.lines && LineRow(items, o, i)
    ensures 1 <= o.lines[i].quantity * o.lines[i].unitPrice <= MAX_QUANTITY * MAX_PRICE
  {
    assert StockRow(items, orders, i);
    Product(o.lines[i].quantity, o.lines[i].unitPrice, MAX_QUANTITY, MAX_PRICE);
  }

  lemma Product(x: nat, y: nat, a: nat, b: nat)
    requires 1 <= x <= a && 1 <= y <= b
    ensures 1 <= x * y <= a * b
  {
    assert x * y <= a * y <= a * b;
  }

  lemma OrderAmount(L: Ledger, id: Uuid)
    requires Valid(L) && id in L.orders
    ensures 0 < L.orders[id].totalAmount <= 20_000_000_000_000_000
  {
    var o := L.orders[id];
    assert OrderRow(L.sales, L.items, o);
    var amounts := Amounts(o.lines);
    forall i | i in amounts ensures 1 <= amounts[i] <= MAX_QUANTITY * MAX_PRICE {
      assert LineRow(L.items, o, i);
      LineAmounts(L.items, L.orders, o, i);
    }
    assert amounts.Keys == o.lines.Keys && |amounts| == |amounts.Keys| && |o.lines| == |o.lines.Keys|;
    TotalBounded(amounts, MAX_QUANTITY * MAX_PRICE);
    Product(|amounts|, MAX_QUANTITY * MAX_PRICE, MAX_ITEMS, MAX_QUANTITY * MAX_PRICE);
    var i :| i in o.lines.Keys;
    TotalSplit(amounts, i);
  }

  /** Every stored amount is positive and far inside a 64-bit `long`. */
  lemma AmountsFit(config: Config, es: seq<Event>, id: Uuid)
    requires id in Reached(config, es).ledger.orders
    ensures 0 < Reached(config, es).ledger.orders[id].totalAmount <= 20_000_000_000_000_000 < 0x7fff_ffff_ffff_ffff
  {
    ReachedInv(config, es);
    OrderAmount(Reached(config, es).ledger, id);
  }

  // ---------- statuses ----------

  ghost predicate HasAttempt(L: Ledger, order: Uuid, status: AttemptStatus -> bool) {
    exists a :: a in L.attempts && L.attempts[a].orderId == order && status(L.attempts[a].status)
  }

  /** The three status fields say the same thing, in both directions. */
  lemma StatusCoupling(config: Config, es: seq<Event>, id: Uuid)
    requires id in Reached(config, es).ledger.orders
    ensures var L := Reached(config, es).ledger;
            var o := L.orders[id];
            && (o.status.PaymentProcessing? <==>
                 HasAttempt(L, id, (s: AttemptStatus) => s.Created? || s.Processing? || s.Unknown?))
            && (o.status.OrderConfirmed? <==> HasAttempt(L, id, (s: AttemptStatus) => s.Succeeded?))
            && id in L.holds
            && (L.holds[id].status.Active? <==> o.status.PaymentPending? || o.status.PaymentProcessing?)
            && (L.holds[id].status.HoldConfirmed? <==> o.status.OrderConfirmed?)
            && (L.holds[id].status.HoldExpired? <==> o.status.OrderExpired?)
  {
    ReachedInv(config, es);
    var L := Reached(config, es).ledger;
    assert HoldRow(L.config, L.orders[id], L.holds[id]);
    forall a | a in L.attempts && L.attempts[a].orderId == id && !L.attempts[a].status.Failed?
      ensures L.orders[id].status == OrderFor(L.attempts[a].status)
    {
      assert AttemptRow(L.config, L.orders, L.holds, L.attempts[a]);
    }
    if Committed(L.orders[id]) {
      assert Backed(L.attempts, id);
      var a :| Backs(L.attempts, a, id);
    }
  }

  /** An order never has two attempts that have not failed, nor two with one key. */
  lemma OneLiveAttempt(config: Config, es: seq<Event>, a: Uuid, b: Uuid)
    requires a in Reached(config, es).ledger.attempts && b in Reached(config, es).ledger.attempts
    requires Reached(config, es).ledger.attempts[a].orderId == Reached(config, es).ledger.attempts[b].orderId
    ensures var attempts := Reached(config, es).ledger.attempts;
            && (!attempts[a].status.Failed? && !attempts[b].status.Failed? ==> a == b)
            && (attempts[a].key == attempts[b].key ==> a == b)
  {
    ReachedInv(config, es);
    var L := Reached(config, es).ledger;
    if a != b { assert AttemptPair(L.attempts[a], L.attempts[b]); }
  }

  /** The branch "Cannot confirm released stock" is dead for every call whatsoever. */
  lemma NeverReleasedStock(config: Config, es: seq<Event>, c: ApplyCall)
    ensures DecideApply(Reached(config, es).ledger, c) != Conflict(ReleasedStock)
  {
    ReachedInv(config, es);
    var L := Reached(config, es).ledger;
    if c.attempt in L.attempts && !L.attempts[c.attempt].Terminal() { OpenAttempt(L, c.attempt); }
  }

  // ---------- agreement with the provider ----------

  /** A final attempt is what the provider's durable receipt says. */
  lemma LedgerAgreesWithProvider(config: Config, es: seq<Event>, a: Uuid)
    requires a in Reached(config, es).ledger.attempts && Reached(config, es).ledger.attempts[a].Terminal()
    ensures var s := Reached(config, es);
            && a in s.receipts
            && StatusOf(s.receipts[a].result) == s.ledger.attempts[a].status
            && s.receipts[a].amount == s.ledger.attempts[a].amount
            && s.receipts[a].scenario == s.ledger.attempts[a].scenario
  {
    ReachedInv(config, es);
    var s := Reached(config, es);
    assert AgreeRow(s.ledger.attempts, s.receipts, a);
    assert ReceiptRow(s.ledger.config, s.ledger.attempts, a, s.receipts[a]);
  }

  /** A payment succeeds only if the provider first read its clock strictly inside the
      attempt's own window, although `work` reads attempt and hold without a lock and later
      attempts overwrite the hold's deadline. */
  lemma DeadlineSafety(config: Config, es: seq<Event>, a: Uuid)
    requires a in Reached(config, es).ledger.attempts && Reached(config, es).ledger.attempts[a].Terminal()
    ensures var s := Reached(config, es);
            var attempt := s.ledger.attempts[a];
            && a in s.receipts
            && (attempt.status.Succeeded? ==>
                 s.receipts[a].acceptedAt < attempt.createdAt + config.paymentWindow * 1_000_000
                 && !attempt.scenario.Failure? && !attempt.scenario.NeverResolved?)
            && (attempt.status.Failed? ==>
                 attempt.createdAt + config.paymentWindow * 1_000_000 <= s.receipts[a].acceptedAt || attempt.scenario.Failure?)
  {
    ReachedInv(config, es);
    ReachedMoves(config, [], es);
    assert [] + es == es;
    var s := Reached(config, es);
    assert s.ledger.config == config;
    assert AgreeRow(s.ledger.attempts, s.receipts, a);
    assert ReceiptRow(s.ledger.config, s.ledger.attempts, a, s.receipts[a]);
  }

  /** A work that carries another attempt's deadline meets an existing receipt, and then the
      deadline it carries has no effect. */
  lemma StaleDeadlineHarmless(config: Config, es: seq<Event>, w: Work, now: Instant)
    requires w in Reached(config, es).works
    ensures var s := Reached(config, es);
            && w.id in s.ledger.attempts
            && (w.deadline != Some(Window(s.ledger.config, s.ledger.attempts[w.id])) ==>
                 && w.id in s.receipts
                 && forall d :: Accept(s.receipts, w.(deadline := Some(d)), now) == Accept(s.receipts, w, now))
  {
    ReachedInv(config, es);
    var s := Reached(config, es);
    assert WorkRow(s.ledger.config, s.ledger.attempts, s.receipts, w);
  }

  /** A stored receipt keeps its amount, its acceptance time and its deadline; a final result
      in it never changes. */
  lemma ReceiptsAreFinal(config: Config, es: seq<Event>, fs: seq<Event>, id: Uuid)
    requires id in Reached(config, es).receipts
    ensures var r := Reached(config, es).receipts[id];
            && id in Reached(config, es + fs).receipts
            && var q := Reached(config, es + fs).receipts[id];
               && q.amount == r.amount && q.acceptedAt == r.acceptedAt && q.deadline == r.deadline
               && (!r.result.ResultUnknown? ==> q.result == r.result)
  {
    ReachedMoves(config, es, fs);
    assert ReceiptGrows(Reached(config, es).receipts[id], Reached(config, es + fs).receipts[id]);
  }

  /** No answer the provider has given, however late or repeated, is refused by the ledger. */
  lemma NoDeliveryIsRefused(config: Config, es: seq<Event>, m: Message, c: ApplyCall)
    requires m in Reached(config, es).sent
    requires c.attempt == m.id && c.amount == m.amount && (c.result == m.result || c.result.ResultUnknown?)
    ensures !DecideApply(Reached(config, es).ledger, c).Conflict?
  {
    ReachedInv(config, es);
    NeverReleasedStock(config, es, c);
    var s := Reached(config, es);
    assert MessageRow(s.ledger.attempts, s.receipts, m);
    assert AgreeRow(s.ledger.attempts, s.receipts, m.id);
  }

  /** No work is refused by the provider: it is well formed and agrees with any receipt. */
  lemma NoSubmissionIsRefused(config: Config, es: seq<Event>, w: Work, now: Instant)
    requires w in Reached(config, es).works
    ensures Reply(Reached(config, es).receipts, w, now).Answered?
    ensures forall c: ApplyCall :: c.attempt == w.id && c.amount == w.amount && c.result.ResultUnknown? ==>
              !DecideApply(Reached(config, es).ledger, c).Conflict?
  {
    ReachedInv(config, es);
    var s := Reached(config, es);
    var L := s.ledger;
    assert WorkRow(L.config, L.attempts, s.receipts, w);
    assert AttemptRow(L.config, L.orders, L.holds, L.attempts[w.id]);
    OrderAmount(L, w.orderId);
    if w.id in s.receipts { assert ReceiptRow(L.config, L.attempts, w.id, s.receipts[w.id]); }
  }

  // ---------- final statuses ----------

  /** A confirmed or expired order, a final attempt and its terminal time stay for ever. */
  lemma FinalStays(config: Config, es: seq<Event>, fs: seq<Event>)
    ensures var L, M := Reached(config, es).ledger, Reached(config, es + fs).ledger;
            && (forall k :: k in L.orders && (L.orders[k].status.OrderConfirmed? || L.orders[k].status.OrderExpired?) ==>
                 k in M.orders && M.orders[k] == L.orders[k])
            && (forall a :: a in L.attempts && L.attempts[a].Terminal() ==>
                 a in M.attempts && M.attempts[a].status == L.attempts[a].status && M.attempts[a].terminalAt == L.attempts[a].terminalAt)
  {
    ReachedMoves(config, es, fs);
    var L, M := Reached(config, es).ledger, Reached(config, es + fs).ledger;
    forall k | k in L.orders && (L.orders[k].status.OrderConfirmed? || L.orders[k].status.OrderExpired?)
      ensures k in M.orders && M.orders[k] == L.orders[k]
    {
      assert OrderGrows(L.orders[k], M.orders[k]);
    }
    forall a | a in L.attempts && L.attempts[a].Terminal()
      ensures a in M.attempts && M.attempts[a].status == L.attempts[a].status && M.attempts[a].terminalAt == L.attempts[a].terminalAt
    {
      assert AttemptGrows(L.attempts[a], M.attempts[a]);
    }
  }

  // ---------- idempotent purchases ----------

  /** One order per (user, key). */
  lemma OneOrderPerKey(config: Config, es: seq<Event>, a: Uuid, b: Uuid)
    requires a in Reached(config, es).ledger.orders && b in Reached(config, es).ledger.orders
    requires Reached(config, es).ledger.orders[a].user == Reached(config, es).ledger.orders[b].user
    requires Reached(config, es).ledger.orders[a].key == Reached(config, es).ledger.orders[b].key
    ensures a == b
  {
    ReachedInv(config, es);
    assert KeyPair(Reached(config, es).ledger.orders, a, b);
  }

  lemma ByKeyFinds(L: Ledger, id: Uuid, user: string, key: string)
    requires KeysOk(L.orders) && id in L.orders && L.orders[id].user == user && L.orders[id].key == key
    ensures ByKey(L.orders, user, key) == Some(id)
  {
    var r := ByKey(L.orders, user, key);
    assert r.Some? ==> KeyPair(L.orders, r.value, id);
  }

  /** Once a purchase is placed, every later request with its key gets that order back if it
      asks for the same basket in any item order, and is refused otherwise; in both cases
      nothing changes, however much has happened in between. */
  lemma ReplayForEver(config: Config, es: seq<Event>, fs: seq<Event>, c: PurchaseCall, d: PurchaseCall)
    requires Validated(c.request) && Validated(d.request) && Distinct(d.request.items)
    requires DecidePurchase(Reached(config, es).ledger, c).Placed?
    requires d.user == c.user && d.key == c.key
    ensures var L := Reached(config, es + [Buy(c)] + fs).ledger;
            && DecidePurchase(L, d) ==
                 (if d.request.saleId == c.request.saleId && Wants(d) == Wants(c) then Replayed(c.id) else Refused(KeyReused))
            && Purchase(L, d) == L
  {
    var L := Reached(config, es).ledger;
    var M := Reached(config, es + [Buy(c)]).ledger;
    var N := Reached(config, es + [Buy(c)] + fs).ledger;
    PlacedByThen(config, es, c);
    ReachedMoves(config, es + [Buy(c)], fs);
    assert OrderGrows(M.orders[c.id], N.orders[c.id]);
    ReachedInv(config, es + [Buy(c)] + fs);
    ByKeyFinds(N, c.id, d.user, d.key);
    PlacedExactlyWhen(L, c);
    FingerprintCanonical(d.request, c.request);
  }

  /** Once a payment is started, every later request of the owner with its key gets that attempt
      back if it names the same scenario, and is refused otherwise; in both cases nothing changes,
      even after the attempt has failed, the hold is over or another attempt has started. */
  lemma PaymentReplayForEver(config: Config, es: seq<Event>, fs: seq<Event>, c: StartCall, d: StartCall)
    requires DecideStart(Reached(config, es).ledger, c).Started?
    requires d.order == c.order && d.user == c.user && d.key == c.key
    ensures var L := Reached(config, es + [Pay(c)] + fs).ledger;
            && DecideStart(L, d) == (if d.scenario == c.scenario then Known(c.id) else Declined(KeyReused))
            && Start(L, d) == L
  {
    var L := Reached(config, es).ledger;
    var M := Reached(config, es + [Pay(c)]).ledger;
    var N := Reached(config, es + [Pay(c)] + fs).ledger;
    FreshStart(L, c);
    AfterConcat(Initial(config), es, [Pay(c)]);
    var s := Reached(config, es);
    assert After(s, [Pay(c)]) == Exec(s, Pay(c));
    assert M == Begin(L, c);
    ReachedMoves(config, es + [Pay(c)], fs);
    assert AttemptGrows(M.attempts[c.id], N.attempts[c.id]) && OrderGrows(M.orders[c.order], N.orders[c.order]);
    ReachedInv(config, es + [Pay(c)] + fs);
    assert c.id in WithKey(N, c.order, c.key);
    KeyedAttempt(N, c.order, c.key, c.id);
  }

  lemma PlacedByThen(config: Config, es: seq<Event>, c: PurchaseCall)
    requires Validated(c.request) && DecidePurchase(Reached(config, es).ledger, c).Placed?
    ensures var M := Reached(config, es + [Buy(c)]).ledger;
            c.id in M.orders && M.orders[c.id].user == c.user && M.orders[c.id].key == c.key
            && M.orders[c.id].fingerprint == Fingerprint(c.request)
  {
    AfterConcat(Initial(config), es, [Buy(c)]);
    var s := Reached(config, es);
    assert After(s, [Buy(c)]) == Exec(s, Buy(c));
    assert Exec(s, Buy(c)).ledger == Place(s.ledger, c);
  }

  ghost predicate SameBasket(c: PurchaseCall, d: PurchaseCall) {
    && d == c.(request := d.request) && d.request.saleId == c.request.saleId
    && Distinct(c.request.items) && Distinct(d.request.items)
    && Wants(d) == Wants(c) && Fingerprint(d.request) == Fingerprint(c.request)
  }

  lemma SameBasketDecision(L: Ledger, c: PurchaseCall, d: PurchaseCall)
    requires SameBasket(c, d)
    ensures DecidePurchase(L, d) == DecidePurchase(L, c)
  {
  }

  lemma SameBasketPlace(L: Ledger, c: PurchaseCall, d: PurchaseCall)
    requires SameBasket(c, d)
    ensures Place(L, d) == Place(L, c)
  {
    assert PlacedOrder(L, d) == PlacedOrder(L, c);
  }

  /** Listing the items in another order changes neither the decision nor its effect. */
  lemma ItemOrderIrrelevant(L: Ledger, c: PurchaseCall, d: PurchaseCall)
    requires Validated(c.request) && Validated(d.request) && Distinct(c.request.items) && Distinct(d.request.items)
    requires d == c.(request := d.request)
    requires d.request.saleId == c.request.saleId && Wants(d) == Wants(c)
    ensures DecidePurchase(L, d) == DecidePurchase(L, c)
    ensures Purchase(L, d) == Purchase(L, c)
  {
    FingerprintCanonical(c.request, d.request);
    SameBasketDecision(L, c, d);
    SameBasketPlace(L, c, d);
  }
}
