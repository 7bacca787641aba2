/** What every ledger transaction keeps: the stock equations, the per-user limit, the
    uniqueness of keys, and the coupling of order, hold and attempt statuses.

    Each part is a statement about one row (or one pair of rows) of the tables. */
module Invariant {
  import opened Collections
  import opened Keys
  import opened LedgerSpec

  // ---------- the invariant ----------

  ghost predicate StockRow(items: map<Uuid, Item>, orders: map<Uuid, Order>, i: Uuid)
    requires i in items
  {
    && items[i].total == items[i].available + items[i].held + items[i].sold
    && items[i].available >= 0
    && items[i].held == Sum(HeldStock, orders, i)
    && items[i].sold == Sum(SoldStock, orders, i)
    && 0 < items[i].price <= MAX_PRICE && 0 < items[i].total <= MAX_STOCK
  }

  ghost predicate StockOk(items: map<Uuid, Item>, orders: map<Uuid, Order>) {
    forall i {:trigger StockRow(items, orders, i)} :: i in items ==> StockRow(items, orders, i)
  }

  ghost predicate LimitRow(items: map<Uuid, Item>, orders: map<Uuid, Order>, user: string, i: Uuid)
    requires i in items
  {
    Sum(UsedBy(user), orders, i) <= items[i].perUserLimit
  }

  ghost predicate LimitsOk(items: map<Uuid, Item>, orders: map<Uuid, Order>) {
    forall user, i {:trigger LimitRow(items, orders, user, i)} :: i in items ==> LimitRow(items, orders, user, i)
  }

  ghost predicate LineRow(items: map<Uuid, Item>, o: Order, i: Uuid)
    requires i in o.lines
  {
    && i in items && items[i].saleId == o.saleId && items[i].price == o.lines[i].unitPrice
    && 1 <= o.lines[i].quantity <= MAX_QUANTITY
  }

  ghost predicate OrderRow(sales: map<Uuid, Sale>, items: map<Uuid, Item>, o: Order) {
    && o.saleId in sales
    && 1 <= |o.lines| <= MAX_ITEMS
    && o.totalAmount == Amount(o.lines)
    && forall i {:trigger LineRow(items, o, i)} :: i in o.lines ==> LineRow(items, o, i)
  }

  ghost predicate OrdersOk(sales: map<Uuid, Sale>, items: map<Uuid, Item>, orders: map<Uuid, Order>) {
    forall id {:trigger OrderRow(sales, items, orders[id])} :: id in orders ==> OrderRow(sales, items, orders[id])
  }

  ghost predicate SalesOk(sales: map<Uuid, Sale>, items: map<Uuid, Item>) {
    forall i :: i in items ==> items[i].saleId in sales
  }

  ghost predicate KeyPair(orders: map<Uuid, Order>, a: Uuid, b: Uuid)
    requires a in orders && b in orders
  {
    orders[a].user == orders[b].user && orders[a].key == orders[b].key ==> a == b
  }

  ghost predicate KeysOk(orders: map<Uuid, Order>) {
    forall a, b {:trigger KeyPair(orders, a, b)} :: a in orders && b in orders ==> KeyPair(orders, a, b)
  }

  function HoldFor(s: OrderStatus): HoldStatus {
    match s
    case PaymentPending => Active
    case PaymentProcessing => Active
    case OrderConfirmed => HoldConfirmed
    case OrderExpired => HoldExpired
  }

  ghost predicate HoldRow(config: Config, o: Order, h: Hold) {
    h.status == HoldFor(o.status) && h.expiresAt == o.createdAt + config.holdSeconds * SECOND
  }

  ghost predicate HoldsOk(config: Config, orders: map<Uuid, Order>, holds: map<Uuid, Hold>) {
    && holds.Keys == orders.Keys
    && forall id {:trigger HoldRow(config, orders[id], holds[id])} :: id in orders ==> HoldRow(config, orders[id], holds[id])
  }

  /** The order status a live attempt forces. */
  function OrderFor(s: AttemptStatus): OrderStatus {
    if s.Succeeded? then OrderConfirmed else PaymentProcessing
  }

  ghost predicate AttemptRow(config: Config, orders: map<Uuid, Order>, holds: map<Uuid, Hold>, a: Attempt) {
    && a.orderId in orders && a.orderId in holds
    && a.amount == orders[a.orderId].totalAmount
    && (a.terminalAt.Some? <==> a.Terminal())
    && holds[a.orderId].deadline.Some?
    && (!a.status.Failed? ==>
         orders[a.orderId].status == OrderFor(a.status)
         && holds[a.orderId].deadline == Some(a.createdAt + config.paymentWindow * SECOND))
  }

  ghost predicate AttemptsOk(config: Config, orders: map<Uuid, Order>, holds: map<Uuid, Hold>, attempts: map<Uuid, Attempt>) {
    forall a {:trigger AttemptRow(config, orders, holds, attempts[a])} :: a in attempts ==>
      AttemptRow(config, orders, holds, attempts[a])
  }

  ghost predicate AttemptPair(a: Attempt, b: Attempt) {
    a.orderId == b.orderId ==> a.key != b.key && (a.status.Failed? || b.status.Failed?)
  }

  /** One attempt per (order, key), and at most one that has not failed. */
  ghost predicate PairsOk(attempts: map<Uuid, Attempt>) {
    forall a, b {:trigger AttemptPair(attempts[a], attempts[b])} :: a in attempts && b in attempts && a != b ==>
      AttemptPair(attempts[a], attempts[b])
  }

  ghost predicate Backs(attempts: map<Uuid, Attempt>, a: Uuid, order: Uuid) {
    a in attempts && attempts[a].orderId == order && !attempts[a].status.Failed?
  }

  ghost predicate Backed(attempts: map<Uuid, Attempt>, order: Uuid) {
    exists a :: Backs(attempts, a, order)
  }

  predicate Committed(o: Order) { o.status.PaymentProcessing? || o.status.OrderConfirmed? }

  /** An order that is processing or confirmed owes it to an attempt that has not failed. */
  ghost predicate BackedOk(orders: map<Uuid, Order>, attempts: map<Uuid, Attempt>) {
    forall id {:trigger Backed(attempts, id)} :: id in orders && Committed(orders[id]) ==> Backed(attempts, id)
  }

  /** The part of the invariant that does not speak of attempts. */
  ghost predicate RowsOk(L: Ledger) {
    && StockOk(L.items, L.orders)
    && LimitsOk(L.items, L.orders)
    && OrdersOk(L.sales, L.items, L.orders)
    && SalesOk(L.sales, L.items)
    && KeysOk(L.orders)
    && HoldsOk(L.config, L.orders, L.holds)
  }

  ghost predicate PaymentsOk(L: Ledger) {
    && AttemptsOk(L.config, L.orders, L.holds, L.attempts)
    && PairsOk(L.attempts)
    && BackedOk(L.orders, L.attempts)
  }

  ghost predicate Valid(L: Ledger) {
    RowsOk(L) && PaymentsOk(L)
  }

  // ---------- sums ----------

  lemma SharesUpdate(t: Tally, orders: map<Uuid, Order>, id: Uuid, o: Order, item: Uuid)
    ensures Shares(t, orders[id := o], item) == Shares(t, orders, item)[id := Share(t, o, item)]
  {
  }

  lemma SumUpdate(t: Tally, orders: map<Uuid, Order>, id: Uuid, o: Order, item: Uuid)
    ensures Sum(t, orders[id := o], item)
         == Sum(t, orders, item) + Share(t, o, item) - (if id in orders then Share(t, orders[id], item) else 0)
  {
    SharesUpdate(t, orders, id, o, item);
    TotalUpdate(Shares(t, orders, item), id, Share(t, o, item));
  }

  lemma SumOfAbsent(t: Tally, orders: map<Uuid, Order>, item: Uuid)
    requires forall id :: id in orders ==> item !in orders[id].lines
    ensures Sum(t, orders, item) == 0
  {
    TotalIsZero(Shares(t, orders, item));
  }

  lemma AmountGrows(lines: map<Uuid, Line>, i: Uuid, line: Line)
    requires i !in lines
    ensures Amount(lines[i := line]) == Amount(lines) + line.quantity * line.unitPrice
  {
    assert Amounts(lines[i := line]) == Amounts(lines)[i := line.quantity * line.unitPrice];
    TotalUpdate(Amounts(lines), i, line.quantity * line.unitPrice);
  }

  // ---------- one order changes status ----------

  function Restatus(orders: map<Uuid, Order>, id: Uuid, status: OrderStatus): map<Uuid, Order>
    requires id in orders
  {
    orders[id := orders[id].(status := status)]
  }

  function Restated(holds: map<Uuid, Hold>, id: Uuid, status: HoldStatus): map<Uuid, Hold>
    requires id in holds
  {
    holds[id := holds[id].(status := status)]
  }

  predicate Open(o: Order) { o.status.PaymentPending? || o.status.PaymentProcessing? }

  lemma RestatusSum(t: Tally, orders: map<Uuid, Order>, id: Uuid, status: OrderStatus, item: Uuid)
    requires id in orders
    ensures Sum(t, Restatus(orders, id, status), item)
         == Sum(t, orders, item) - (if Counts(t, orders[id]) then Quantity(orders[id], item) else 0)
            + (if Counts(t, orders[id].(status := status)) then Quantity(orders[id], item) else 0)
  {
    SumUpdate(t, orders, id, orders[id].(status := status), item);
  }

  /** Between pending and processing no stock moves. */
  lemma ReopenKeepsStock(items: map<Uuid, Item>, orders: map<Uuid, Order>, id: Uuid, status: OrderStatus)
    requires id in orders && Open(orders[id]) && (status.PaymentPending? || status.PaymentProcessing?)
    requires StockOk(items, orders)
    ensures StockOk(items, Restatus(orders, id, status))
  {
    var orders' := Restatus(orders, id, status);
    forall i | i in items
      ensures StockRow(items, orders', i)
    {
      assert StockRow(items, orders, i);
      RestatusSum(HeldStock, orders, id, status, i);
      RestatusSum(SoldStock, orders, id, status, i);
    }
  }

  /** No status change of an order that still counts raises a user's total. */
  lemma RestatusKeepsLimits(items: map<Uuid, Item>, orders: map<Uuid, Order>, id: Uuid, status: OrderStatus)
    requires id in orders && !orders[id].status.OrderExpired?
    requires LimitsOk(items, orders)
    ensures LimitsOk(items, Restatus(orders, id, status))
  {
    var orders' := Restatus(orders, id, status);
    forall user, i | i in items
      ensures LimitRow(items, orders', user, i)
    {
      assert LimitRow(items, orders, user, i);
      RestatusSum(UsedBy(user), orders, id, status, i);
    }
  }

  lemma RestatusKeepsOrders(sales: map<Uuid, Sale>, items: map<Uuid, Item>, orders: map<Uuid, Order>, id: Uuid, status: OrderStatus)
    requires id in orders && OrdersOk(sales, items, orders)
    ensures OrdersOk(sales, items, Restatus(orders, id, status))
  {
    var orders' := Restatus(orders, id, status);
    forall k | k in orders'
      ensures OrderRow(sales, items, orders'[k])
    {
      assert OrderRow(sales, items, orders[k]);
      forall i | i in orders'[k].lines ensures LineRow(items, orders'[k], i) { assert LineRow(items, orders[k], i); }
    }
  }

  lemma RestatusKeepsKeys(orders: map<Uuid, Order>, id: Uuid, status: OrderStatus)
    requires id in orders && KeysOk(orders)
    ensures KeysOk(Restatus(orders, id, status))
  {
    var orders' := Restatus(orders, id, status);
    forall a, b | a in orders' && b in orders'
      ensures KeyPair(orders', a, b)
    {
      assert KeyPair(orders, a, b);
    }
  }

  lemma RestatusKeepsHolds(config: Config, orders: map<Uuid, Order>, holds: map<Uuid, Hold>, id: Uuid, status: OrderStatus)
    requires id in orders && id in holds && HoldsOk(config, orders, holds)
    ensures HoldsOk(config, Restatus(orders, id, status), Restated(holds, id, HoldFor(status)))
  {
    var orders', holds' := Restatus(orders, id, status), Restated(holds, id, HoldFor(status));
    forall k | k in orders'
      ensures HoldRow(config, orders'[k], holds'[k])
    {
      assert HoldRow(config, orders[k], holds[k]);
    }
  }

  /** Reopening also leaves the hold row as it is. */
  lemma ReopenKeepsRows(L: Ledger, id: Uuid, status: OrderStatus)
    requires RowsOk(L) && id in L.orders && Open(L.orders[id])
    requires status.PaymentPending? || status.PaymentProcessing?
    ensures RowsOk(SetOrder(L, id, status))
  {
    ReopenKeepsStock(L.items, L.orders, id, status);
    RestatusKeepsLimits(L.items, L.orders, id, status);
    RestatusKeepsOrders(L.sales, L.items, L.orders, id, status);
    RestatusKeepsKeys(L.orders, id, status);
    RestatusKeepsHolds(L.config, L.orders, L.holds, id, status);
    assert HoldRow(L.config, L.orders[id], L.holds[id]);
    assert Restated(L.holds, id, HoldFor(status)) == L.holds;
    assert SetOrder(L, id, status).orders == Restatus(L.orders, id, status);
  }

  // ---------- settling an order ----------

  lemma SettleKeepsStock(items: map<Uuid, Item>, orders: map<Uuid, Order>, id: Uuid, confirm: bool)
    requires id in orders && Open(orders[id])
    requires StockOk(items, orders)
    ensures StockOk(MoveStock(items, orders[id].lines, confirm),
                    Restatus(orders, id, if confirm then OrderConfirmed else OrderExpired))
  {
    var status := if confirm then OrderConfirmed else OrderExpired;
    var orders' := Restatus(orders, id, status);
    var items' := MoveStock(items, orders[id].lines, confirm);
    forall i | i in items'
      ensures StockRow(items', orders', i)
    {
      assert StockRow(items, orders, i);
      RestatusSum(HeldStock, orders, id, status, i);
      RestatusSum(SoldStock, orders, id, status, i);
    }
  }

  lemma MoveKeepsLimits(items: map<Uuid, Item>, orders: map<Uuid, Order>, lines: map<Uuid, Line>, confirm: bool)
    requires LimitsOk(items, orders)
    ensures LimitsOk(MoveStock(items, lines, confirm), orders)
  {
    var items' := MoveStock(items, lines, confirm);
    forall user, i | i in items'
      ensures LimitRow(items', orders, user, i)
    {
      assert LimitRow(items, orders, user, i);
    }
  }

  lemma MoveKeepsOrders(sales: map<Uuid, Sale>, items: map<Uuid, Item>, orders: map<Uuid, Order>,
                        lines: map<Uuid, Line>, confirm: bool)
    requires OrdersOk(sales, items, orders)
    ensures OrdersOk(sales, MoveStock(items, lines, confirm), orders)
  {
    var items' := MoveStock(items, lines, confirm);
    forall k | k in orders
      ensures OrderRow(sales, items', orders[k])
    {
      assert OrderRow(sales, items, orders[k]);
      forall i | i in orders[k].lines ensures LineRow(items', orders[k], i) { assert LineRow(items, orders[k], i); }
    }
  }

  lemma SettleKeepsRows(L: Ledger, id: Uuid, confirm: bool)
    requires RowsOk(L) && id in L.orders && id in L.holds && Open(L.orders[id])
    ensures RowsOk(Settle(L, id, confirm))
  {
    var status := if confirm then OrderConfirmed else OrderExpired;
    var items' := MoveStock(L.items, L.orders[id].lines, confirm);
    SettleKeepsStock(L.items, L.orders, id, confirm);
    MoveKeepsLimits(L.items, L.orders, L.orders[id].lines, confirm);
    RestatusKeepsLimits(items', L.orders, id, status);
    MoveKeepsOrders(L.sales, L.items, L.orders, L.orders[id].lines, confirm);
    RestatusKeepsOrders(L.sales, items', L.orders, id, status);
    RestatusKeepsKeys(L.orders, id, status);
    RestatusKeepsHolds(L.config, L.orders, L.holds, id, status);
    var M := Settle(L, id, confirm);
    assert M.items == items' && M.orders == Restatus(L.orders, id, status) && M.sales == L.sales && M.config == L.config;
    assert M.holds == Restated(L.holds, id, HoldFor(status));
  }

  // ---------- purchase ----------

  lemma {:induction false} NoProblem(L: Ledger, user: string, wants: map<Uuid, nat>, rows: seq<Uuid>)
    requires forall i :: i in rows ==> i in L.items && i in wants
    ensures FirstProblem(L, user, wants, rows).None? <==>
      forall i :: i in rows ==> wants[i] <= L.items[i].available
                                && Sum(UsedBy(user), L.orders, i) + wants[i] <= L.items[i].perUserLimit
  {
    if rows != [] {
      NoProblem(L, user, wants, rows[1..]);
      assert rows == [rows[0]] + rows[1..];
    }
  }

  ghost predicate Admissible(L: Ledger, c: PurchaseCall, i: Uuid)
    requires i in Wants(c)
  {
    && i in L.items && L.items[i].saleId == c.request.saleId
    && Wants(c)[i] <= L.items[i].available
    && Sum(UsedBy(c.user), L.orders, i) + Wants(c)[i] <= L.items[i].perUserLimit
  }

  lemma BasketPasses(L: Ledger, c: PurchaseCall)
    requires InOneSale(L, c.request.saleId, Wants(c))
    ensures FirstProblem(L, c.user, Wants(c), ById(Wants(c).Keys)).None? <==> forall i :: i in Wants(c) ==> Admissible(L, c, i)
  {
    var rows := ById(Wants(c).Keys);
    NoProblem(L, c.user, Wants(c), rows);
    if FirstProblem(L, c.user, Wants(c), rows).None? {
      forall i | i in Wants(c) ensures Admissible(L, c, i) { assert i in rows; }
    } else {
      var i :| i in rows && !(Wants(c)[i] <= L.items[i].available
                              && Sum(UsedBy(c.user), L.orders, i) + Wants(c)[i] <= L.items[i].perUserLimit);
      assert !Admissible(L, c, i);
    }
  }

  ghost predicate UnusedKey(orders: map<Uuid, Order>, user: string, key: string) {
    forall id :: id in orders ==> !(orders[id].user == user && orders[id].key == key)
  }

  lemma ByKeyNone(orders: map<Uuid, Order>, user: string, key: string)
    ensures ByKey(orders, user, key).None? <==> UnusedKey(orders, user, key)
  {
  }

  ghost predicate Passes(L: Ledger, c: PurchaseCall) {
    && c.request.saleId in L.sales && L.sales[c.request.saleId].opensAt <= c.now
    && Wants(c).Keys * c.cached == {}
    && (c.admission.Some? ==> c.millis < c.admission.value)
    && forall i :: i in Wants(c) ==> Admissible(L, c, i)
  }

  /** A purchase takes stock exactly when the key is new and the whole basket passes. */
  lemma PlacedExactlyWhen(L: Ledger, c: PurchaseCall)
    ensures DecidePurchase(L, c).Placed?
       <==> Distinct(c.request.items) && UnusedKey(L.orders, c.user, c.key) && Passes(L, c) && c.id !in L.orders
    ensures DecidePurchase(L, c).Placed? ==> DecidePurchase(L, c).order == c.id
  {
    ByKeyNone(L.orders, c.user, c.key);
    if InOneSale(L, c.request.saleId, Wants(c)) {
      BasketPasses(L, c);
    } else {
      var i :| i in Wants(c) && !(i in L.items && L.items[i].saleId == c.request.saleId);
      assert !Admissible(L, c, i);
    }
  }

  lemma WantsValidated(items: seq<RequestItem>)
    requires forall k :: 0 <= k < |items| ==> 1 <= items[k].quantity <= MAX_QUANTITY
    ensures forall i :: i in Wanted(items) ==> 1 <= Wanted(items)[i] <= MAX_QUANTITY
    ensures |Wanted(items)| <= |items|
    ensures items != [] ==> Wanted(items) != map[]
  {
    if items != [] {
      var n := |items| - 1;
      WantsValidated(items[..n]);
      assert items[n].id in Wanted(items);
    }
  }

  /** A pending order for the wanted quantities, as the purchase inserts it. */
  ghost predicate Orders(o: Order, wants: map<Uuid, nat>) {
    && o.status.PaymentPending?
    && o.lines.Keys == wants.Keys
    && forall i :: i in wants ==> o.lines[i].quantity == wants[i]
  }

  lemma InsertKeepsStock(items: map<Uuid, Item>, orders: map<Uuid, Order>, id: Uuid, o: Order, wants: map<Uuid, nat>)
    requires StockOk(items, orders) && id !in orders && Orders(o, wants)
    requires forall i :: i in wants ==> i in items && wants[i] <= items[i].available
    ensures StockOk(HoldStock(items, wants), orders[id := o])
  {
    var items', orders' := HoldStock(items, wants), orders[id := o];
    forall i | i in items'
      ensures StockRow(items', orders', i)
    {
      assert StockRow(items, orders, i);
      SumUpdate(HeldStock, orders, id, o, i);
      SumUpdate(SoldStock, orders, id, o, i);
    }
  }

  lemma InsertKeepsLimits(items: map<Uuid, Item>, orders: map<Uuid, Order>, id: Uuid, o: Order, wants: map<Uuid, nat>)
    requires LimitsOk(items, orders) && id !in orders && Orders(o, wants)
    requires forall i :: i in wants ==> i in items && Sum(UsedBy(o.user), orders, i) + wants[i] <= items[i].perUserLimit
    ensures LimitsOk(HoldStock(items, wants), orders[id := o])
  {
    var items', orders' := HoldStock(items, wants), orders[id := o];
    forall user, i | i in items'
      ensures LimitRow(items', orders', user, i)
    {
      assert LimitRow(items, orders, user, i);
      SumUpdate(UsedBy(user), orders, id, o, i);
    }
  }

  lemma InsertKeepsOrders(sales: map<Uuid, Sale>, items: map<Uuid, Item>, orders: map<Uuid, Order>, id: Uuid, o: Order,
                          wants: map<Uuid, nat>)
    requires OrdersOk(sales, items, orders) && OrderRow(sales, items, o)
    ensures OrdersOk(sales, HoldStock(items, wants), orders[id := o])
  {
    var items', orders' := HoldStock(items, wants), orders[id := o];
    forall k | k in orders'
      ensures OrderRow(sales, items', orders'[k])
    {
      assert k != id ==> OrderRow(sales, items, orders[k]);
      forall i | i in orders'[k].lines ensures LineRow(items', orders'[k], i) { assert LineRow(items, orders'[k], i); }
    }
  }

  lemma InsertKeepsKeys(orders: map<Uuid, Order>, id: Uuid, o: Order)
    requires KeysOk(orders)
    requires UnusedKey(orders, o.user, o.key)
    ensures KeysOk(orders[id := o])
  {
    var orders' := orders[id := o];
    forall a, b | a in orders' && b in orders'
      ensures KeyPair(orders', a, b)
    {
      assert a != id && b != id ==> KeyPair(orders, a, b);
    }
  }

  lemma InsertKeepsHolds(config: Config, orders: map<Uuid, Order>, holds: map<Uuid, Hold>, id: Uuid, o: Order, h: Hold)
    requires HoldsOk(config, orders, holds) && HoldRow(config, o, h)
    ensures HoldsOk(config, orders[id := o], holds[id := h])
  {
    var orders', holds' := orders[id := o], holds[id := h];
    forall k | k in orders'
      ensures HoldRow(config, orders'[k], holds'[k])
    {
      assert k != id ==> HoldRow(config, orders[k], holds[k]);
    }
  }

  lemma InsertKeepsPayments(config: Config, orders: map<Uuid, Order>, holds: map<Uuid, Hold>, attempts: map<Uuid, Attempt>,
                            id: Uuid, o: Order, h: Hold)
    requires id !in orders && o.status.PaymentPending?
    requires AttemptsOk(config, orders, holds, attempts) && BackedOk(orders, attempts)
    ensures AttemptsOk(config, orders[id := o], holds[id := h], attempts) && BackedOk(orders[id := o], attempts)
  {
    var orders', holds' := orders[id := o], holds[id := h];
    forall a | a in attempts ensures AttemptRow(config, orders', holds', attempts[a]) {
      assert AttemptRow(config, orders, holds, attempts[a]);
    }
    forall k | k in orders' && Committed(orders'[k]) ensures Backed(attempts, k) {
      assert k in orders && Committed(orders[k]);
    }
  }

  /** The row `Place` inserts. */
  lemma PlacedRow(L: Ledger, c: PurchaseCall)
    requires Validated(c.request) && DecidePurchase(L, c).Placed?
    ensures var o := PlacedOrder(L, c);
            && Orders(o, Wants(c)) && o.user == c.user && o.key == c.key && o.createdAt == c.createdAt
            && OrderRow(L.sales, L.items, o)
  {
    PlacedExactlyWhen(L, c);
    WantsValidated(c.request.items);
    var o := PlacedOrder(L, c);
    forall i | i in Wants(c) ensures i in o.lines && o.lines[i] == Line(Wants(c)[i], L.items[i].price) && i in L.items {
      assert Admissible(L, c, i);
    }
    assert o.lines.Keys == Wants(c).Keys;
    assert |o.lines| == |o.lines.Keys| && |Wants(c)| == |Wants(c).Keys|;
    forall i | i in o.lines ensures LineRow(L.items, o, i) {
      assert Admissible(L, c, i);
    }
  }

  /** The tables after the insertion of one pending order with its hold. */
  ghost predicate Inserts(L: Ledger, M: Ledger, id: Uuid, o: Order, h: Hold, wants: map<Uuid, nat>) {
    && id !in L.orders
    && M.orders == L.orders[id := o] && M.holds == L.holds[id := h] && M.items == HoldStock(L.items, wants)
    && M.sales == L.sales && M.config == L.config && M.attempts == L.attempts
    && Orders(o, wants) && OrderRow(L.sales, L.items, o) && HoldRow(L.config, o, h) && UnusedKey(L.orders, o.user, o.key)
    && forall i :: i in wants ==> i in L.items && wants[i] <= L.items[i].available
                                  && Sum(UsedBy(o.user), L.orders, i) + wants[i] <= L.items[i].perUserLimit
  }

  lemma PlaceInserts(L: Ledger, c: PurchaseCall)
    requires Validated(c.request) && DecidePurchase(L, c).Placed?
    ensures Inserts(L, Place(L, c), c.id, PlacedOrder(L, c), PlacedHold(L, c), Wants(c))
  {
    PlacedExactlyWhen(L, c);
    PlacedRow(L, c);
    forall i | i in Wants(c)
      ensures i in L.items && Wants(c)[i] <= L.items[i].available
      ensures Sum(UsedBy(c.user), L.orders, i) + Wants(c)[i] <= L.items[i].perUserLimit
    {
      assert Admissible(L, c, i);
    }
  }

  lemma InsertKeepsValid(L: Ledger, M: Ledger, id: Uuid, o: Order, h: Hold, wants: map<Uuid, nat>)
    requires Valid(L) && Inserts(L, M, id, o, h, wants)
    ensures Valid(M)
  {
    InsertKeepsStock(L.items, L.orders, id, o, wants);
    InsertKeepsLimits(L.items, L.orders, id, o, wants);
    InsertKeepsOrders(L.sales, L.items, L.orders, id, o, wants);
    InsertKeepsKeys(L.orders, id, o);
    InsertKeepsHolds(L.config, L.orders, L.holds, id, o, h);
    InsertKeepsPayments(L.config, L.orders, L.holds, L.attempts, id, o, h);
  }

  lemma PurchaseKeepsValid(L: Ledger, c: PurchaseCall)
    requires Valid(L) && Validated(c.request)
    ensures Valid(Purchase(L, c))
  {
    if DecidePurchase(L, c).Placed? {
      PlaceInserts(L, c);
      InsertKeepsValid(L, Place(L, c), c.id, PlacedOrder(L, c), PlacedHold(L, c), Wants(c));
    }
  }

  // ---------- payments ----------

  lemma KeyedAttempt(L: Ledger, order: Uuid, key: string, a: Uuid)
    requires PairsOk(L.attempts) && a in WithKey(L, order, key)
    ensures Least(WithKey(L, order, key)) == a
  {
    var b := Least(WithKey(L, order, key));
    assert a != b ==> AttemptPair(L.attempts[a], L.attempts[b]);
  }

  lemma BeginKeepsRows(L: Ledger, c: StartCall)
    requires RowsOk(L) && c.order in L.orders && c.order in L.holds && L.orders[c.order].status.PaymentPending?
    ensures RowsOk(Begin(L, c))
  {
    ReopenKeepsRows(L, c.order, PaymentProcessing);
    var N, M := SetOrder(L, c.order, PaymentProcessing), Begin(L, c);
    assert M.orders == N.orders && M.items == N.items && M.sales == N.sales && M.config == N.config;
    forall k | k in M.orders
      ensures HoldRow(M.config, M.orders[k], M.holds[k])
    {
      assert HoldRow(N.config, N.orders[k], N.holds[k]);
    }
  }

  lemma FreshStart(L: Ledger, c: StartCall)
    requires Linked(L) && DecideStart(L, c).Started?
    ensures c.order in L.orders && c.order in L.holds && L.orders[c.order].status.PaymentPending? && c.id !in L.attempts
    ensures L.orders[c.order].user == c.user && c.checkedAt < L.holds[c.order].expiresAt
    ensures forall a :: a in L.attempts && L.attempts[a].orderId == c.order ==> L.attempts[a].status.Failed? && L.attempts[a].key != c.key
  {
    forall a | a in L.attempts && L.attempts[a].orderId == c.order
      ensures L.attempts[a].status.Failed? && L.attempts[a].key != c.key
    {
      assert a in AttemptsOf(L, c.order);
      assert a in WithKey(L, c.order, c.key) <==> L.attempts[a].key == c.key;
    }
  }

  lemma BeginKeepsPayments(L: Ledger, c: StartCall)
    requires PaymentsOk(L) && c.order in L.orders && c.order in L.holds && c.id !in L.attempts
    requires forall a :: a in L.attempts && L.attempts[a].orderId == c.order ==> L.attempts[a].status.Failed? && L.attempts[a].key != c.key
    ensures PaymentsOk(Begin(L, c))
  {
    var M := Begin(L, c);
    forall a | a in M.attempts ensures AttemptRow(M.config, M.orders, M.holds, M.attempts[a]) {
      assert a != c.id ==> AttemptRow(L.config, L.orders, L.holds, L.attempts[a]);
    }
    forall a, b | a in M.attempts && b in M.attempts && a != b ensures AttemptPair(M.attempts[a], M.attempts[b]) {
      assert a != c.id && b != c.id ==> AttemptPair(L.attempts[a], L.attempts[b]);
    }
    assert Backs(M.attempts, c.id, c.order);
    forall k | k in M.orders && Committed(M.orders[k]) ensures Backed(M.attempts, k) {
      if k != c.order {
        assert Backed(L.attempts, k);
        var a :| Backs(L.attempts, a, k);
        assert Backs(M.attempts, a, k);
      }
    }
  }

  lemma StartKeepsValid(L: Ledger, c: StartCall)
    requires Valid(L) && Linked(L)
    ensures Valid(Start(L, c))
  {
    if DecideStart(L, c).Started? {
      FreshStart(L, c);
      BeginKeepsRows(L, c);
      BeginKeepsPayments(L, c);
    }
  }

  /** Settling touches one order's status and one hold's status. */
  ghost predicate TouchesOnly(L: Ledger, M: Ledger, order: Uuid) {
    && M.config == L.config && M.attempts == L.attempts && M.orders.Keys == L.orders.Keys && M.holds.Keys == L.holds.Keys
    && (forall id :: id in L.orders ==> M.orders[id].totalAmount == L.orders[id].totalAmount)
    && (forall id :: id in L.holds ==> M.holds[id].deadline == L.holds[id].deadline)
    && (forall id :: id in L.orders && id != order ==> M.orders[id].status == L.orders[id].status)
  }

  lemma SettleTouches(L: Ledger, order: Uuid, confirm: bool)
    requires order in L.orders && order in L.holds
    ensures TouchesOnly(L, Settle(L, order, confirm), order)
    ensures Settle(L, order, confirm).orders[order].status == if confirm then OrderConfirmed else OrderExpired
  {
  }

  /** A result recorded, and otherwise only its order's and hold's statuses touched. */
  ghost predicate Records(L: Ledger, M: Ledger, c: ApplyCall) {
    && c.attempt in L.attempts && !L.attempts[c.attempt].Terminal() && L.attempts[c.attempt].orderId in M.orders
    && TouchesOnly(Record(L, c), M, L.attempts[c.attempt].orderId)
    && var s := M.orders[L.attempts[c.attempt].orderId].status;
       if c.result.ResultFailed? then s.PaymentPending? || s.OrderExpired? else s == OrderFor(StatusOf(c.result))
  }

  lemma RecordKeepsPayments(L: Ledger, M: Ledger, c: ApplyCall)
    requires PaymentsOk(L) && Records(L, M, c)
    ensures PaymentsOk(M)
  {
    var order := L.attempts[c.attempt].orderId;
    forall a | a in M.attempts ensures AttemptRow(M.config, M.orders, M.holds, M.attempts[a]) {
      assert AttemptRow(L.config, L.orders, L.holds, L.attempts[a]);
      assert a != c.attempt ==> AttemptPair(L.attempts[c.attempt], L.attempts[a]);
    }
    forall a, b | a in M.attempts && b in M.attempts && a != b ensures AttemptPair(M.attempts[a], M.attempts[b]) {
      assert AttemptPair(L.attempts[a], L.attempts[b]);
    }
    assert !c.result.ResultFailed? ==> Backs(M.attempts, c.attempt, order);
    forall k | k in M.orders && Committed(M.orders[k]) ensures Backed(M.attempts, k) {
      if k != order {
        assert Backed(L.attempts, k);
        var a :| Backs(L.attempts, a, k);
        assert Backs(M.attempts, a, k);
      }
    }
  }

  /** An attempt still open keeps its order processing and its hold active. */
  lemma OpenAttempt(L: Ledger, a: Uuid)
    requires Valid(L) && a in L.attempts && !L.attempts[a].Terminal()
    ensures var o := L.attempts[a].orderId;
            o in L.orders && o in L.holds && L.orders[o].status.PaymentProcessing? && L.holds[o].status.Active?
  {
    var o := L.attempts[a].orderId;
    assert AttemptRow(L.config, L.orders, L.holds, L.attempts[a]);
    assert HoldRow(L.config, L.orders[o], L.holds[o]);
  }

  lemma SettledKeepsRows(L: Ledger, c: ApplyCall)
    requires Valid(L) && Linked(L) && DecideApply(L, c).Applied?
    ensures RowsOk(Settled(L, c))
  {
    OpenAttempt(L, c.attempt);
    var order := L.attempts[c.attempt].orderId;
    var M := Record(L, c);
    assert RowsOk(M);
    match c.result {
      case ResultSucceeded => SettleKeepsRows(M, order, true);
      case ResultUnknown =>
      case ResultFailed =>
        ReopenKeepsRows(M, order, PaymentPending);
        SettleKeepsRows(SetOrder(M, order, PaymentPending), order, false);
    }
  }

  lemma TouchesTwice(L: Ledger, M: Ledger, N: Ledger, order: Uuid)
    requires TouchesOnly(L, M, order) && TouchesOnly(M, N, order)
    ensures TouchesOnly(L, N, order)
  {
  }

  lemma FailureTouches(M: Ledger, order: Uuid)
    requires order in M.orders && order in M.holds
    ensures var N := SetOrder(M, order, PaymentPending);
            && TouchesOnly(M, N, order) && N.orders[order].status.PaymentPending?
            && TouchesOnly(M, Release(N, order), order)
            && (Release(N, order).orders[order].status.PaymentPending? || Release(N, order).orders[order].status.OrderExpired?)
  {
    var N := SetOrder(M, order, PaymentPending);
    SettleTouches(N, order, false);
    TouchesTwice(M, N, Settle(N, order, false), order);
  }

  lemma SettledRecords(L: Ledger, c: ApplyCall)
    requires Linked(L) && DecideApply(L, c).Applied?
    requires L.orders[L.attempts[c.attempt].orderId].status.PaymentProcessing?
    ensures Records(L, Settled(L, c), c)
  {
    var order := L.attempts[c.attempt].orderId;
    match c.result {
      case ResultSucceeded => SettleTouches(Record(L, c), order, true);
      case ResultUnknown =>
      case ResultFailed => FailureTouches(Record(L, c), order);
    }
  }

  lemma ApplyKeepsValid(L: Ledger, c: ApplyCall)
    requires Valid(L) && Linked(L)
    ensures Valid(Apply(L, c))
  {
    if DecideApply(L, c).Applied? {
      SettledKeepsRows(L, c);
      OpenAttempt(L, c.attempt);
      SettledRecords(L, c);
      RecordKeepsPayments(L, Settled(L, c), c);
    }
  }

  lemma ExpireKeepsPayments(L: Ledger, id: Uuid)
    requires PaymentsOk(L) && id in L.orders && id in L.holds && L.orders[id].status.PaymentPending?
    ensures PaymentsOk(Settle(L, id, false))
  {
    var M := Settle(L, id, false);
    forall a | a in M.attempts ensures AttemptRow(M.config, M.orders, M.holds, M.attempts[a]) {
      assert AttemptRow(L.config, L.orders, L.holds, L.attempts[a]);
    }
    forall k | k in M.orders && Committed(M.orders[k]) ensures Backed(M.attempts, k) {
      assert Committed(L.orders[k]);
    }
  }

  lemma ExpireKeepsValid(L: Ledger, id: Uuid, now: Instant)
    requires Valid(L) && Linked(L)
    ensures Valid(Expire(L, id, now))
  {
    if Expires(L, id, now) {
      SettleKeepsRows(L, id, false);
      ExpireKeepsPayments(L, id);
    }
  }

  lemma LeaseKeepsPayments(L: Ledger, id: Uuid, lease: Option<Instant>)
    requires PaymentsOk(L) && id in L.attempts
    ensures PaymentsOk(L.(attempts := L.attempts[id := L.attempts[id].(leaseUntil := lease)]))
  {
    var M := L.(attempts := L.attempts[id := L.attempts[id].(leaseUntil := lease)]);
    forall a | a in M.attempts ensures AttemptRow(M.config, M.orders, M.holds, M.attempts[a]) {
      assert AttemptRow(L.config, L.orders, L.holds, L.attempts[a]);
    }
    forall a, b | a in M.attempts && b in M.attempts && a != b ensures AttemptPair(M.attempts[a], M.attempts[b]) {
      assert AttemptPair(L.attempts[a], L.attempts[b]);
    }
    forall k | k in M.orders && Committed(M.orders[k]) ensures Backed(M.attempts, k) {
      assert Backed(L.attempts, k);
      var a :| Backs(L.attempts, a, k);
      assert Backs(M.attempts, a, k);
    }
  }

  lemma StartKeepsAttempts(L: Ledger, c: StartCall)
    requires Linked(L)
    ensures forall b :: b in L.attempts ==> b in Start(L, c).attempts && Start(L, c).attempts[b] == L.attempts[b]
  {
  }

  /** A claim changes nothing but the lease of the claimed attempt. */
  lemma ClaimTouchesLease(L: Ledger, id: Uuid, now: Instant)
    ensures forall b :: b in L.attempts ==> b in Claim(L, id, now).attempts
    ensures forall b :: b in L.attempts ==>
      Claim(L, id, now).attempts[b] ==
        if b == id && id in Claimable(L, now) then L.attempts[b].(leaseUntil := Some(now + LEASE)) else L.attempts[b]
  {
  }

  lemma ClaimKeepsValid(L: Ledger, id: Uuid, now: Instant)
    requires Valid(L)
    ensures Valid(Claim(L, id, now))
  {
    if id in Claimable(L, now) {
      LeaseKeepsPayments(L, id, Some(now + LEASE));
    }
  }

  lemma UnsoldYet(sales: map<Uuid, Sale>, items: map<Uuid, Item>, orders: map<Uuid, Order>, t: Tally, i: Uuid)
    requires OrdersOk(sales, items, orders) && i !in items
    ensures Sum(t, orders, i) == 0
  {
    forall id | id in orders ensures i !in orders[id].lines {
      assert OrderRow(sales, items, orders[id]);
      assert i in orders[id].lines ==> LineRow(items, orders[id], i);
    }
    SumOfAbsent(t, orders, i);
  }

  ghost predicate Untouched(row: Item) {
    && row.total == row.available && row.held == 0 && row.sold == 0
    && 0 < row.price <= MAX_PRICE && 0 < row.total <= MAX_STOCK && 0 < row.perUserLimit
  }

  lemma StockingKeepsRows(sales: map<Uuid, Sale>, items: map<Uuid, Item>, orders: map<Uuid, Order>, more: map<Uuid, Item>)
    requires StockOk(items, orders) && LimitsOk(items, orders) && OrdersOk(sales, items, orders)
    requires items.Keys !! more.Keys && forall i :: i in more ==> Untouched(more[i])
    ensures StockOk(items + more, orders) && LimitsOk(items + more, orders)
  {
    forall i | i in items + more ensures StockRow(items + more, orders, i) {
      if i in more {
        UnsoldYet(sales, items, orders, HeldStock, i);
        UnsoldYet(sales, items, orders, SoldStock, i);
      } else {
        assert StockRow(items, orders, i);
      }
    }
    forall user, i | i in items + more ensures LimitRow(items + more, orders, user, i) {
      if i in more { UnsoldYet(sales, items, orders, UsedBy(user), i); } else { assert LimitRow(items, orders, user, i); }
    }
  }

  lemma StockingKeepsOrders(sales: map<Uuid, Sale>, items: map<Uuid, Item>, orders: map<Uuid, Order>, more: map<Uuid, Item>,
                            id: Uuid, sale: Sale)
    requires OrdersOk(sales, items, orders) && items.Keys !! more.Keys
    ensures OrdersOk(sales[id := sale], items + more, orders)
  {
    forall k | k in orders ensures OrderRow(sales[id := sale], items + more, orders[k]) {
      assert OrderRow(sales, items, orders[k]);
      forall i | i in orders[k].lines ensures LineRow(items + more, orders[k], i) { assert LineRow(items, orders[k], i); }
    }
  }

  lemma NewItemsUntouched(c: SaleCall)
    requires ValidSale(c)
    ensures NewItems(c).Keys == c.items.Keys && forall i :: i in NewItems(c) ==> Untouched(NewItems(c)[i])
  {
    forall i | i in NewItems(c) ensures Untouched(NewItems(c)[i]) { assert 0 < c.items[i].perUserLimit; }
  }

  lemma StockingKeepsSales(sales: map<Uuid, Sale>, items: map<Uuid, Item>, more: map<Uuid, Item>, id: Uuid, sale: Sale)
    requires SalesOk(sales, items) && forall i :: i in more ==> more[i].saleId == id
    ensures SalesOk(sales[id := sale], items + more)
  {
  }

  lemma StockingKeepsValid(L: Ledger, more: map<Uuid, Item>, id: Uuid, sale: Sale)
    requires Valid(L) && L.items.Keys !! more.Keys
    requires forall i :: i in more ==> Untouched(more[i]) && more[i].saleId == id
    ensures Valid(L.(sales := L.sales[id := sale], items := L.items + more))
  {
    StockingKeepsRows(L.sales, L.items, L.orders, more);
    StockingKeepsOrders(L.sales, L.items, L.orders, more, id, sale);
    StockingKeepsSales(L.sales, L.items, more, id, sale);
  }

  lemma CreateSaleKeepsValid(L: Ledger, c: SaleCall)
    requires Valid(L) && ValidSale(c)
    ensures Valid(CreateSale(L, c))
  {
    if FreshSale(L, c) {
      NewItemsUntouched(c);
      forall i | i in NewItems(c).Keys ensures i !in L.items.Keys {
        assert i !in c.items.Keys * L.items.Keys;
      }
      StockingKeepsValid(L, NewItems(c), c.id, Sale(c.opensAt));
    }
  }
}
