/** The purchase transaction, loop by loop. */
module PurchaseTransactionService {
  import opened Collections
  import opened Keys
  import opened LedgerSpec
  import opened Invariant
  import opened Database

  // ---------- the basket ----------

  /** The HashMap of requested quantities. */
  method Quantities(items: seq<RequestItem>) returns (m: map<Uuid, nat>)
    ensures m == Wanted(items)
  {
    m := map[];
    for k := 0 to |items|
      invariant m == Wanted(items[..k])
    {
      assert items[..k + 1][..k] == items[..k];
      m := m[items[k].id := items[k].quantity];
    }
    assert items[..|items|] == items;
  }

  /** The advisory negative cache: one remembered item refuses the basket. */
  method AnyCached(items: seq<RequestItem>, cached: set<Uuid>) returns (found: bool)
    ensures found <==> Wanted(items).Keys * cached != {}
  {
    for k := 0 to |items|
      invariant forall j :: 0 <= j < k ==> items[j].id !in cached
    {
      if items[k].id in cached {
        assert items[k].id in Wanted(items);
        assert items[k].id in Wanted(items).Keys * cached;
        return true;
      }
    }
    found := false;
  }

  // ---------- checks ----------

  /** Counting the locked rows tells whether every requested item exists. */
  lemma CountedRows(items: map<Uuid, Item>, ids: set<Uuid>)
    ensures |ids * items.Keys| == |ids| <==> ids <= items.Keys
  {
    if ids <= items.Keys {
      assert ids * items.Keys == ids;
    } else {
      var i :| i in ids && i !in items.Keys;
      SubsetSize(ids * items.Keys, ids - {i});
    }
  }

  method CheckStocks(db: Tables, user: string, wants: map<Uuid, nat>, stocks: seq<Uuid>) returns (problem: Option<Error>)
    requires forall i :: i in stocks ==> i in db.items && i in wants
    ensures problem == FirstProblem(db.State(), user, wants, stocks)
  {
    for k := 0 to |stocks|
      invariant FirstProblem(db.State(), user, wants, stocks) == FirstProblem(db.State(), user, wants, stocks[k..])
    {
      var stock := stocks[k];
      assert stocks[k..][0] == stock && stocks[k..][1..] == stocks[k + 1..];
      assert stock in stocks;
      if db.items[stock].available < wants[stock] { return Some(TemporarilyUnavailable); }
      if Sum(UsedBy(user), db.orders, stock) + wants[stock] > db.items[stock].perUserLimit { return Some(UserLimitExceeded); }
    }
    problem := None;
  }

  // ---------- changes ----------

  /** The lines of the first `k` locked rows. */
  ghost function LinesUpTo(items: map<Uuid, Item>, wants: map<Uuid, nat>, rows: seq<Uuid>, k: nat): map<Uuid, Line>
    requires k <= |rows| && forall i :: i in rows ==> i in items && i in wants
  {
    if k == 0 then map[] else LinesUpTo(items, wants, rows, k - 1)[rows[k - 1] := Line(wants[rows[k - 1]], items[rows[k - 1]].price)]
  }

  lemma {:induction false} LinesUpToAt(items: map<Uuid, Item>, wants: map<Uuid, nat>, rows: seq<Uuid>, k: nat)
    requires k <= |rows| && Increasing(rows) && forall i :: i in rows ==> i in items && i in wants
    ensures var m := LinesUpTo(items, wants, rows, k);
            && (forall i :: i in m <==> exists j :: 0 <= j < k && rows[j] == i)
            && forall i :: i in m ==> i in items && i in wants && m[i] == Line(wants[i], items[i].price)
  {
    if k > 0 { LinesUpToAt(items, wants, rows, k - 1); }
  }

  lemma AllLines(L: Ledger, wants: map<Uuid, nat>, rows: seq<Uuid>)
    requires Increasing(rows) && (forall i :: i in rows <==> i in wants) && forall i :: i in wants ==> i in L.items
    ensures LinesUpTo(L.items, wants, rows, |rows|) == PlacedLines(L, wants)
  {
    LinesUpToAt(L.items, wants, rows, |rows|);
    var m := LinesUpTo(L.items, wants, rows, |rows|);
    forall i ensures i in m <==> i in PlacedLines(L, wants) {
      if i in wants { assert i in rows; }
    }
  }

  method TotalAmount(items: map<Uuid, Item>, wants: map<Uuid, nat>, stocks: seq<Uuid>) returns (total: nat)
    requires Increasing(stocks) && forall i :: i in stocks ==> i in items && i in wants
    ensures total == Amount(LinesUpTo(items, wants, stocks, |stocks|))
  {
    total := 0;
    for k := 0 to |stocks|
      invariant total == Amount(LinesUpTo(items, wants, stocks, k))
    {
      var stock := stocks[k];
      assert stock in stocks;
      LinesUpToAt(items, wants, stocks, k);
      AmountGrows(LinesUpTo(items, wants, stocks, k), stock, Line(wants[stock], items[stock].price));
      total := total + items[stock].price * wants[stock];
    }
  }

  ghost function HeldRows(items: map<Uuid, Item>, wants: map<Uuid, nat>, rows: seq<Uuid>, k: nat): map<Uuid, Item>
    requires k <= |rows| && forall i :: i in rows ==> i in items && i in wants
  {
    if k == 0 then items else
      var before := HeldRows(items, wants, rows, k - 1);
      var i := rows[k - 1];
      if i in before then before[i := HoldRow(before[i], wants[i])] else before
  }

  function HoldRow(row: Item, n: nat): Item {
    row.(available := row.available - n, held := row.held + n)
  }

  lemma {:induction false} HeldRowsAt(items: map<Uuid, Item>, wants: map<Uuid, nat>, rows: seq<Uuid>, k: nat, x: Uuid)
    requires k <= |rows| && Increasing(rows) && forall i :: i in rows ==> i in items && i in wants
    ensures var m := HeldRows(items, wants, rows, k);
            && m.Keys == items.Keys
            && (x in items ==> m[x] == if x in rows[..k] then HoldRow(items[x], wants[x]) else items[x])
  {
    if k > 0 {
      HeldRowsAt(items, wants, rows, k - 1, x);
      assert rows[..k] == rows[..k - 1] + [rows[k - 1]];
      assert rows[k - 1] !in rows[..k - 1];
    }
  }

  lemma AllHeld(items: map<Uuid, Item>, wants: map<Uuid, nat>, rows: seq<Uuid>)
    requires Increasing(rows) && (forall i :: i in rows <==> i in wants) && forall i :: i in wants ==> i in items
    ensures HeldRows(items, wants, rows, |rows|) == HoldStock(items, wants)
  {
    var m := HeldRows(items, wants, rows, |rows|);
    assert rows[..|rows|] == rows;
    forall x ensures m.Keys == items.Keys && (x in items ==> m[x] == HoldStock(items, wants)[x]) {
      HeldRowsAt(items, wants, rows, |rows|, x);
    }
  }

  method TakeStocks(db: Tables, id: Uuid, wants: map<Uuid, nat>, stocks: seq<Uuid>)
    requires id in db.orders && db.orders[id].lines == map[]
    requires Increasing(stocks) && forall i :: i in stocks ==> i in db.items && i in wants
    modifies db`items, db`orders
    ensures db.items == HeldRows(old(db.items), wants, stocks, |stocks|)
    ensures db.orders == old(db.orders)[id := old(db.orders[id]).(lines := LinesUpTo(old(db.items), wants, stocks, |stocks|))]
  {
    ghost var items := db.items;
    var order := db.orders[id];
    for k := 0 to |stocks|
      invariant db.items.Keys == items.Keys
      invariant forall i :: i in items ==> db.items[i].price == items[i].price
      invariant db.items == HeldRows(items, wants, stocks, k)
      invariant db.orders == old(db.orders)[id := order.(lines := LinesUpTo(items, wants, stocks, k))]
    {
      var stock := stocks[k];
      assert stock in stocks;
      var quantity := wants[stock];
      var row := db.items[stock];
      row := row.(available := row.available - quantity);
      row := row.(held := row.held + quantity);
      db.items := db.items[stock := row];
      var lines := db.orders[id].lines[stock := Line(quantity, row.price)];
      db.orders := db.orders[id := order.(lines := lines)];
    }
  }

  // ---------- the transaction ----------

  /** The answer built from the inserted rows is what the queries would return. */
  lemma FreshView(L: Ledger, M: Ledger, id: Uuid, o: Order, h: Hold)
    requires Linked(L) && id !in L.orders
    requires M.orders == L.orders[id := o] && M.holds == L.holds[id := h] && M.attempts == L.attempts
    ensures View(M, id) == OrderView(id, o.status, o.totalAmount, h.expiresAt, o.lines, map[])
  {
    assert AttemptsOf(M, id) == {} by {
      forall a | a in L.attempts ensures L.attempts[a].orderId != id { assert L.attempts[a].orderId in L.orders; }
    }
  }

  /** Insert an order row, then its lines while its stock is taken. */
  method InsertRows(db: Tables, id: Uuid, order: Order, wants: map<Uuid, nat>, stocks: seq<Uuid>) returns (placed: Order)
    requires order.lines == map[]
    requires Increasing(stocks) && (forall i :: i in stocks <==> i in wants) && forall i :: i in wants ==> i in db.items
    modifies db`items, db`orders
    ensures placed == order.(lines := PlacedLines(old(db.State()), wants), totalAmount := Amount(PlacedLines(old(db.State()), wants)))
    ensures db.items == HoldStock(old(db.items), wants) && db.orders == old(db.orders)[id := placed]
  {
    AllLines(db.State(), wants, stocks);
    AllHeld(db.items, wants, stocks);
    var amount := TotalAmount(db.items, wants, stocks);
    db.orders := db.orders[id := order.(totalAmount := amount)];
    TakeStocks(db, id, wants, stocks);
    placed := db.orders[id];
  }

  /** Insert the order, its lines and its hold, and take the stock. */
  method InsertOrder(db: Tables, c: PurchaseCall, wants: map<Uuid, nat>, stocks: seq<Uuid>) returns (placed: Order, hold: Hold)
    requires c.id !in db.orders && wants == Wants(c)
    requires Increasing(stocks) && (forall i :: i in stocks <==> i in wants) && forall i :: i in wants ==> i in db.items
    modifies db`items, db`orders, db`holds
    ensures db.items == HoldStock(old(db.items), wants)
    ensures placed == PlacedOrder(old(db.State()), c) && db.orders == old(db.orders)[c.id := placed]
    ensures hold == PlacedHold(old(db.State()), c) && db.holds == old(db.holds)[c.id := hold]
  {
    var order := Order(c.user, c.request.saleId, c.key, Fingerprint(c.request), PaymentPending, 0, c.createdAt, map[]);
    placed := InsertRows(db, c.id, order, wants, stocks);
    hold := Hold(Active, placed.createdAt + db.config.holdSeconds * SECOND, None);
    db.holds := db.holds[c.id := hold];
  }

  lemma AllInSale(L: Ledger, saleId: Uuid, wants: map<Uuid, nat>, stocks: seq<Uuid>, n: nat)
    requires n == |wants.Keys|
    requires |stocks| == |wants.Keys * L.items.Keys|
    requires forall i :: i in stocks <==> i in wants && i in L.items
    ensures InOneSale(L, saleId, wants) <==> |stocks| == n && forall i :: i in stocks ==> L.items[i].saleId == saleId
  {
    CountedRows(L.items, wants.Keys);
  }

  method WrongSale(items: map<Uuid, Item>, saleId: Uuid, stocks: seq<Uuid>) returns (wrong: bool)
    requires forall i :: i in stocks ==> i in items
    ensures wrong <==> exists i :: i in stocks && items[i].saleId != saleId
  {
    for k := 0 to |stocks|
      invariant forall j :: 0 <= j < k ==> stocks[j] in items && items[stocks[j]].saleId == saleId
    {
      assert stocks[k] in stocks;
      if items[stocks[k]].saleId != saleId { return true; }
    }
    wrong := false;
  }

  /** The rows of an accepted purchase and the answer built from them. */
  method PlaceOrder(db: Tables, c: PurchaseCall, wants: map<Uuid, nat>, stocks: seq<Uuid>) returns (view: OrderView)
    requires Linked(db.State()) && c.id !in db.orders && wants == Wants(c)
    requires Increasing(stocks) && (forall i :: i in stocks <==> i in wants) && forall i :: i in wants ==> i in db.items
    modifies db`items, db`orders, db`holds
    ensures db.State() == Place(old(db.State()), c)
    ensures c.id in db.orders && c.id in db.holds && view == View(db.State(), c.id)
  {
    ghost var L := db.State();
    var placed, hold := InsertOrder(db, c, wants, stocks);
    assert db.State() == Place(L, c);
    FreshView(L, db.State(), c.id, placed, hold);
    view := OrderView(c.id, placed.status, placed.totalAmount, hold.expiresAt, placed.lines, map[]);
  }

  method PurchaseOrder(db: Tables, c: PurchaseCall) returns (answer: PurchaseAnswer, view: Option<OrderView>)
    requires db.Good() && Validated(c.request)
    modifies db`items, db`orders, db`holds
    ensures db.Good()
    ensures answer == DecidePurchase(old(db.State()), c)
    ensures db.State() == Purchase(old(db.State()), c)
    ensures match answer
            case Refused(_) => view.None?
            case Replayed(id) => id in db.orders && id in db.holds && view == Some(View(db.State(), id))
            case Placed(id) => id in db.orders && id in db.holds && view == Some(View(db.State(), id))
  {
    ghost var L := db.State();
    PurchaseKeepsValid(L, c);
    view := None;
    if !Distinct(c.request.items) { return Refused(DuplicateItem), None; }
    var fingerprint := Fingerprint(c.request);
    var existing := ByKey(db.orders, c.user, c.key);
    if existing.Some? {
      if db.orders[existing.value].fingerprint != fingerprint { return Refused(KeyReused), None; }
      return Replayed(existing.value), Some(ReadView(db, existing.value));
    }
    var refusal, wants, stocks := CheckBasket(db, c);
    if refusal.Some? { return Refused(refusal.value), None; }
    if c.id in db.orders { return Refused(DuplicateId), None; }
    var placed := PlaceOrder(db, c, wants, stocks);
    answer, view := Placed(c.id), Some(placed);
  }

  /** `OrderQueryService.view` over the tables. */
  function ReadView(db: Tables, id: Uuid): (v: OrderView)
    requires id in db.orders && id in db.holds
    reads db
    ensures v == View(db.State(), id)
  {
    var o := db.orders[id];
    var own := set a | a in db.attempts && db.attempts[a].orderId == id;
    OrderView(id, o.status, o.totalAmount, db.holds[id].expiresAt, o.lines,
              map a | a in own :: PaymentView(db.attempts[a].status, db.attempts[a].scenario))
  }

  /** Every check between the idempotency lookup and the insertion. */
  ghost function BasketRefusal(L: Ledger, c: PurchaseCall): Option<Error> {
    if c.request.saleId !in L.sales then Some(SaleNotFound)
    else if L.sales[c.request.saleId].opensAt > c.now then Some(SaleNotOpen)
    else if Wants(c).Keys * c.cached != {} then Some(TemporarilyUnavailable)
    else if c.admission.Some? && c.millis >= c.admission.value then Some(AdmissionExpired)
    else if !InOneSale(L, c.request.saleId, Wants(c)) then Some(InvalidSaleItem)
    else FirstProblem(L, c.user, Wants(c), ById(Wants(c).Keys))
  }

  method CheckBasket(db: Tables, c: PurchaseCall) returns (refusal: Option<Error>, wants: map<Uuid, nat>, stocks: seq<Uuid>)
    requires Distinct(c.request.items)
    ensures refusal == BasketRefusal(db.State(), c)
    ensures refusal.None? ==> wants == Wants(c) && Increasing(stocks)
                              && (forall i :: i in stocks <==> i in wants) && forall i :: i in wants ==> i in db.items
  {
    ghost var L := db.State();
    wants, stocks := map[], [];
    if c.request.saleId !in db.sales { return Some(SaleNotFound), wants, stocks; }
    if db.sales[c.request.saleId].opensAt > c.now { return Some(SaleNotOpen), wants, stocks; }
    var cachedEmpty := AnyCached(c.request.items, c.cached);
    if cachedEmpty { return Some(TemporarilyUnavailable), wants, stocks; }
    wants := Quantities(c.request.items);
    stocks := LockItems(db.items, wants.Keys);
    if c.admission.Some? && c.millis >= c.admission.value { return Some(AdmissionExpired), wants, stocks; }
    WantedSize(c.request.items);
    assert |wants| == |wants.Keys|;
    AllInSale(L, c.request.saleId, wants, stocks, |c.request.items|);
    var wrong := WrongSale(db.items, c.request.saleId, stocks);
    if |stocks| != |c.request.items| || wrong { return Some(InvalidSaleItem), wants, stocks; }
    refusal := CheckStocks(db, c.user, wants, stocks);
    IncreasingUnique(stocks, ById(wants.Keys));
  }
}
