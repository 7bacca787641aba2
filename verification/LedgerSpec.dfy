/** The rows of the stock, order and payment ledger and, for each write transaction, its
    decision and its effect as functions. The services in Services.dfy carry the same
    transactions out step by step and are proved equal to these functions.

    A transaction that takes the key lock or the order lock is one step. Every clock reading
    is a parameter: nothing here assumes that two readings are ordered. */
module LedgerSpec {
  import opened Collections
  import opened Keys

  /** Microseconds, the resolution of the timestamp columns. */
  type Instant = int
  const SECOND: int := 1_000_000

  datatype Config = Config(holdSeconds: int, paymentWindow: int)

  datatype Sale = Sale(opensAt: Instant)
  datatype Item = Item(saleId: Uuid, price: nat, perUserLimit: int, total: int, available: int, held: int, sold: int)
  datatype OrderStatus = PaymentPending | PaymentProcessing | OrderConfirmed | OrderExpired
  datatype Line = Line(quantity: nat, unitPrice: nat)
  datatype Order = Order(user: string, saleId: Uuid, key: string, fingerprint: string, status: OrderStatus,
                         totalAmount: nat, createdAt: Instant, lines: map<Uuid, Line>)
  datatype HoldStatus = Active | HoldConfirmed | HoldExpired
  datatype Hold = Hold(status: HoldStatus, expiresAt: Instant, deadline: Option<Instant>)
  datatype Scenario = Success | Failure | DelayedSuccess | LostResponse | NeverResolved
  datatype Result = ResultSucceeded | ResultFailed | ResultUnknown
  datatype AttemptStatus = Created | Processing | Succeeded | Failed | Unknown
  datatype Attempt = Attempt(orderId: Uuid, key: string, scenario: Scenario, status: AttemptStatus, amount: nat,
                             createdAt: Instant, nextCheckAt: Instant, leaseUntil: Option<Instant>,
                             terminalAt: Option<Instant>)
  {
    predicate Terminal() { status.Succeeded? || status.Failed? }
  }

  datatype Ledger = Ledger(config: Config, sales: map<Uuid, Sale>, items: map<Uuid, Item>, orders: map<Uuid, Order>,
                           holds: map<Uuid, Hold>, attempts: map<Uuid, Attempt>)

  datatype Error =
    | InvalidIdentity | DuplicateItem | KeyReused | SaleNotFound | SaleNotOpen | TemporarilyUnavailable
    | AdmissionRequired | InvalidAdmission | AdmissionExpired | PurchaseBusy | AdmissionUnavailable
    | InvalidSaleItem | UserLimitExceeded | DuplicateId
    | OrderNotFound | PaymentBlocked | HoldWindowOver
    | PaymentNotFound | AmountMismatch | ResultConflict | ReleasedStock

  /** Every order has its hold, and every attempt its order. */
  predicate Linked(L: Ledger) {
    && L.holds.Keys == L.orders.Keys
    && forall a :: a in L.attempts ==> L.attempts[a].orderId in L.orders
  }

  // ---------- queries ----------

  function Amounts(lines: map<Uuid, Line>): map<Uuid, nat> {
    map i | i in lines :: lines[i].quantity * lines[i].unitPrice
  }

  function Amount(lines: map<Uuid, Line>): nat {
    Total(Amounts(lines))
  }

  function Quantity(o: Order, item: Uuid): nat {
    if item in o.lines then o.lines[item].quantity else 0
  }

  /** Which orders a sum over the order lines counts. */
  datatype Tally = HeldStock | SoldStock | UsedBy(user: string)

  predicate Counts(t: Tally, o: Order) {
    match t
    case HeldStock => o.status.PaymentPending? || o.status.PaymentProcessing?
    case SoldStock => o.status.OrderConfirmed?
    case UsedBy(user) => o.user == user && !o.status.OrderExpired?
  }

  function Share(t: Tally, o: Order, item: Uuid): nat {
    if Counts(t, o) then Quantity(o, item) else 0
  }

  function Shares(t: Tally, orders: map<Uuid, Order>, item: Uuid): map<Uuid, nat> {
    map id | id in orders :: Share(t, orders[id], item)
  }

  /** The sum of an item's quantities over the orders a tally counts. */
  function Sum(t: Tally, orders: map<Uuid, Order>, item: Uuid): nat {
    Total(Shares(t, orders, item))
  }

  function ByKey(orders: map<Uuid, Order>, user: string, key: string): (r: Option<Uuid>)
    ensures r.Some? ==> r.value in orders && orders[r.value].user == user && orders[r.value].key == key
    ensures r.None? ==> forall id :: id in orders ==> !(orders[id].user == user && orders[id].key == key)
  {
    var ids := set id | id in orders && orders[id].user == user && orders[id].key == key;
    if ids == {} then
      assert forall id :: id in orders && orders[id].user == user && orders[id].key == key ==> id in ids;
      None
    else Some(Least(ids))
  }

  datatype PaymentView = PaymentView(status: AttemptStatus, scenario: Scenario)
  datatype OrderView = OrderView(id: Uuid, status: OrderStatus, totalAmount: nat, holdExpiresAt: Instant,
                                 lines: map<Uuid, Line>, payments: map<Uuid, PaymentView>)

  function AttemptsOf(L: Ledger, order: Uuid): set<Uuid> {
    set a | a in L.attempts && L.attempts[a].orderId == order
  }

  /** `OrderQueryService.view` */
  function View(L: Ledger, id: Uuid): OrderView
    requires id in L.orders && id in L.holds
  {
    var o := L.orders[id];
    OrderView(id, o.status, o.totalAmount, L.holds[id].expiresAt, o.lines,
              map a | a in AttemptsOf(L, id) :: PaymentView(L.attempts[a].status, L.attempts[a].scenario))
  }

  // ---------- purchase ----------

  datatype PurchaseCall = PurchaseCall(id: Uuid, user: string, key: string, request: PurchaseRequest,
                                       now: Instant, cached: set<Uuid>, admission: Option<int>, millis: int,
                                       createdAt: Instant)

  datatype PurchaseAnswer = Replayed(order: Uuid) | Placed(order: Uuid) | Refused(error: Error)

  function Wants(c: PurchaseCall): map<Uuid, nat> { Wanted(c.request.items) }

  /** The first refusal the check loop meets, in the order the rows were locked. */
  function FirstProblem(L: Ledger, user: string, wants: map<Uuid, nat>, rows: seq<Uuid>): Option<Error>
    requires forall i :: i in rows ==> i in L.items && i in wants
  {
    if rows == [] then None
    else if L.items[rows[0]].available < wants[rows[0]] then Some(TemporarilyUnavailable)
    else if Sum(UsedBy(user), L.orders, rows[0]) + wants[rows[0]] > L.items[rows[0]].perUserLimit then Some(UserLimitExceeded)
    else FirstProblem(L, user, wants, rows[1..])
  }

  predicate InOneSale(L: Ledger, saleId: Uuid, wants: map<Uuid, nat>) {
    forall i :: i in wants ==> i in L.items && L.items[i].saleId == saleId
  }

  function DecidePurchase(L: Ledger, c: PurchaseCall): PurchaseAnswer {
    if !Distinct(c.request.items) then Refused(DuplicateItem)
    else
      var existing := ByKey(L.orders, c.user, c.key);
      if existing.Some? then
        if L.orders[existing.value].fingerprint != Fingerprint(c.request) then Refused(KeyReused) else Replayed(existing.value)
      else if c.request.saleId !in L.sales then Refused(SaleNotFound)
      else if L.sales[c.request.saleId].opensAt > c.now then Refused(SaleNotOpen)
      else if Wants(c).Keys * c.cached != {} then Refused(TemporarilyUnavailable)
      else if c.admission.Some? && c.millis >= c.admission.value then Refused(AdmissionExpired)
      else if !InOneSale(L, c.request.saleId, Wants(c)) then Refused(InvalidSaleItem)
      else
        var problem := FirstProblem(L, c.user, Wants(c), ById(Wants(c).Keys));
        if problem.Some? then Refused(problem.value)
        else if c.id in L.orders then Refused(DuplicateId)
        else Placed(c.id)
  }

  function PlacedLines(L: Ledger, wants: map<Uuid, nat>): map<Uuid, Line> {
    map i | i in wants && i in L.items :: Line(wants[i], L.items[i].price)
  }

  function HoldStock(items: map<Uuid, Item>, wants: map<Uuid, nat>): map<Uuid, Item> {
    map i | i in items :: if i in wants then
      items[i].(available := items[i].available - wants[i], held := items[i].held + wants[i]) else items[i]
  }

  function PlacedOrder(L: Ledger, c: PurchaseCall): Order {
    var lines := PlacedLines(L, Wants(c));
    Order(c.user, c.request.saleId, c.key, Fingerprint(c.request), PaymentPending, Amount(lines), c.createdAt, lines)
  }

  function PlacedHold(L: Ledger, c: PurchaseCall): Hold {
    Hold(Active, c.createdAt + L.config.holdSeconds * SECOND, None)
  }

  function Place(L: Ledger, c: PurchaseCall): Ledger {
    L.(items := HoldStock(L.items, Wants(c)),
       orders := L.orders[c.id := PlacedOrder(L, c)],
       holds := L.holds[c.id := PlacedHold(L, c)])
  }

  function Purchase(L: Ledger, c: PurchaseCall): Ledger {
    if DecidePurchase(L, c).Placed? then Place(L, c) else L
  }

  // ---------- stock movements ----------

  function MoveStock(items: map<Uuid, Item>, lines: map<Uuid, Line>, confirm: bool): map<Uuid, Item> {
    map i | i in items :: if i in lines then MoveRow(items[i], lines[i].quantity, confirm) else items[i]
  }

  function MoveRow(item: Item, n: int, confirm: bool): Item {
    if confirm then item.(held := item.held - n, sold := item.sold + n)
    else item.(held := item.held - n, available := item.available + n)
  }

  function SetOrder(L: Ledger, id: Uuid, status: OrderStatus): Ledger
    requires id in L.orders
  {
    L.(orders := L.orders[id := L.orders[id].(status := status)])
  }

  function SetHold(L: Ledger, id: Uuid, status: HoldStatus): Ledger
    requires id in L.holds
  {
    L.(holds := L.holds[id := L.holds[id].(status := status)])
  }

  /** The move and the two final statuses, for a hold that is still active. */
  function Settle(L: Ledger, id: Uuid, confirm: bool): Ledger
    requires id in L.orders && id in L.holds
  {
    var M := L.(items := MoveStock(L.items, L.orders[id].lines, confirm));
    if confirm then SetOrder(SetHold(M, id, HoldConfirmed), id, OrderConfirmed)
    else SetOrder(SetHold(M, id, HoldExpired), id, OrderExpired)
  }

  /** `release` leaves a hold that is no longer active alone. */
  function Release(L: Ledger, id: Uuid): Ledger
    requires id in L.orders && id in L.holds
  {
    if L.holds[id].status.Active? then Settle(L, id, false) else L
  }

  predicate Expires(L: Ledger, id: Uuid, now: Instant)
    requires Linked(L)
  {
    id in L.orders && L.orders[id].status.PaymentPending? && L.holds[id].status.Active? && L.holds[id].expiresAt <= now
  }

  function Expire(L: Ledger, id: Uuid, now: Instant): Ledger
    requires Linked(L)
  {
    if Expires(L, id, now) then Release(L, id) else L
  }

  // ---------- payments ----------

  /** `checkedAt` is the reading compared with the hold, `createdAt` the one stored. */
  datatype StartCall = StartCall(order: Uuid, user: string, key: string, scenario: Scenario, id: Uuid,
                                 checkedAt: Instant, createdAt: Instant)

  datatype StartAnswer = Known(attempt: Uuid) | Started(attempt: Uuid) | Declined(error: Error)

  predicate Whitespace(c: char) { c == ' ' || 9 <= c as int <= 13 || 28 <= c as int <= 31 }

  predicate Blank(s: string) { forall k :: 0 <= k < |s| ==> Whitespace(s[k]) }

  /** `Identity.validate` */
  predicate ValidIdentity(user: string, key: string) {
    !Blank(user) && |user| <= 100 && !Blank(key) && |key| <= 100
  }

  function WithKey(L: Ledger, order: Uuid, key: string): set<Uuid> {
    set a | a in AttemptsOf(L, order) && L.attempts[a].key == key
  }

  predicate Blocked(L: Ledger, order: Uuid) {
    exists a :: a in AttemptsOf(L, order) && !L.attempts[a].status.Failed?
  }

  function DecideStart(L: Ledger, c: StartCall): StartAnswer
    requires Linked(L)
  {
    if !ValidIdentity(c.user, c.key) then Declined(InvalidIdentity)
    else if c.order !in L.orders || L.orders[c.order].user != c.user then Declined(OrderNotFound)
    else if WithKey(L, c.order, c.key) != {} then
      var a := Least(WithKey(L, c.order, c.key));
      if L.attempts[a].scenario != c.scenario then Declined(KeyReused) else Known(a)
    else if Blocked(L, c.order) then Declined(PaymentBlocked)
    else if !L.orders[c.order].status.PaymentPending? || L.holds[c.order].expiresAt <= c.checkedAt then Declined(HoldWindowOver)
    else if c.id in L.attempts then Declined(DuplicateId)
    else Started(c.id)
  }

  function Begin(L: Ledger, c: StartCall): Ledger
    requires c.order in L.orders && c.order in L.holds
  {
    var a := Attempt(c.order, c.key, c.scenario, Created, L.orders[c.order].totalAmount, c.createdAt, c.createdAt, None, None);
    var deadline := Some(c.createdAt + L.config.paymentWindow * SECOND);
    SetOrder(L, c.order, PaymentProcessing).(
      attempts := L.attempts[c.id := a],
      holds := L.holds[c.order := L.holds[c.order].(deadline := deadline)])
  }

  function Start(L: Ledger, c: StartCall): Ledger
    requires Linked(L)
  {
    if DecideStart(L, c).Started? then Begin(L, c) else L
  }

  /** The three clock readings of one result: the terminal time, the base of the next check,
      and the one compared with the hold. */
  datatype ApplyCall = ApplyCall(attempt: Uuid, amount: int, result: Result, terminalAt: Instant, checkFrom: Instant,
                                 heldAt: Instant)

  datatype ApplyAnswer = Applied | Ignored | Conflict(error: Error)

  function StatusOf(r: Result): AttemptStatus {
    match r
    case ResultSucceeded => Succeeded
    case ResultFailed => Failed
    case ResultUnknown => Unknown
  }

  function DecideApply(L: Ledger, c: ApplyCall): ApplyAnswer
    requires Linked(L)
  {
    if c.attempt !in L.attempts then Conflict(PaymentNotFound)
    else
      var a := L.attempts[c.attempt];
      if a.amount != c.amount then Conflict(AmountMismatch)
      else if a.Terminal() then
        if !c.result.ResultUnknown? && a.status != StatusOf(c.result) then Conflict(ResultConflict) else Ignored
      else if c.result.ResultSucceeded? && !L.holds[a.orderId].status.Active? then Conflict(ReleasedStock)
      else Applied
  }

  function Resolve(a: Attempt, c: ApplyCall): Attempt {
    a.(status := StatusOf(c.result),
       terminalAt := if c.result.ResultUnknown? then a.terminalAt else Some(c.terminalAt),
       leaseUntil := None,
       nextCheckAt := c.checkFrom + SECOND)
  }

  function Record(L: Ledger, c: ApplyCall): Ledger
    requires c.attempt in L.attempts
  {
    L.(attempts := L.attempts[c.attempt := Resolve(L.attempts[c.attempt], c)])
  }

  function Settled(L: Ledger, c: ApplyCall): Ledger
    requires Linked(L) && c.attempt in L.attempts
  {
    var order := L.attempts[c.attempt].orderId;
    var M := Record(L, c);
    match c.result
    case ResultSucceeded => Settle(M, order, true)
    case ResultFailed =>
      var N := SetOrder(M, order, PaymentPending);
      if N.holds[order].expiresAt <= c.heldAt then Release(N, order) else N
    case ResultUnknown => M
  }

  function Apply(L: Ledger, c: ApplyCall): Ledger
    requires Linked(L)
  {
    if DecideApply(L, c).Applied? then Settled(L, c) else L
  }

  // ---------- the worker's claim ----------

  const LEASE := 10 * SECOND

  function Claimable(L: Ledger, now: Instant): set<Uuid> {
    set a | a in L.attempts && !L.attempts[a].Terminal() && L.attempts[a].nextCheckAt <= now
            && (L.attempts[a].leaseUntil.None? || L.attempts[a].leaseUntil.value <= now)
  }

  function DueRank(L: Ledger): map<Uuid, int> {
    map a | a in L.attempts :: L.attempts[a].nextCheckAt
  }

  /** The claimable attempt first by (next check, id) among those no other transaction has locked. */
  function Claimed(L: Ledger, now: Instant, locked: set<Uuid>): Option<Uuid> {
    var free := Claimable(L, now) - locked;
    if free == {} then None else Some(First(free, DueRank(L)))
  }

  /** `skip locked` may pass over any rows, so a claim may lease any claimable attempt. */
  function Claim(L: Ledger, id: Uuid, now: Instant): Ledger {
    if id in Claimable(L, now) then L.(attempts := L.attempts[id := L.attempts[id].(leaseUntil := Some(now + LEASE))]) else L
  }

  // ---------- a new sale ----------

  datatype ItemInput = ItemInput(price: nat, total: int, perUserLimit: int)
  datatype SaleCall = SaleCall(id: Uuid, opensAt: Instant, items: map<Uuid, ItemInput>)

  const MAX_PRICE := 1_000_000_000
  const MAX_STOCK := 1_000_000

  predicate ValidSale(c: SaleCall) {
    && 1 <= |c.items| <= MAX_ITEMS
    && forall i :: i in c.items ==> 0 < c.items[i].price <= MAX_PRICE && 0 < c.items[i].total <= MAX_STOCK
                                    && 0 < c.items[i].perUserLimit <= MAX_STOCK
  }

  /** The new identifiers are unused; otherwise the primary keys refuse the rows. */
  predicate FreshSale(L: Ledger, c: SaleCall) {
    c.id !in L.sales && c.items.Keys * L.items.Keys == {}
  }

  function NewItems(c: SaleCall): map<Uuid, Item> {
    map i | i in c.items :: Item(c.id, c.items[i].price, c.items[i].perUserLimit, c.items[i].total, c.items[i].total, 0, 0)
  }

  function CreateSale(L: Ledger, c: SaleCall): Ledger {
    if FreshSale(L, c) then L.(sales := L.sales[c.id := Sale(c.opensAt)], items := L.items + NewItems(c)) else L
  }
}
