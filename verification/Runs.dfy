/** Two written-out runs: one in which a work carries another payment's deadline, one in which the
    provider's answer changes. */
module Runs {
  import opened Collections
  import opened Keys
  import opened LedgerSpec
  import opened Invariant
  import opened Effects
  import opened Provider
  import opened Protocol
  import opened Agreement
  import opened RunProperties

  const CONFIG := Config(300, 70)
  const SALE: Uuid := 1
  const ITEM: Uuid := 2
  const ORDER: Uuid := 3
  const FIRST: Uuid := 4
  const SECOND_TRY: Uuid := 5

  /** One item, one unit, one buyer. */
  const NEW_SALE := SaleCall(SALE, 0, map[ITEM := ItemInput(100, 1, 1)])
  const BASKET := PurchaseRequest(SALE, [RequestItem(ITEM, 1)])
  const PURCHASE := PurchaseCall(ORDER, "u", "k", BASKET, 0, {}, None, 0, 0)

  function PayFirst(scenario: Scenario): StartCall { StartCall(ORDER, "u", "p", scenario, FIRST, 0, 0) }

  function HalfRead(scenario: Scenario): Half { Half(FIRST, ORDER, 100, scenario) }

  /** The first work, read without anything in between: it has 70 seconds. */
  function FirstWork(scenario: Scenario): Work { Work(FIRST, ORDER, 100, scenario, Some(70 * SECOND)) }

  lemma TwoMore(config: Config, es: seq<Event>, a: Event, b: Event)
    ensures Reached(config, es + [a, b]) == Exec(Exec(Reached(config, es), a), b)
  {
    ReachedStep(config, es, a);
    ReachedStep(config, es + [a], b);
    assert es + [a] + [b] == es + [a, b];
  }

  lemma ThreeMore(config: Config, es: seq<Event>, a: Event, b: Event, c: Event)
    ensures Reached(config, es + [a, b, c]) == Exec(Exec(Exec(Reached(config, es), a), b), c)
  {
    TwoMore(config, es, a, b);
    ReachedStep(config, es + [a, b], c);
    assert es + [a, b] + [c] == es + [a, b, c];
  }

  lemma FourMore(config: Config, es: seq<Event>, a: Event, b: Event, c: Event, d: Event)
    ensures Reached(config, es + [a, b, c, d]) == Exec(Exec(Exec(Exec(Reached(config, es), a), b), c), d)
  {
    TwoMore(config, es, a, b);
    TwoMore(config, es + [a, b], c, d);
    assert es + [a, b] + [c, d] == es + [a, b, c, d];
  }

  // ---------- the purchase ----------

  ghost function Shop(): System { Exec(Initial(CONFIG), NewSale(NEW_SALE)) }

  lemma ShopOpens()
    ensures Shop() == Initial(CONFIG).(ledger := Shop().ledger)
    ensures Shop().ledger == Initial(CONFIG).ledger.(sales := map[SALE := Sale(0)], items := map[ITEM := Item(SALE, 100, 1, 1, 1, 0, 0)])
  {
    assert ValidSale(NEW_SALE);
    assert FreshSale(Initial(CONFIG).ledger, NEW_SALE);
    assert NewItems(NEW_SALE) == map[ITEM := Item(SALE, 100, 1, 1, 1, 0, 0)];
  }

  lemma BasketWanted()
    ensures Wants(PURCHASE) == map[ITEM := 1]
  {
    assert BASKET.items[..0] == [];
    assert Wanted([]) == map[];
  }

  /** The ledger with the sale and nothing else. */
  ghost predicate Stocked(L: Ledger) {
    L == Ledger(CONFIG, map[SALE := Sale(0)], map[ITEM := Item(SALE, 100, 1, 1, 1, 0, 0)], map[], map[], map[])
  }

  lemma PurchasePlaced(L: Ledger)
    requires Stocked(L)
    ensures DecidePurchase(L, PURCHASE) == Placed(ORDER)
  {
    BasketWanted();
    SumOfAbsent(UsedBy("u"), L.orders, ITEM);
    assert Admissible(L, PURCHASE, ITEM);
    PlacedExactlyWhen(L, PURCHASE);
  }

  /** A pending order worth 100 with 300 seconds to pay, and nothing else under way. */
  ghost predicate Ready(s: System) {
    && s.receipts == map[] && s.halves == {} && s.works == {} && s.sent == {}
    && s.ledger.config == CONFIG && s.ledger.attempts == map[]
    && ORDER in s.ledger.orders && s.ledger.orders[ORDER].user == "u" && s.ledger.orders[ORDER].totalAmount == 100
    && s.ledger.orders[ORDER].status.PaymentPending?
    && ORDER in s.ledger.holds && s.ledger.holds[ORDER] == Hold(Active, 300 * SECOND, None)
  }

  function BuyingRun(): seq<Event> { [] + [NewSale(NEW_SALE), Buy(PURCHASE)] }

  lemma BuyingMakesReady(s: System)
    requires Linked(s.ledger) && Stocked(s.ledger)
    requires s.receipts == map[] && s.halves == {} && s.works == {} && s.sent == {}
    ensures Ready(Exec(s, Buy(PURCHASE)))
  {
    PurchasePlaced(s.ledger);
    assert Validated(BASKET);
    AllOrNothing(s.ledger, PURCHASE);
    BasketWorth(s.ledger.items);
    PlacedAtZero(s.ledger);
    assert Exec(s, Buy(PURCHASE)) == s.(ledger := Purchase(s.ledger, PURCHASE));
  }

  lemma PlacedAtZero(L: Ledger)
    requires DecidePurchase(L, PURCHASE).Placed?
    ensures ORDER in Purchase(L, PURCHASE).orders ==> Purchase(L, PURCHASE).orders[ORDER].createdAt == 0
  {
    PlacedExactlyWhen(L, PURCHASE);
  }

  lemma Bought()
    ensures Ready(Reached(CONFIG, BuyingRun()))
  {
    TwoMore(CONFIG, [], NewSale(NEW_SALE), Buy(PURCHASE));
    ShopOpens();
    BuyingMakesReady(Shop());
  }

  lemma BasketWorth(items: map<Uuid, Item>)
    requires ITEM in items && items[ITEM].price == 100
    ensures BasketPrice(items, BASKET.items) == 100
  {
    assert BASKET.items[..0] == [];
  }

  // ---------- the first payment ----------

  /** Attempts of one order, all failed or none, may be followed by this start. */
  lemma StartsHere(L: Ledger, c: StartCall)
    requires Linked(L) && c.order == ORDER && c.user == "u" && (c.key == "p" || c.key == "q") && c.id !in L.attempts
    requires ORDER in L.orders && L.orders[ORDER].user == "u" && L.orders[ORDER].status.PaymentPending?
    requires ORDER in L.holds && c.checkedAt < L.holds[ORDER].expiresAt
    requires forall a :: a in L.attempts ==> L.attempts[a].status.Failed? && L.attempts[a].key != c.key
    ensures DecideStart(L, c) == Started(c.id)
  {
    assert !Whitespace(c.user[0]) && !Whitespace(c.key[0]);
    assert WithKey(L, c.order, c.key) == {};
  }

  /** The first attempt has been read by a worker and its work is under way. */
  ghost predicate UnderWay(s: System, scenario: Scenario) {
    && s.receipts == map[] && s.halves == {HalfRead(scenario)} && s.works == {FirstWork(scenario)} && s.sent == {}
    && s.ledger.config == CONFIG && s.ledger.attempts == map[FIRST := FirstAttempt(scenario)]
    && ORDER in s.ledger.orders && s.ledger.orders[ORDER].user == "u" && s.ledger.orders[ORDER].totalAmount == 100
    && s.ledger.orders[ORDER].status.PaymentProcessing?
    && ORDER in s.ledger.holds && s.ledger.holds[ORDER] == Hold(Active, 300 * SECOND, Some(70 * SECOND))
  }

  function FirstAttempt(scenario: Scenario): Attempt {
    Attempt(ORDER, "p", scenario, Created, 100, 0, 0, None, None)
  }

  function ReadingRun(scenario: Scenario): seq<Event> {
    BuyingRun() + [Pay(PayFirst(scenario)), ReadAttempt(FIRST), ReadHold(HalfRead(scenario))]
  }

  lemma PaidAndRead(s: System, scenario: Scenario)
    requires Linked(s.ledger) && Ready(s)
    ensures UnderWay(Exec(Exec(Exec(s, Pay(PayFirst(scenario))), ReadAttempt(FIRST)), ReadHold(HalfRead(scenario))), scenario)
  {
    StartsHere(s.ledger, PayFirst(scenario));
    var t := Exec(s, Pay(PayFirst(scenario)));
    assert t == s.(ledger := Begin(s.ledger, PayFirst(scenario)));
    assert t.ledger.attempts == map[FIRST := FirstAttempt(scenario)];
    var u := Exec(t, ReadAttempt(FIRST));
    assert u == t.(halves := {HalfRead(scenario)});
    assert Exec(u, ReadHold(HalfRead(scenario))) == u.(works := {FirstWork(scenario)});
  }

  lemma Reading(scenario: Scenario)
    ensures UnderWay(Reached(CONFIG, ReadingRun(scenario)), scenario)
  {
    Bought();
    ThreeMore(CONFIG, BuyingRun(), Pay(PayFirst(scenario)), ReadAttempt(FIRST), ReadHold(HalfRead(scenario)));
    PaidAndRead(Reached(CONFIG, BuyingRun()), scenario);
  }

  // ---------- an answer that changes ----------

  /** A delayed success is answered unknown at first and succeeded three seconds later. */
  lemma AnswerChanges()
    ensures var w := FirstWork(DelayedSuccess);
            var before, after := Reached(CONFIG, ReadingRun(DelayedSuccess)), Reached(CONFIG, ReadingRun(DelayedSuccess) + [Submit(w, 1)]);
            && w in before.works
            && Reply(before.receipts, w, 1) == Answered(ResultUnknown, false)
            && Reply(after.receipts, w, 1 + 3 * SECOND) == Answered(ResultSucceeded, false)
  {
    Reading(DelayedSuccess);
    ReachedStep(CONFIG, ReadingRun(DelayedSuccess), Submit(FirstWork(DelayedSuccess), 1));
    Delayed(Reached(CONFIG, ReadingRun(DelayedSuccess)));
  }

  lemma Delayed(s: System)
    requires Linked(s.ledger) && UnderWay(s, DelayedSuccess)
    ensures var w := FirstWork(DelayedSuccess);
            && Reply(s.receipts, w, 1) == Answered(ResultUnknown, false)
            && Reply(Exec(s, Submit(w, 1)).receipts, w, 1 + 3 * SECOND) == Answered(ResultSucceeded, false)
  {
  }

  // ---------- a work with another payment's deadline ----------

  const FAILED_CALL := ApplyCall(FIRST, 100, ResultFailed, 1, 1, 1)
  const RETRY := StartCall(ORDER, "u", "q", Success, SECOND_TRY, 2, 2)

  /** A second worker holds the first half of a read while the payment fails and is retried. */
  function RetryRun(): seq<Event> {
    ReadingRun(Failure) + [Submit(FirstWork(Failure), 1), Deliver(FAILED_CALL), Pay(RETRY), ReadHold(HalfRead(Failure))]
  }

  function StaleWork(): Work { FirstWork(Failure).(deadline := Some(2 + 70 * SECOND)) }

  /** The failed payment leaves a payable order. */
  ghost predicate Retriable(s: System) {
    && s.halves == {HalfRead(Failure)} && FIRST in s.receipts
    && s.ledger.config == CONFIG && s.ledger.attempts.Keys == {FIRST}
    && s.ledger.attempts[FIRST].status.Failed? && s.ledger.attempts[FIRST].key == "p" && s.ledger.attempts[FIRST].createdAt == 0
    && ORDER in s.ledger.orders && s.ledger.orders[ORDER].user == "u" && s.ledger.orders[ORDER].status.PaymentPending?
    && ORDER in s.ledger.holds && s.ledger.holds[ORDER].expiresAt == 300 * SECOND
  }

  lemma FailsFirst(s: System)
    requires Inv(s) && UnderWay(s, Failure)
    ensures Retriable(Exec(Exec(s, Submit(FirstWork(Failure), 1)), Deliver(FAILED_CALL)))
  {
    var w := FirstWork(Failure);
    assert Reply(s.receipts, w, 1) == Answered(ResultFailed, false);
    var t := Exec(s, Submit(w, 1));
    assert t == s.(receipts := Accept(s.receipts, w, 1), sent := {Message(FIRST, 100, ResultFailed)});
    var m := Message(FIRST, 100, ResultFailed);
    assert m in t.sent && m.id == FAILED_CALL.attempt && m.result == FAILED_CALL.result;
    assert DecideApply(t.ledger, FAILED_CALL).Applied?;
    FailureOutcome(t.ledger, FAILED_CALL);
    assert Exec(t, Deliver(FAILED_CALL)) == t.(ledger := Apply(t.ledger, FAILED_CALL));
    FailedKeys(t.ledger);
  }

  lemma FailedKeys(L: Ledger)
    requires Linked(L) && FIRST in L.attempts
    ensures Apply(L, FAILED_CALL).attempts.Keys == L.attempts.Keys && Apply(L, FAILED_CALL).config == L.config
    ensures Apply(L, FAILED_CALL).attempts[FIRST].key == L.attempts[FIRST].key
    ensures Apply(L, FAILED_CALL).attempts[FIRST].createdAt == L.attempts[FIRST].createdAt
  {
  }

  lemma Retried(s: System)
    requires Linked(s.ledger) && Retriable(s)
    ensures var t := Exec(Exec(s, Pay(RETRY)), ReadHold(HalfRead(Failure)));
            && StaleWork() in t.works && FIRST in t.ledger.attempts && t.ledger.attempts[FIRST].createdAt == 0
            && t.ledger.config == CONFIG
  {
    StartsHere(s.ledger, RETRY);
    var t := Exec(s, Pay(RETRY));
    assert t == s.(ledger := Begin(s.ledger, RETRY));
    assert Exec(t, ReadHold(HalfRead(Failure))) == t.(works := t.works + {StaleWork()});
  }

  /** In this run a work for the first attempt carries the deadline of the second. */
  lemma ForeignDeadlineArises()
    ensures var s := Reached(CONFIG, RetryRun());
            && StaleWork() in s.works && StaleWork().id == FIRST && FIRST in s.ledger.attempts
            && StaleWork().deadline != Some(Window(CONFIG, s.ledger.attempts[FIRST]))
  {
    Reading(Failure);
    var s := Reached(CONFIG, ReadingRun(Failure));
    ReachedInv(CONFIG, ReadingRun(Failure));
    FourMore(CONFIG, ReadingRun(Failure), Submit(FirstWork(Failure), 1), Deliver(FAILED_CALL), Pay(RETRY), ReadHold(HalfRead(Failure)));
    FailsFirst(s);
    Retried(Exec(Exec(s, Submit(FirstWork(Failure), 1)), Deliver(FAILED_CALL)));
  }
}
