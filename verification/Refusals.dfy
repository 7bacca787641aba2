/** Every answer of the write transactions, said on the rows and the request: when exactly each is
    given, the order of the checks included. */
module Refusals {
  import opened Collections
  import opened Keys
  import opened LedgerSpec
  import opened Invariant
  import opened Protocol
  import opened RunProperties

  // ---------- purchase: what the request meets ----------

  ghost predicate Repeats(c: PurchaseCall) {
    exists j, k :: 0 <= j < k < |c.request.items| && c.request.items[j].id == c.request.items[k].id
  }

  ghost predicate KeyTaken(L: Ledger, c: PurchaseCall, id: Uuid) {
    id in L.orders && L.orders[id].user == c.user && L.orders[id].key == c.key
  }

  /** The order with the key of the request. */
  ghost predicate KeyUsed(L: Ledger, c: PurchaseCall) {
    exists id: Uuid :: KeyTaken(L, c, id)
  }

  /** No repeated item, no order with the key, and an open sale. */
  ghost predicate SaleOpen(L: Ledger, c: PurchaseCall) {
    && !Repeats(c) && !KeyUsed(L, c)
    && c.request.saleId in L.sales && L.sales[c.request.saleId].opensAt <= c.now
  }

  ghost predicate RememberedEmpty(c: PurchaseCall) {
    exists k :: 0 <= k < |c.request.items| && c.request.items[k].id in c.cached
  }

  ghost predicate TicketOver(c: PurchaseCall) {
    c.admission.Some? && c.admission.value <= c.millis
  }

  ghost predicate OfSale(L: Ledger, c: PurchaseCall, x: RequestItem) {
    x.id in L.items && L.items[x.id].saleId == c.request.saleId
  }

  ghost predicate AllOfSale(L: Ledger, c: PurchaseCall) {
    forall x :: x in c.request.items ==> OfSale(L, c, x)
  }

  /** The request reaches the check of the single items. */
  ghost predicate Checked(L: Ledger, c: PurchaseCall) {
    SaleOpen(L, c) && !RememberedEmpty(c) && !TicketOver(c) && AllOfSale(L, c)
  }

  ghost predicate Short(L: Ledger, x: RequestItem) {
    x.id in L.items && L.items[x.id].available < x.quantity
  }

  ghost predicate OverLimit(L: Ledger, user: string, x: RequestItem) {
    x.id in L.items && Sum(UsedBy(user), L.orders, x.id) + x.quantity > L.items[x.id].perUserLimit
  }

  /** Every listed item with a smaller id is in stock and within the limit. */
  ghost predicate SmallerFit(L: Ledger, c: PurchaseCall, x: RequestItem) {
    forall y :: y in c.request.items && y.id < x.id ==> !Short(L, y) && !OverLimit(L, c.user, y)
  }

  ghost predicate ShortFirst(L: Ledger, c: PurchaseCall) {
    exists x :: x in c.request.items && Short(L, x) && SmallerFit(L, c, x)
  }

  ghost predicate LimitFirst(L: Ledger, c: PurchaseCall) {
    exists x :: x in c.request.items && !Short(L, x) && OverLimit(L, c.user, x) && SmallerFit(L, c, x)
  }

  ghost predicate AllFit(L: Ledger, c: PurchaseCall) {
    forall x :: x in c.request.items ==> !Short(L, x) && !OverLimit(L, c.user, x)
  }

  // ---------- the check loop ----------

  ghost predicate FitsUpTo(L: Ledger, user: string, wants: map<Uuid, nat>, rows: seq<Uuid>, k: nat)
    requires k <= |rows| && forall i :: i in rows ==> i in L.items && i in wants
  {
    forall j :: 0 <= j < k ==> !Short(L, RequestItem(rows[j], wants[rows[j]])) && !OverLimit(L, user, RequestItem(rows[j], wants[rows[j]]))
  }

  /** The loop stops at the first row that does not fit; too little stock comes before the limit. */
  lemma {:induction false} LoopStops(L: Ledger, user: string, wants: map<Uuid, nat>, rows: seq<Uuid>) returns (k: nat)
    requires forall i :: i in rows ==> i in L.items && i in wants
    ensures k <= |rows| && FitsUpTo(L, user, wants, rows, k)
    ensures k == |rows| ==> FirstProblem(L, user, wants, rows).None?
    ensures k < |rows| ==>
      var x := RequestItem(rows[k], wants[rows[k]]);
      && (Short(L, x) || OverLimit(L, user, x))
      && FirstProblem(L, user, wants, rows) == Some(if Short(L, x) then TemporarilyUnavailable else UserLimitExceeded)
  {
    if rows == [] { return 0; }
    var x := RequestItem(rows[0], wants[rows[0]]);
    if Short(L, x) || OverLimit(L, user, x) { return 0; }
    var rest := LoopStops(L, user, wants, rows[1..]);
    k := rest + 1;
    forall j | 0 <= j < k
      ensures !Short(L, RequestItem(rows[j], wants[rows[j]])) && !OverLimit(L, user, RequestItem(rows[j], wants[rows[j]]))
    {
      if j > 0 { assert rows[j] == rows[1..][j - 1]; }
    }
  }

  /** The rows the loop visits are the listed items, in the order of their ids. */
  lemma RowOf(c: PurchaseCall, x: RequestItem)
    requires Distinct(c.request.items)
    ensures x in c.request.items <==> x.id in ById(Wants(c).Keys) && x == RequestItem(x.id, Wants(c)[x.id])
  {
    WantedMembers(c.request.items, x);
  }

  lemma LoopAnswer(L: Ledger, c: PurchaseCall)
    requires Distinct(c.request.items) && InOneSale(L, c.request.saleId, Wants(c))
    ensures var problem := FirstProblem(L, c.user, Wants(c), ById(Wants(c).Keys));
            && (problem == Some(TemporarilyUnavailable) <==> ShortFirst(L, c))
            && (problem == Some(UserLimitExceeded) <==> LimitFirst(L, c))
            && (problem == None <==> AllFit(L, c))
            && (problem == None || problem == Some(TemporarilyUnavailable) || problem == Some(UserLimitExceeded))
  {
    var rows := ById(Wants(c).Keys);
    var k := LoopStops(L, c.user, Wants(c), rows);
    if k == |rows| {
      EverythingFits(L, c, rows);
    } else {
      StopsAt(L, c, rows, k, RequestItem(rows[k], Wants(c)[rows[k]]));
    }
  }

  lemma EverythingFits(L: Ledger, c: PurchaseCall, rows: seq<Uuid>)
    requires Distinct(c.request.items) && rows == ById(Wants(c).Keys)
    requires forall i :: i in rows ==> i in L.items && i in Wants(c)
    requires FitsUpTo(L, c.user, Wants(c), rows, |rows|)
    ensures AllFit(L, c) && !ShortFirst(L, c) && !LimitFirst(L, c)
  {
    forall x | x in c.request.items ensures !Short(L, x) && !OverLimit(L, c.user, x) { FitsBefore(L, c, rows, |rows|, x); }
  }

  lemma StopsAt(L: Ledger, c: PurchaseCall, rows: seq<Uuid>, k: nat, stop: RequestItem)
    requires Distinct(c.request.items) && rows == ById(Wants(c).Keys) && k < |rows|
    requires forall i :: i in rows ==> i in L.items && i in Wants(c)
    requires FitsUpTo(L, c.user, Wants(c), rows, k) && stop == RequestItem(rows[k], Wants(c)[rows[k]])
    requires Short(L, stop) || OverLimit(L, c.user, stop)
    ensures !AllFit(L, c) && (ShortFirst(L, c) <==> Short(L, stop)) && (LimitFirst(L, c) <==> !Short(L, stop))
  {
    assert rows[k] in rows;
    RowOf(c, stop);
    forall y | y in c.request.items && y.id < stop.id ensures !Short(L, y) && !OverLimit(L, c.user, y) { FitsBefore(L, c, rows, k, y); }
    OnlyOne(L, c, rows, k, stop);
  }

  lemma OnlyOne(L: Ledger, c: PurchaseCall, rows: seq<Uuid>, k: nat, stop: RequestItem)
    requires Distinct(c.request.items) && rows == ById(Wants(c).Keys) && k < |rows|
    requires forall i :: i in rows ==> i in L.items && i in Wants(c)
    requires FitsUpTo(L, c.user, Wants(c), rows, k) && stop == RequestItem(rows[k], Wants(c)[rows[k]])
    requires stop in c.request.items && SmallerFit(L, c, stop) && (Short(L, stop) || OverLimit(L, c.user, stop))
    ensures (ShortFirst(L, c) <==> Short(L, stop)) && (LimitFirst(L, c) <==> !Short(L, stop))
  {
    forall x | x in c.request.items && (Short(L, x) || OverLimit(L, c.user, x)) && SmallerFit(L, c, x) ensures x == stop {
      OnlyStop(L, c, rows, k, x);
    }
  }

  lemma FitsBefore(L: Ledger, c: PurchaseCall, rows: seq<Uuid>, k: nat, x: RequestItem)
    requires Distinct(c.request.items) && rows == ById(Wants(c).Keys) && k <= |rows|
    requires forall i :: i in rows ==> i in L.items && i in Wants(c)
    requires FitsUpTo(L, c.user, Wants(c), rows, k)
    requires x in c.request.items && (k < |rows| ==> x.id < rows[k])
    ensures !Short(L, x) && !OverLimit(L, c.user, x)
  {
    RowOf(c, x);
    var j :| 0 <= j < |rows| && rows[j] == x.id;
  }

  lemma OnlyStop(L: Ledger, c: PurchaseCall, rows: seq<Uuid>, k: nat, x: RequestItem)
    requires Distinct(c.request.items) && rows == ById(Wants(c).Keys) && k < |rows|
    requires forall i :: i in rows ==> i in L.items && i in Wants(c)
    requires FitsUpTo(L, c.user, Wants(c), rows, k)
    requires var stop := RequestItem(rows[k], Wants(c)[rows[k]]); Short(L, stop) || OverLimit(L, c.user, stop)
    requires x in c.request.items && (Short(L, x) || OverLimit(L, c.user, x)) && SmallerFit(L, c, x)
    ensures x == RequestItem(rows[k], Wants(c)[rows[k]])
  {
    var stop := RequestItem(rows[k], Wants(c)[rows[k]]);
    assert rows[k] in rows;
    RowOf(c, stop);
    RowOf(c, x);
    if x.id < stop.id { FitsBefore(L, c, rows, k, x); }
  }

  // ---------- purchase: every answer ----------

  lemma TableMeets(L: Ledger, c: PurchaseCall)
    requires Distinct(c.request.items)
    ensures Wants(c).Keys * c.cached != {} <==> RememberedEmpty(c)
    ensures InOneSale(L, c.request.saleId, Wants(c)) <==> AllOfSale(L, c)
  {
    if RememberedEmpty(c) {
      var k :| 0 <= k < |c.request.items| && c.request.items[k].id in c.cached;
      assert c.request.items[k].id in Wants(c).Keys * c.cached;
    }
    if Wants(c).Keys * c.cached != {} {
      var i :| i in Wants(c).Keys * c.cached;
      assert i in Wants(c);
    }
    if AllOfSale(L, c) {
      forall i | i in Wants(c) ensures i in L.items && L.items[i].saleId == c.request.saleId {
        WantedMembers(c.request.items, RequestItem(i, Wants(c)[i]));
      }
    }
    if InOneSale(L, c.request.saleId, Wants(c)) {
      forall x | x in c.request.items ensures OfSale(L, c, x) { WantedMembers(c.request.items, x); }
    }
  }

  lemma KeyFree(L: Ledger, c: PurchaseCall)
    ensures ByKey(L.orders, c.user, c.key).Some? <==> KeyUsed(L, c)
  {
    var r := ByKey(L.orders, c.user, c.key);
    assert r.Some? ==> KeyTaken(L, c, r.value);
  }

  /** What is left of the decision once the key is known to be free. */
  function Verdict(noSale: bool, closed: bool, empty: bool, over: bool, ofSale: bool, short: bool, limit: bool,
                   used: bool, id: Uuid): PurchaseAnswer
  {
    if noSale then Refused(SaleNotFound)
    else if closed then Refused(SaleNotOpen)
    else if empty then Refused(TemporarilyUnavailable)
    else if over then Refused(AdmissionExpired)
    else if !ofSale then Refused(InvalidSaleItem)
    else if short then Refused(TemporarilyUnavailable)
    else if limit then Refused(UserLimitExceeded)
    else if used then Refused(DuplicateId)
    else Placed(id)
  }

  lemma Judged(L: Ledger, c: PurchaseCall)
    requires Distinct(c.request.items) && ByKey(L.orders, c.user, c.key).None?
    ensures DecidePurchase(L, c) ==
      Verdict(c.request.saleId !in L.sales, c.request.saleId in L.sales && c.now < L.sales[c.request.saleId].opensAt,
              RememberedEmpty(c), TicketOver(c), AllOfSale(L, c), ShortFirst(L, c), LimitFirst(L, c), c.id in L.orders, c.id)
    ensures AllOfSale(L, c) ==> (AllFit(L, c) <==> !ShortFirst(L, c) && !LimitFirst(L, c)) && !(ShortFirst(L, c) && LimitFirst(L, c))
  {
    TableMeets(L, c);
    if InOneSale(L, c.request.saleId, Wants(c)) { LoopAnswer(L, c); }
  }

  /** The refusals before the single items are looked at. */
  lemma EarlyRefusals(L: Ledger, c: PurchaseCall)
    ensures var answer := DecidePurchase(L, c);
            && (answer == Refused(DuplicateItem) <==> Repeats(c))
            && (answer == Refused(SaleNotFound) <==> !Repeats(c) && !KeyUsed(L, c) && c.request.saleId !in L.sales)
            && (answer == Refused(SaleNotOpen) <==>
                 !Repeats(c) && !KeyUsed(L, c) && c.request.saleId in L.sales && c.now < L.sales[c.request.saleId].opensAt)
            && (answer == Refused(AdmissionExpired) <==> SaleOpen(L, c) && !RememberedEmpty(c) && TicketOver(c))
            && (answer == Refused(InvalidSaleItem) <==>
                 SaleOpen(L, c) && !RememberedEmpty(c) && !TicketOver(c) && !AllOfSale(L, c))
  {
    KeyFree(L, c);
    if Distinct(c.request.items) && ByKey(L.orders, c.user, c.key).None? { Judged(L, c); }
  }

  /** The refusals of the single items: too little stock or over the limit, whichever the smallest
      item that does not fit meets first. */
  lemma ItemRefusals(L: Ledger, c: PurchaseCall)
    ensures var answer := DecidePurchase(L, c);
            && (answer == Refused(TemporarilyUnavailable) <==>
                 (SaleOpen(L, c) && RememberedEmpty(c)) || (Checked(L, c) && ShortFirst(L, c)))
            && (answer == Refused(UserLimitExceeded) <==> Checked(L, c) && LimitFirst(L, c))
            && (answer == Refused(DuplicateId) <==> Checked(L, c) && AllFit(L, c) && c.id in L.orders)
            && (answer == Placed(c.id) <==> Checked(L, c) && AllFit(L, c) && c.id !in L.orders)
  {
    KeyFree(L, c);
    if Distinct(c.request.items) && ByKey(L.orders, c.user, c.key).None? { Judged(L, c); }
  }

  /** The answers to a key that is taken, in any valid ledger; and no other answer is ever given. */
  lemma KeyAnswers(L: Ledger, c: PurchaseCall)
    requires KeysOk(L.orders)
    ensures var answer := DecidePurchase(L, c);
            && (forall id: Uuid :: answer == Replayed(id) <==>
                 !Repeats(c) && KeyTaken(L, c, id) && L.orders[id].fingerprint == Fingerprint(c.request))
            && (answer == Refused(KeyReused) <==>
                 !Repeats(c) && exists id: Uuid :: KeyTaken(L, c, id) && L.orders[id].fingerprint != Fingerprint(c.request))
            && (answer.Placed? ==> answer.order == c.id)
            && (answer.Refused? ==> answer.error in {DuplicateItem, KeyReused, SaleNotFound, SaleNotOpen, TemporarilyUnavailable,
                                                     AdmissionExpired, InvalidSaleItem, UserLimitExceeded, DuplicateId})
  {
    KeyFree(L, c);
    forall id: Uuid | KeyTaken(L, c, id) ensures ByKey(L.orders, c.user, c.key) == Some(id) { ByKeyFinds(L, id, c.user, c.key); }
    if Distinct(c.request.items) && ByKey(L.orders, c.user, c.key).None? { Judged(L, c); }
  }

  // ---------- the identity ----------

  /** A text of 1 to 100 characters with one that is not white space. */
  ghost predicate Named(s: string) {
    |s| <= 100 && exists k :: 0 <= k < |s| && s[k] as int !in {9, 10, 11, 12, 13, 28, 29, 30, 31, 32}
  }

  lemma IdentityRule(user: string, key: string)
    ensures ValidIdentity(user, key) <==> Named(user) && Named(key)
  {
    NotBlank(user);
    NotBlank(key);
  }

  lemma NotBlank(s: string)
    ensures !Blank(s) <==> exists k :: 0 <= k < |s| && s[k] as int !in {9, 10, 11, 12, 13, 28, 29, 30, 31, 32}
  {
    assert forall k :: 0 <= k < |s| ==> (Whitespace(s[k]) <==> s[k] as int in {9, 10, 11, 12, 13, 28, 29, 30, 31, 32});
  }

  // ---------- start ----------

  /** The order exists and is the caller's. */
  ghost predicate Owns(L: Ledger, c: StartCall) {
    c.order in L.orders && L.orders[c.order].user == c.user
  }

  ghost predicate Keyed(L: Ledger, c: StartCall, a: Uuid) {
    a in L.attempts && L.attempts[a].orderId == c.order && L.attempts[a].key == c.key
  }

  ghost predicate LiveAttempt(L: Ledger, c: StartCall, a: Uuid) {
    a in L.attempts && L.attempts[a].orderId == c.order && !L.attempts[a].status.Failed?
  }

  /** No payment with the key and none that has not failed. */
  ghost predicate FreeToPay(L: Ledger, c: StartCall) {
    Owns(L, c) && forall a :: !Keyed(L, c, a) && !LiveAttempt(L, c, a)
  }

  /** The order is no longer pending, or its hold seconds are over. */
  ghost predicate WindowOver(L: Ledger, c: StartCall) {
    c.order in L.orders
    && (!L.orders[c.order].status.PaymentPending? || L.orders[c.order].createdAt + L.config.holdSeconds * 1_000_000 <= c.checkedAt)
  }

  lemma StartMeets(L: Ledger, c: StartCall)
    requires Valid(L) && Linked(L) && c.order in L.orders
    ensures WithKey(L, c.order, c.key) == {} <==> forall a :: !Keyed(L, c, a)
    ensures forall a :: Keyed(L, c, a) ==> WithKey(L, c.order, c.key) != {} && Least(WithKey(L, c.order, c.key)) == a
    ensures Blocked(L, c.order) <==> exists a :: LiveAttempt(L, c, a)
    ensures L.holds[c.order].expiresAt == L.orders[c.order].createdAt + L.config.holdSeconds * 1_000_000
  {
    forall a | Keyed(L, c, a) ensures a in WithKey(L, c.order, c.key) && Least(WithKey(L, c.order, c.key)) == a {
      assert a in AttemptsOf(L, c.order);
      KeyedAttempt(L, c.order, c.key, a);
    }
    if WithKey(L, c.order, c.key) != {} {
      var a :| a in WithKey(L, c.order, c.key);
      assert Keyed(L, c, a);
    }
    forall a | LiveAttempt(L, c, a) ensures a in AttemptsOf(L, c.order) {}
    if Blocked(L, c.order) {
      var a :| a in AttemptsOf(L, c.order) && !L.attempts[a].status.Failed?;
      assert LiveAttempt(L, c, a);
    }
    assert HoldRow(L.config, L.orders[c.order], L.holds[c.order]);
  }

  /** Every answer to a payment start. Ownership comes first: only the owner learns anything. */
  lemma StartAnswers(L: Ledger, c: StartCall)
    requires Valid(L) && Linked(L)
    ensures var answer := DecideStart(L, c);
            && (answer == Declined(InvalidIdentity) <==> !(Named(c.user) && Named(c.key)))
            && (Named(c.user) && Named(c.key) ==>
              && (answer == Declined(OrderNotFound) <==> !Owns(L, c))
              && (answer == Declined(KeyReused) <==> Owns(L, c) && exists a :: Keyed(L, c, a) && L.attempts[a].scenario != c.scenario)
              && (forall a :: answer == Known(a) <==> Owns(L, c) && Keyed(L, c, a) && L.attempts[a].scenario == c.scenario)
              && (answer == Declined(PaymentBlocked) <==>
                   Owns(L, c) && (forall a :: !Keyed(L, c, a)) && exists a :: LiveAttempt(L, c, a))
              && (answer == Declined(HoldWindowOver) <==> FreeToPay(L, c) && WindowOver(L, c))
              && (answer == Declined(DuplicateId) <==> FreeToPay(L, c) && !WindowOver(L, c) && c.id in L.attempts)
              && (answer == Started(c.id) <==> FreeToPay(L, c) && !WindowOver(L, c) && c.id !in L.attempts))
  {
    IdentityRule(c.user, c.key);
    if c.order in L.orders { StartMeets(L, c); }
  }

  /** In every reachable state a payment is shown only to the owner of its order. */
  lemma KnownOnlyToOwner(config: Config, es: seq<Event>, c: StartCall, a: Uuid)
    requires DecideStart(Reached(config, es).ledger, c) == Known(a)
    ensures var L := Reached(config, es).ledger;
            && a in L.attempts && L.attempts[a].orderId == c.order
            && c.order in L.orders && L.orders[c.order].user == c.user
            && L.attempts[a].key == c.key && L.attempts[a].scenario == c.scenario
  {
    ReachedInv(config, es);
    StartAnswers(Reached(config, es).ledger, c);
    assert Named(c.user) && Named(c.key);
  }

  // ---------- apply ----------

  /** A final attempt is told the other final result. */
  ghost predicate Contradicts(a: Attempt, r: Result) {
    (a.status.Succeeded? && r.ResultFailed?) || (a.status.Failed? && r.ResultSucceeded?)
  }

  /** Every answer to a reported result: an open payment takes any result with its amount. */
  lemma ApplyAnswers(L: Ledger, c: ApplyCall)
    requires Valid(L) && Linked(L)
    ensures var answer, known := DecideApply(L, c), c.attempt in L.attempts;
            && (answer == Conflict(PaymentNotFound) <==> !known)
            && (answer == Conflict(AmountMismatch) <==> known && L.attempts[c.attempt].amount != c.amount)
            && (answer == Conflict(ResultConflict) <==>
                 known && L.attempts[c.attempt].amount == c.amount && Contradicts(L.attempts[c.attempt], c.result))
            && (answer == Ignored <==>
                 known && L.attempts[c.attempt].amount == c.amount
                 && (L.attempts[c.attempt].status.Succeeded? || L.attempts[c.attempt].status.Failed?)
                 && !Contradicts(L.attempts[c.attempt], c.result))
            && (answer == Applied <==>
                 known && L.attempts[c.attempt].amount == c.amount
                 && !L.attempts[c.attempt].status.Succeeded? && !L.attempts[c.attempt].status.Failed?)
  {
    if c.attempt in L.attempts && !L.attempts[c.attempt].Terminal() { OpenAttempt(L, c.attempt); }
  }

  /** The attempt row after a result that was applied; no other attempt changes. */
  lemma AppliedRow(L: Ledger, c: ApplyCall)
    requires Valid(L) && Linked(L) && DecideApply(L, c) == Applied
    ensures var M, was := Apply(L, c), L.attempts[c.attempt];
            && M.attempts.Keys == L.attempts.Keys
            && (forall b :: b in L.attempts && b != c.attempt ==> M.attempts[b] == L.attempts[b])
            && M.attempts[c.attempt] == was.(
                 status := match c.result case ResultSucceeded => Succeeded case ResultFailed => Failed case ResultUnknown => Unknown,
                 terminalAt := if c.result.ResultUnknown? then None else Some(c.terminalAt),
                 leaseUntil := None, nextCheckAt := c.checkFrom + 1_000_000)
  {
    OpenAttempt(L, c.attempt);
    assert AttemptRow(L.config, L.orders, L.holds, L.attempts[c.attempt]);
  }

  // ---------- expiry ----------

  /** In every reachable state a sweep releases an order exactly when it is pending and its hold
      seconds are over by the sweep's reading; a sweep is always possible. */
  lemma SweptExactlyWhen(config: Config, es: seq<Event>, id: Uuid, now: Instant)
    requires id in Reached(config, es).ledger.orders
    ensures var o := Reached(config, es).ledger.orders[id];
            var M := Exec(Reached(config, es), Sweep(id, now)).ledger;
            && M.orders.Keys == Reached(config, es).ledger.orders.Keys
            && M.orders[id] == (if o.status.PaymentPending? && o.createdAt + config.holdSeconds * 1_000_000 <= now
                                then o.(status := OrderExpired) else o)
  {
    ReachedInv(config, es);
    ConfigKept(config, es);
    var L := Reached(config, es).ledger;
    assert HoldRow(L.config, L.orders[id], L.holds[id]);
  }

  // ---------- claim ----------

  /** In every reachable state a claim of an attempt succeeds exactly when the attempt is open, its next
      check is due and its lease is over, and then leases it for ten seconds; a claim is always possible. */
  lemma LeasedExactlyWhen(config: Config, es: seq<Event>, a: Uuid, now: Instant)
    requires a in Reached(config, es).ledger.attempts
    ensures var was, s := Reached(config, es).ledger.attempts[a], Exec(Reached(config, es), Lease(a, now));
            && s.ledger == Reached(config, es).ledger.(attempts := s.ledger.attempts)
            && s.ledger.attempts == Reached(config, es).ledger.attempts[a := s.ledger.attempts[a]]
            && s.ledger.attempts[a] ==
                 if !was.status.Succeeded? && !was.status.Failed? && was.nextCheckAt <= now
                    && (was.leaseUntil.None? || was.leaseUntil.value <= now)
                 then was.(leaseUntil := Some(now + 10_000_000)) else was
  {
    var L := Reached(config, es).ledger;
    assert L.attempts == L.attempts[a := L.attempts[a]];
  }

  /** Nothing but the request validation restrains sellers, buyers, payers, sweeps, claims and unknown
      results: such an event is possible in any state. */
  lemma AlwaysPossible(s: System, e: Event)
    requires Linked(s.ledger) && (e.NewSale? || e.Buy? || e.Pay? || e.Sweep? || e.Lease? || e.Deliver?)
    requires e.NewSale? ==> ValidSale(e.sale)
    requires e.Buy? ==> Validated(e.purchase.request)
    requires e.Deliver? ==> e.call.result.ResultUnknown?
    ensures Enabled(s, e) && Exec(s, e) == s.(ledger := LedgerStep(s.ledger, e))
  {
  }

  // ---------- views ----------

  /** A view shows the order's own row, its hold and exactly its own attempts. */
  lemma ViewShows(L: Ledger, id: Uuid)
    requires id in L.orders && id in L.holds
    ensures var v, o := View(L, id), L.orders[id];
            && v.id == id && v.status == o.status && v.totalAmount == o.totalAmount && v.lines == o.lines
            && v.holdExpiresAt == L.holds[id].expiresAt
            && (forall a :: a in v.payments <==> a in L.attempts && L.attempts[a].orderId == id)
            && forall a :: a in v.payments ==>
                 v.payments[a].status == L.attempts[a].status && v.payments[a].scenario == L.attempts[a].scenario
  {
  }

  // ---------- a new sale ----------

  /** The limits of a new sale. */
  lemma SaleLimits(c: SaleCall)
    ensures ValidSale(c) <==>
      1 <= |c.items| <= 20
      && forall i :: i in c.items ==>
           && 1 <= c.items[i].price <= 1_000_000_000
           && 1 <= c.items[i].total <= 1_000_000 && 1 <= c.items[i].perUserLimit <= 1_000_000
  {
  }

  /** A new sale with unused ids has the given opening time and items, all of them on sale; every
      other row stays. With a used id nothing changes. */
  lemma SaleCreated(L: Ledger, c: SaleCall)
    ensures var M := CreateSale(L, c);
            if c.id in L.sales || exists i :: i in c.items && i in L.items then M == L else
              && M == L.(sales := L.sales[c.id := M.sales[c.id]], items := M.items)
              && c.id in M.sales && M.sales[c.id].opensAt == c.opensAt
              && M.items.Keys == L.items.Keys + c.items.Keys
              && (forall i :: i in L.items ==> M.items[i] == L.items[i])
              && forall i :: i in c.items ==>
                   && M.items[i].saleId == c.id && M.items[i].price == c.items[i].price
                   && M.items[i].perUserLimit == c.items[i].perUserLimit
                   && M.items[i].total == c.items[i].total == M.items[i].available
                   && M.items[i].held == 0 == M.items[i].sold
  {
    assert c.items.Keys * L.items.Keys == {} <==> !(exists i :: i in c.items && i in L.items) by {
      assert forall i :: i in c.items.Keys * L.items.Keys <==> i in c.items && i in L.items;
    }
  }
}
