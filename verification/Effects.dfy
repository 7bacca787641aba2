/** What the transactions do to each row, in terms of the request and not of the tables'
    comprehensions. */
module Effects {
  import opened Collections
  import opened Keys
  import opened LedgerSpec
  import opened Invariant

  /** The price of a basket, added up in the order the request lists it. */
  function BasketPrice(items: map<Uuid, Item>, basket: seq<RequestItem>): nat
    requires forall k :: 0 <= k < |basket| ==> basket[k].id in items
  {
    if basket == [] then 0 else
      var n := |basket| - 1;
      BasketPrice(items, basket[..n]) + items[basket[n].id].price * basket[n].quantity
  }

  lemma LinesGrow(L: Ledger, wants: map<Uuid, nat>, i: Uuid, n: nat)
    requires i in L.items
    ensures PlacedLines(L, wants[i := n]) == PlacedLines(L, wants)[i := Line(n, L.items[i].price)]
  {
  }

  lemma NoLines(L: Ledger)
    ensures Amount(PlacedLines(L, map[])) == 0
  {
    assert PlacedLines(L, map[]) == map[];
    assert Amounts(map[]) == map[];
  }

  lemma LineAdds(L: Ledger, wants: map<Uuid, nat>, i: Uuid, n: nat)
    requires i in L.items && i !in wants
    ensures Amount(PlacedLines(L, wants[i := n])) == Amount(PlacedLines(L, wants)) + n * L.items[i].price
  {
    LinesGrow(L, wants, i, n);
    AmountGrows(PlacedLines(L, wants), i, Line(n, L.items[i].price));
  }

  /** The total of an order does not depend on the order of the rows or of the request. */
  lemma {:induction false} BasketAmount(L: Ledger, basket: seq<RequestItem>)
    requires Distinct(basket) && forall k :: 0 <= k < |basket| ==> basket[k].id in L.items
    ensures Amount(PlacedLines(L, Wanted(basket))) == BasketPrice(L.items, basket)
  {
    if basket == [] {
      NoLines(L);
    } else {
      var n := |basket| - 1;
      LastEntry(basket);
      assert forall k :: 0 <= k < n ==> basket[..n][k] == basket[k];
      BasketAmount(L, basket[..n]);
      LineAdds(L, Wanted(basket[..n]), basket[n].id, basket[n].quantity);
    }
  }

  /** One listed item after the purchase. */
  ghost predicate TakenRow(items: map<Uuid, Item>, after: map<Uuid, Item>, lines: map<Uuid, Line>, x: RequestItem) {
    && x.id in items && x.id in after && x.id in lines
    && x.quantity <= items[x.id].available
    && after[x.id] == items[x.id].(available := items[x.id].available - x.quantity, held := items[x.id].held + x.quantity)
    && lines[x.id] == Line(x.quantity, items[x.id].price)
  }

  ghost predicate Listed(basket: seq<RequestItem>, i: Uuid) {
    exists k :: 0 <= k < |basket| && basket[k].id == i
  }

  lemma ListedRow(L: Ledger, c: PurchaseCall, k: nat)
    requires DecidePurchase(L, c).Placed? && k < |c.request.items|
    ensures TakenRow(L.items, HoldStock(L.items, Wants(c)), PlacedLines(L, Wants(c)), c.request.items[k])
  {
    PlacedExactlyWhen(L, c);
    WantedAt(c.request.items, k);
    assert Admissible(L, c, c.request.items[k].id);
  }

  /** Each listed item gave exactly its quantity from the available to the held stock, and no
      other item changed. */
  ghost predicate TakesBasket(items: map<Uuid, Item>, after: map<Uuid, Item>, lines: map<Uuid, Line>, basket: seq<RequestItem>) {
    && after.Keys == items.Keys && |lines| == |basket|
    && (forall k :: 0 <= k < |basket| ==> TakenRow(items, after, lines, basket[k]))
    && (forall i :: i in items && !Listed(basket, i) ==> after[i] == items[i] && i !in lines)
  }

  lemma UnlistedRows(L: Ledger, basket: seq<RequestItem>, wants: map<Uuid, nat>)
    requires forall i :: i in wants ==> Listed(basket, i)
    requires |PlacedLines(L, wants)| == |basket|
    requires forall k :: 0 <= k < |basket| ==> TakenRow(L.items, HoldStock(L.items, wants), PlacedLines(L, wants), basket[k])
    ensures TakesBasket(L.items, HoldStock(L.items, wants), PlacedLines(L, wants), basket)
  {
  }

  lemma BasketTaken(L: Ledger, c: PurchaseCall)
    requires DecidePurchase(L, c).Placed?
    ensures TakesBasket(L.items, HoldStock(L.items, Wants(c)), PlacedLines(L, Wants(c)), c.request.items)
  {
    forall k | 0 <= k < |c.request.items|
      ensures TakenRow(L.items, HoldStock(L.items, Wants(c)), PlacedLines(L, Wants(c)), c.request.items[k])
    {
      ListedRow(L, c, k);
    }
    LineCount(L, c);
    UnlistedRows(L, c.request.items, Wants(c));
  }

  /** The one pending order a purchase adds, with its active hold. */
  ghost predicate AddsOrder(L: Ledger, M: Ledger, c: PurchaseCall)
    requires forall k :: 0 <= k < |c.request.items| ==> c.request.items[k].id in L.items
  {
    && c.id !in L.orders && c.id in M.orders && c.id in M.holds
    && var o := M.orders[c.id];
    && M == L.(items := M.items, orders := L.orders[c.id := o], holds := L.holds[c.id := M.holds[c.id]])
    && TakesBasket(L.items, M.items, o.lines, c.request.items)
    && o.totalAmount == BasketPrice(L.items, c.request.items)
    && o.user == c.user && o.key == c.key && o.status.PaymentPending?
    && o.saleId == c.request.saleId && o.fingerprint == Fingerprint(c.request) && o.createdAt == c.createdAt
    && M.holds[c.id] == Hold(Active, c.createdAt + L.config.holdSeconds * 1_000_000, None)
  }

  lemma InBasket(L: Ledger, c: PurchaseCall)
    requires DecidePurchase(L, c).Placed?
    ensures Distinct(c.request.items) && c.id !in L.orders
    ensures forall k :: 0 <= k < |c.request.items| ==> c.request.items[k].id in L.items
  {
    PlacedExactlyWhen(L, c);
    forall k | 0 <= k < |c.request.items| ensures c.request.items[k].id in L.items {
      ListedRow(L, c, k);
    }
  }

  lemma PlacedAdds(L: Ledger, c: PurchaseCall)
    requires c.id !in L.orders
    requires forall k :: 0 <= k < |c.request.items| ==> c.request.items[k].id in L.items
    requires TakesBasket(L.items, HoldStock(L.items, Wants(c)), PlacedLines(L, Wants(c)), c.request.items)
    requires Amount(PlacedLines(L, Wants(c))) == BasketPrice(L.items, c.request.items)
    ensures AddsOrder(L, Place(L, c), c)
  {
  }

  /** A purchase takes all of its basket or nothing: on a refusal or a replay the ledger stays
      as it was; otherwise the listed stock is held and one pending order with those lines and
      their total price appears. */
  lemma AllOrNothing(L: Ledger, c: PurchaseCall)
    ensures !DecidePurchase(L, c).Placed? ==> Purchase(L, c) == L
    ensures DecidePurchase(L, c).Placed? ==>
      (forall k :: 0 <= k < |c.request.items| ==> c.request.items[k].id in L.items) && AddsOrder(L, Purchase(L, c), c)
  {
    if DecidePurchase(L, c).Placed? {
      InBasket(L, c);
      BasketTaken(L, c);
      BasketAmount(L, c.request.items);
      PlacedAdds(L, c);
    }
  }

  lemma LineCount(L: Ledger, c: PurchaseCall)
    requires DecidePurchase(L, c).Placed?
    ensures |PlacedLines(L, Wants(c))| == |c.request.items|
  {
    PlacedExactlyWhen(L, c);
    WantedSize(c.request.items);
    assert forall i :: i in Wants(c) ==> Admissible(L, c, i);
    SameSize(PlacedLines(L, Wants(c)), Wants(c));
  }

  lemma SameSize(lines: map<Uuid, Line>, wants: map<Uuid, nat>)
    requires lines.Keys == wants.Keys
    ensures |lines| == |wants|
  {
    assert |lines| == |lines.Keys| && |wants| == |wants.Keys|;
  }

  /** A failed payment leaves the order payable while its hold lasts; afterwards it gives each
      line's quantity back to the available stock. Nothing else changes. */
  lemma FailureOutcome(L: Ledger, c: ApplyCall)
    requires Valid(L) && Linked(L) && DecideApply(L, c).Applied? && c.result.ResultFailed?
    ensures var M, id := Apply(L, c), L.attempts[c.attempt].orderId;
            var over := L.holds[id].expiresAt <= c.heldAt;
            && c.attempt in M.attempts && M.attempts[c.attempt].status.Failed? && M.attempts[c.attempt].terminalAt == Some(c.terminalAt)
            && M.orders == L.orders[id := L.orders[id].(status := if over then OrderExpired else PaymentPending)]
            && M.holds == L.holds[id := L.holds[id].(status := if over then HoldExpired else Active)]
            && M.items.Keys == L.items.Keys
            && forall i :: i in L.items ==>
                 var n := if over then Quantity(L.orders[id], i) else 0;
                 M.items[i] == L.items[i].(held := L.items[i].held - n, available := L.items[i].available + n)
  {
    OpenAttempt(L, c.attempt);
  }

  /** A started payment is due at once, is for the order's whole amount, sets its own deadline and
      leaves the hold window and the stock alone. */
  lemma StartOutcome(L: Ledger, c: StartCall)
    requires Valid(L) && Linked(L) && DecideStart(L, c).Started?
    ensures var M := Start(L, c);
            && c.order in L.orders && c.order in L.holds && c.id !in L.attempts && c.id in M.attempts
            && var a := M.attempts[c.id];
            && M == L.(orders := L.orders[c.order := L.orders[c.order].(status := PaymentProcessing)],
                       holds := L.holds[c.order := L.holds[c.order].(deadline := Some(a.createdAt + L.config.paymentWindow * 1_000_000))],
                       attempts := L.attempts[c.id := a])
            && a.orderId == c.order && a.key == c.key && a.scenario == c.scenario && a.createdAt == c.createdAt
            && a.amount == L.orders[c.order].totalAmount && !a.Terminal() && a.terminalAt.None?
            && (forall now :: c.id in Claimable(M, now) <==> c.createdAt <= now)
            && (forall b :: b in L.attempts && L.attempts[b].orderId == c.order ==> L.attempts[b].status.Failed?)
  {
    FreshStart(L, c);
  }

  /** An unknown result moves nothing and makes the attempt due again exactly one second later,
      whatever lease it had. */
  lemma UnknownOutcome(L: Ledger, c: ApplyCall)
    requires Linked(L) && DecideApply(L, c).Applied? && c.result.ResultUnknown?
    ensures var M := Apply(L, c);
            && M == L.(attempts := M.attempts)
            && c.attempt in L.attempts && c.attempt in M.attempts
            && M.attempts[c.attempt].status.Unknown? && M.attempts[c.attempt].terminalAt == L.attempts[c.attempt].terminalAt
            && (forall b :: b in L.attempts && b != c.attempt ==> b in M.attempts && M.attempts[b] == L.attempts[b])
            && forall now :: c.attempt in Claimable(M, now) <==> c.checkFrom + 1_000_000 <= now
  {
  }

  /** A lease keeps others away for exactly ten seconds; afterwards the attempt of a worker that
      has disappeared is due again. */
  lemma AbandonedLeaseRecovers(L: Ledger, a: Uuid, now: Instant, later: Instant)
    requires a in Claimable(L, now)
    ensures a in Claimable(Claim(L, a, now), later) <==> now + 10_000_000 <= later
    ensures forall b :: b != a ==> (b in Claimable(Claim(L, a, now), later) <==> b in Claimable(L, later))
  {
  }

  /** An expiry gives back exactly the order's stock and the user's allowance, once: a second
      expiry at any time changes nothing. */
  lemma ExpiryOutcome(L: Ledger, id: Uuid, now: Instant, again: Instant, i: Uuid)
    requires Valid(L) && Linked(L) && Expires(L, id, now) && i in L.items
    ensures var M, o := Expire(L, id, now), L.orders[id];
            var n := Quantity(o, i);
            && i in M.items && M.items[i] == L.items[i].(held := L.items[i].held - n, available := L.items[i].available + n)
            && Sum(UsedBy(o.user), M.orders, i) == Sum(UsedBy(o.user), L.orders, i) - n
            && (forall user :: user != o.user ==> Sum(UsedBy(user), M.orders, i) == Sum(UsedBy(user), L.orders, i))
            && Linked(M) && Expire(M, id, again) == M
  {
    var M, o := Expire(L, id, now), L.orders[id];
    assert M.orders == Restatus(L.orders, id, OrderExpired);
    RestatusSum(UsedBy(o.user), L.orders, id, OrderExpired, i);
    forall user | user != o.user ensures Sum(UsedBy(user), M.orders, i) == Sum(UsedBy(user), L.orders, i) {
      RestatusSum(UsedBy(user), L.orders, id, OrderExpired, i);
    }
  }
}
