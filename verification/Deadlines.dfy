/** Whose deadline a work carries. `work` reads the hold after the attempt and without a lock, and
    each started payment of the order overwrites the deadline of the hold. */
module Deadlines {
  import opened Collections
  import opened LedgerSpec
  import opened Invariant
  import opened Evolution
  import opened Provider
  import opened Protocol
  import opened Agreement
  import opened RunProperties

  ghost predicate Starts(L: Ledger, e: Event, order: Uuid)
    requires Linked(L)
  {
    e.Pay? && e.start.order == order && DecideStart(L, e.start).Started?
  }

  /** The last payment started for an order along a run. */
  ghost function LastStart(config: Config, es: seq<Event>, order: Uuid): Option<Uuid>
    decreases |es|
  {
    if es == [] then None else
      var n := |es| - 1;
      if Starts(Reached(config, es[..n]).ledger, es[n], order) then Some(es[n].start.id) else LastStart(config, es[..n], order)
  }

  /** Only a started payment of the order changes its hold's deadline. */
  lemma DeadlineStep(s: System, e: Event, order: Uuid)
    requires Inv(s) && order in s.ledger.holds
    ensures var t := Exec(s, e);
            && order in t.ledger.holds
            && t.ledger.holds[order].deadline ==
                 if Starts(s.ledger, e, order) then Some(e.start.createdAt + s.ledger.config.paymentWindow * SECOND)
                 else s.ledger.holds[order].deadline
  {
    var L := s.ledger;
    match e {
      case NewSale(c) => assert CreateSale(L, c).holds == L.holds;
      case Buy(c) => BuyKeepsHolds(L, c, order);
      case Pay(c) => if DecideStart(L, c).Started? { FreshStart(L, c); }
      case Deliver(c) => ApplyKeepsDeadline(L, c, order);
      case Lease(id, now) => assert Claim(L, id, now).holds == L.holds;
      case _ =>
    }
  }

  lemma BuyKeepsHolds(L: Ledger, c: PurchaseCall, order: Uuid)
    requires Linked(L) && order in L.holds
    ensures order in Purchase(L, c).holds && Purchase(L, c).holds[order] == L.holds[order]
  {
    if DecidePurchase(L, c).Placed? { PlacedExactlyWhen(L, c); }
  }

  lemma ApplyKeepsDeadline(L: Ledger, c: ApplyCall, order: Uuid)
    requires Linked(L) && order in L.holds
    ensures order in Apply(L, c).holds && Apply(L, c).holds[order].deadline == L.holds[order].deadline
  {
  }

  /** The new order of a step has a hold without a deadline. */
  lemma NewHold(s: System, e: Event, order: Uuid)
    requires Inv(s)
    ensures order !in s.ledger.orders && order in Exec(s, e).ledger.orders ==>
      order in Exec(s, e).ledger.holds && Exec(s, e).ledger.holds[order].deadline.None?
  {
    var L := s.ledger;
    match e {
      case NewSale(c) => assert CreateSale(L, c).orders == L.orders;
      case Lease(id, now) => assert Claim(L, id, now).orders == L.orders;
      case Deliver(c) => ApplyKeepsOrders(L, c);
      case _ =>
    }
  }

  lemma ApplyKeepsOrders(L: Ledger, c: ApplyCall)
    requires Linked(L)
    ensures Apply(L, c).orders.Keys == L.orders.Keys
  {
  }

  /** The deadline of `order` is that of the last payment started. */
  ghost predicate Follows(L: Ledger, order: Uuid, last: Option<Uuid>) {
    match last
    case None => order in L.orders ==> order in L.holds && L.holds[order].deadline.None?
    case Some(a) => && order in L.orders && order in L.holds && a in L.attempts && L.attempts[a].orderId == order
                    && L.holds[order].deadline == Some(Window(L.config, L.attempts[a]))
  }

  lemma FollowsStart(s: System, e: Event, order: Uuid)
    requires Inv(s) && Starts(s.ledger, e, order)
    ensures Follows(Exec(s, e).ledger, order, Some(e.start.id))
  {
    FreshStart(s.ledger, e.start);
    assert Exec(s, e).ledger == Begin(s.ledger, e.start);
  }

  lemma FollowsQuietly(s: System, e: Event, order: Uuid, last: Option<Uuid>)
    requires Inv(s) && Follows(s.ledger, order, last) && !Starts(s.ledger, e, order)
    ensures Follows(Exec(s, e).ledger, order, last)
  {
    var t := Exec(s, e);
    if order in s.ledger.orders {
      DeadlineStep(s, e, order);
      if last.Some? {
        ExecMoves(s, e);
        assert AttemptGrows(s.ledger.attempts[last.value], t.ledger.attempts[last.value]);
      }
    } else {
      NewHold(s, e, order);
    }
  }

  lemma {:induction false} HoldFollows(config: Config, es: seq<Event>, order: Uuid)
    ensures Follows(Reached(config, es).ledger, order, LastStart(config, es, order))
    decreases |es|
  {
    if es != [] {
      var n := |es| - 1;
      HoldFollows(config, es[..n], order);
      ReachedInv(config, es[..n]);
      ReachedStep(config, es[..n], es[n]);
      assert es == es[..n] + [es[n]];
      if Starts(Reached(config, es[..n]).ledger, es[n], order) {
        FollowsStart(Reached(config, es[..n]), es[n], order);
      } else {
        FollowsQuietly(Reached(config, es[..n]), es[n], order, LastStart(config, es[..n], order));
      }
    }
  }

  /** The work that the second read of a half-read work gives. */
  ghost function WorkFrom(L: Ledger, h: Half): Work
    requires h.orderId in L.holds
  {
    Work(h.id, h.orderId, h.amount, h.scenario, L.holds[h.orderId].deadline)
  }

  /** In every reachable state the second read gives the attempt's own deadline exactly when the
      last payment started for the order was created at the same time, be it this one or another. */
  lemma OwnDeadlineExactlyWhen(config: Config, es: seq<Event>, h: Half)
    requires h in Reached(config, es).halves
    ensures var s, last := Reached(config, es), LastStart(config, es, h.orderId);
            && h.orderId in s.ledger.holds && h.id in s.ledger.attempts
            && WorkFrom(s.ledger, h) in Reached(config, es + [ReadHold(h)]).works
            && last.Some? && last.value in s.ledger.attempts
            && (WorkFrom(s.ledger, h).deadline == Some(Window(config, s.ledger.attempts[h.id]))
                <==> s.ledger.attempts[last.value].createdAt == s.ledger.attempts[h.id].createdAt)
  {
    ReachedInv(config, es);
    ConfigKept(config, es);
    ReachedStep(config, es, ReadHold(h));
    HoldFollows(config, es, h.orderId);
    var L := Reached(config, es).ledger;
    assert HalfRow(L.attempts, h);
    assert AttemptRow(L.config, L.orders, L.holds, L.attempts[h.id]);
  }

  /** No payment of the order starts along `fs`. */
  ghost predicate NoStart(config: Config, es: seq<Event>, fs: seq<Event>, order: Uuid) {
    forall k :: 0 <= k < |fs| ==> !Starts(Reached(config, es + fs[..k]).ledger, fs[k], order)
  }

  lemma {:induction false} LastStartKept(config: Config, es: seq<Event>, fs: seq<Event>, order: Uuid)
    requires NoStart(config, es, fs, order)
    ensures LastStart(config, es + fs, order) == LastStart(config, es, order)
    decreases |fs|
  {
    if fs == [] {
      assert es + fs == es;
    } else {
      var n := |fs| - 1;
      forall k | 0 <= k < n ensures !Starts(Reached(config, es + fs[..n][..k]).ledger, fs[..n][k], order) {
        assert fs[..n][..k] == fs[..k];
      }
      LastStartKept(config, es, fs[..n], order);
      assert (es + fs)[..|es + fs| - 1] == es + fs[..n] && (es + fs)[|es + fs| - 1] == fs[n];
    }
  }

  /** A work carries its own deadline if no payment of the order starts between the two reads. */
  lemma OwnDeadlineWithoutStart(config: Config, es: seq<Event>, fs: seq<Event>, a: Uuid)
    requires a in Reached(config, es).ledger.attempts && !Reached(config, es).ledger.attempts[a].Terminal()
    requires NoStart(config, es, fs, Reached(config, es).ledger.attempts[a].orderId)
    ensures var L, M := Reached(config, es).ledger, Reached(config, es + fs).ledger;
            && L.attempts[a].orderId in M.holds
            && M.holds[L.attempts[a].orderId].deadline == Some(Window(config, L.attempts[a]))
  {
    ReachedInv(config, es);
    ConfigKept(config, es);
    ConfigKept(config, es + fs);
    ReachedMoves(config, es, fs);
    var L, M := Reached(config, es).ledger, Reached(config, es + fs).ledger;
    var order := L.attempts[a].orderId;
    assert AttemptRow(L.config, L.orders, L.holds, L.attempts[a]);
    HoldFollows(config, es, order);
    HoldFollows(config, es + fs, order);
    LastStartKept(config, es, fs, order);
    var last := LastStart(config, es, order).value;
    assert AttemptGrows(L.attempts[last], M.attempts[last]);
  }
}
