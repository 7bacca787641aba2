/** How a hold ends: when stock may return, that a success settles an order exactly once, and
    how far apart two claims of one attempt are. */
module Settlement {
  import opened Collections
  import opened LedgerSpec
  import opened Invariant
  import opened Protocol
  import opened Agreement
  import opened RunProperties

  // ---------- the hold window ----------

  /** For a pending order, at any single instant either a new payment passes the hold check or
      the sweep releases the stock, never both and never neither. */
  lemma PayOrExpire(L: Ledger, c: StartCall)
    requires Valid(L) && Linked(L)
    requires c.order in L.orders && L.orders[c.order].status.PaymentPending?
    requires ValidIdentity(c.user, c.key) && L.orders[c.order].user == c.user
    requires WithKey(L, c.order, c.key) == {} && c.id !in L.attempts
    ensures DecideStart(L, c).Started? <==> !Expires(L, c.order, c.checkedAt)
  {
    forall a | a in AttemptsOf(L, c.order) ensures L.attempts[a].status.Failed? {
      assert AttemptRow(L.config, L.orders, L.holds, L.attempts[a]);
    }
    assert HoldRow(L.config, L.orders[c.order], L.holds[c.order]);
  }

  /** Time alone never releases the stock of an accepted payment that is not resolved. */
  lemma UnresolvedKept(config: Config, es: seq<Event>, a: Uuid, now: Instant)
    requires a in Reached(config, es).ledger.attempts && !Reached(config, es).ledger.attempts[a].Terminal()
    ensures var L := Reached(config, es).ledger;
            Expire(L, L.attempts[a].orderId, now) == L && L.orders[L.attempts[a].orderId].status.PaymentProcessing?
  {
    ReachedInv(config, es);
    OpenAttempt(Reached(config, es).ledger, a);
  }

  /** The order an event releases, and the clock reading it compared with the hold. */
  ghost predicate Releases(L: Ledger, e: Event, order: Uuid, at: Instant) {
    || (e.Sweep? && e.order == order && e.now == at)
    || (e.Deliver? && e.call.result.ResultFailed? && e.call.attempt in L.attempts
        && L.attempts[e.call.attempt].orderId == order && e.call.heldAt == at)
  }

  lemma OnlyTheseRelease(s: System, e: Event, order: Uuid)
    requires Inv(s) && order in s.ledger.orders && !s.ledger.orders[order].status.OrderExpired?
    requires Exec(s, e).ledger.orders[order].status.OrderExpired?
    ensures exists at :: Releases(s.ledger, e, order, at) && s.ledger.holds[order].expiresAt <= at
  {
    var L := s.ledger;
    match e {
      case NewSale(c) => QuietStep(L, e);
      case Buy(c) => BuyKeepsOthers(L, c, order);
      case Pay(c) =>
      case Sweep(id, now) => assert Releases(L, e, order, now);
      case Lease(id, now) => QuietStep(L, e);
      case Deliver(c) => DeliverReleases(L, c, order); assert Releases(L, e, order, c.heldAt);
      case _ =>
    }
  }

  lemma QuietStep(L: Ledger, e: Event)
    requires Linked(L) && (e.NewSale? || e.Lease?)
    ensures LedgerStep(L, e).orders == L.orders
  {
  }

  lemma BuyKeepsOthers(L: Ledger, c: PurchaseCall, order: Uuid)
    requires order in L.orders
    ensures order in Purchase(L, c).orders && Purchase(L, c).orders[order] == L.orders[order]
  {
    if DecidePurchase(L, c).Placed? {
      PlacedExactlyWhen(L, c);
      assert Place(L, c).orders == L.orders[c.id := PlacedOrder(L, c)];
    }
  }

  lemma DeliverReleases(L: Ledger, c: ApplyCall, order: Uuid)
    requires Linked(L) && order in L.orders && !L.orders[order].status.OrderExpired?
    requires order in Apply(L, c).orders && Apply(L, c).orders[order].status.OrderExpired?
    ensures c.result.ResultFailed? && c.attempt in L.attempts && L.attempts[c.attempt].orderId == order
    ensures L.holds[order].expiresAt <= c.heldAt
  {
  }

  /** In every run, stock goes back only when its order's hold window was over by the clock the
      releasing transaction read, and only when every payment attempt of the order has failed. */
  lemma ReleasedOnlyAfterWindow(config: Config, es: seq<Event>, e: Event, order: Uuid)
    requires order in Reached(config, es).ledger.orders && !Reached(config, es).ledger.orders[order].status.OrderExpired?
    requires order in Reached(config, es + [e]).ledger.orders && Reached(config, es + [e]).ledger.orders[order].status.OrderExpired?
    ensures var L, M := Reached(config, es).ledger, Reached(config, es + [e]).ledger;
            && (exists at :: Releases(L, e, order, at) && L.orders[order].createdAt + config.holdSeconds * 1_000_000 <= at)
            && forall a :: a in M.attempts && M.attempts[a].orderId == order ==> M.attempts[a].status.Failed?
  {
    ReachedInv(config, es);
    ReachedInv(config, es + [e]);
    ConfigKept(config, es);
    AfterConcat(Initial(config), es, [e]);
    var s := Reached(config, es);
    assert After(s, [e]) == Exec(s, e);
    assert HoldRow(s.ledger.config, s.ledger.orders[order], s.ledger.holds[order]);
    OnlyTheseRelease(s, e, order);
    var M := Reached(config, es + [e]).ledger;
    forall a | a in M.attempts && M.attempts[a].orderId == order ensures M.attempts[a].status.Failed? {
      assert AttemptRow(M.config, M.orders, M.holds, M.attempts[a]);
    }
  }

  // ---------- exactly once ----------

  /** What may happen to an order around one payment: a success, reported any number of times,
      unknown results arriving late, and the expiry sweep. */
  datatype Nudge =
    | Won(terminalAt: Instant, checkFrom: Instant, heldAt: Instant)
    | Unsure(terminalAt: Instant, checkFrom: Instant, heldAt: Instant)
    | Swept(now: Instant)

  function Nudged(L: Ledger, a: Uuid, n: Nudge): Ledger
    requires Linked(L) && a in L.attempts
  {
    match n
    case Won(t, u, v) => Apply(L, ApplyCall(a, L.attempts[a].amount, ResultSucceeded, t, u, v))
    case Unsure(t, u, v) => Apply(L, ApplyCall(a, L.attempts[a].amount, ResultUnknown, t, u, v))
    case Swept(now) => Expire(L, L.attempts[a].orderId, now)
  }

  lemma NudgedLinked(L: Ledger, a: Uuid, n: Nudge)
    requires Linked(L) && a in L.attempts
    ensures Linked(Nudged(L, a, n)) && a in Nudged(L, a, n).attempts
  {
    match n {
      case Won(t, u, v) => ApplyLinked(L, ApplyCall(a, L.attempts[a].amount, ResultSucceeded, t, u, v));
      case Unsure(t, u, v) => ApplyLinked(L, ApplyCall(a, L.attempts[a].amount, ResultUnknown, t, u, v));
      case Swept(now) =>
    }
  }

  function NudgedBy(L: Ledger, a: Uuid, ns: seq<Nudge>): Ledger
    requires Linked(L) && a in L.attempts
    decreases |ns|
  {
    if ns == [] then L else
      NudgedLinked(L, a, ns[0]);
      NudgedBy(Nudged(L, a, ns[0]), a, ns[1..])
  }

  ghost predicate SameBooks(L: Ledger, M: Ledger) {
    M.items == L.items && M.orders == L.orders && M.holds == L.holds
  }

  lemma {:induction false} WonStays(L: Ledger, a: Uuid, ns: seq<Nudge>)
    requires Linked(L) && a in L.attempts && L.attempts[a].status.Succeeded?
    requires L.orders[L.attempts[a].orderId].status.OrderConfirmed?
    ensures NudgedBy(L, a, ns) == L
    decreases |ns|
  {
    if ns != [] {
      assert Nudged(L, a, ns[0]) == L;
      WonStays(L, a, ns[1..]);
    }
  }

  lemma FirstWin(L: Ledger, a: Uuid, n: Nudge)
    requires Valid(L) && Linked(L) && a in L.attempts && !L.attempts[a].Terminal() && n.Won?
    ensures var M := Nudged(L, a, n);
            && SameBooks(Settle(L, L.attempts[a].orderId, true), M)
            && M.orders[L.attempts[a].orderId].status.OrderConfirmed?
            && a in M.attempts && M.attempts[a].status.Succeeded? && M.attempts[a].orderId == L.attempts[a].orderId
            && M.attempts[a].terminalAt == Some(n.terminalAt)
  {
    OpenAttempt(L, a);
  }

  lemma StillOpen(L: Ledger, a: Uuid, n: Nudge)
    requires Valid(L) && Linked(L) && a in L.attempts && !L.attempts[a].Terminal() && !n.Won?
    ensures var M := Nudged(L, a, n);
            && SameBooks(L, M) && Valid(M)
            && a in M.attempts && !M.attempts[a].Terminal() && M.attempts[a].orderId == L.attempts[a].orderId
  {
    OpenAttempt(L, a);
    if n.Unsure? {
      ApplyKeepsValid(L, ApplyCall(a, L.attempts[a].amount, ResultUnknown, n.terminalAt, n.checkFrom, n.heldAt));
    } else {
      ExpireKeepsValid(L, L.attempts[a].orderId, n.now);
    }
  }

  /** Any interleaving that contains a success leaves stock, orders and holds as one success
      alone does, and the terminal time is the first one's; without a success they are
      untouched and the payment is still open. */
  lemma {:induction false} ExactlyOnce(L: Ledger, a: Uuid, ns: seq<Nudge>)
    requires Valid(L) && Linked(L) && a in L.attempts && !L.attempts[a].Terminal()
    ensures var M := NudgedBy(L, a, ns);
            var order := L.attempts[a].orderId;
            && order in L.orders && order in L.holds && a in M.attempts
            && (if forall k :: 0 <= k < |ns| ==> !ns[k].Won? then
                  SameBooks(L, M) && !M.attempts[a].Terminal()
                else
                  && SameBooks(Settle(L, order, true), M)
                  && M.attempts[a].status.Succeeded?
                  && exists k :: 0 <= k < |ns| && ns[k].Won? && (forall j :: 0 <= j < k ==> !ns[j].Won?)
                                 && M.attempts[a].terminalAt == Some(ns[k].terminalAt))
    decreases |ns|
  {
    OpenAttempt(L, a);
    if ns != [] {
      NudgedLinked(L, a, ns[0]);
      var N := Nudged(L, a, ns[0]);
      if ns[0].Won? {
        FirstWin(L, a, ns[0]);
        WonStays(N, a, ns[1..]);
      } else {
        StillOpen(L, a, ns[0]);
        ExactlyOnce(N, a, ns[1..]);
        SettleSameBooks(L, N, L.attempts[a].orderId);
        ShiftFirst(ns, NudgedBy(N, a, ns[1..]).attempts[a].terminalAt);
      }
    }
  }

  lemma SettleSameBooks(L: Ledger, M: Ledger, order: Uuid)
    requires SameBooks(L, M) && order in L.orders && order in L.holds
    ensures SameBooks(Settle(L, order, true), Settle(M, order, true))
  {
  }

  lemma ShiftFirst(ns: seq<Nudge>, at: Option<Instant>)
    requires ns != [] && !ns[0].Won?
    ensures (forall k :: 0 <= k < |ns| ==> !ns[k].Won?) <==> (forall k :: 0 <= k < |ns[1..]| ==> !ns[1..][k].Won?)
    ensures (exists k :: 0 <= k < |ns[1..]| && ns[1..][k].Won? && (forall j :: 0 <= j < k ==> !ns[1..][j].Won?)
                         && at == Some(ns[1..][k].terminalAt)) ==>
            (exists k :: 0 <= k < |ns| && ns[k].Won? && (forall j :: 0 <= j < k ==> !ns[j].Won?) && at == Some(ns[k].terminalAt))
  {
    var tail := ns[1..];
    assert forall k :: 1 <= k < |ns| ==> ns[k] == tail[k - 1];
    if k :| 0 <= k < |tail| && tail[k].Won? && (forall j :: 0 <= j < k ==> !tail[j].Won?) && at == Some(tail[k].terminalAt) {
      assert ns[k + 1].Won?;
      forall j | 0 <= j < k + 1 ensures !ns[j].Won? {
        if j > 0 { assert ns[j] == tail[j - 1]; }
      }
    }
  }

  // ---------- lease spacing ----------

  /** An unknown result applied to the attempt, whose next check is no later than `now`. */
  ghost predicate Postpones(s: System, e: Event, a: Uuid, now: Instant) {
    && Linked(s.ledger) && Enabled(s, e)
    && e.Deliver? && e.call.attempt == a && e.call.result.ResultUnknown?
    && DecideApply(s.ledger, e.call).Applied?
    && e.call.checkFrom + 1_000_000 <= now
  }

  ghost predicate Guarded(L: Ledger, a: Uuid, bound: Instant) {
    && a in L.attempts
    && var x := L.attempts[a];
       x.Terminal() || (x.leaseUntil.Some? && bound <= x.leaseUntil.value) || bound <= x.nextCheckAt
  }

  ghost predicate Resolves(s: System, e: Event, a: Uuid)
    requires Linked(s.ledger)
  {
    Enabled(s, e) && e.Deliver? && e.call.attempt == a && DecideApply(s.ledger, e.call).Applied?
  }

  lemma GuardKept(s: System, e: Event, a: Uuid, bound: Instant)
    requires Inv(s) && Guarded(s.ledger, a, bound) && !Resolves(s, e, a)
    ensures Guarded(Exec(s, e).ledger, a, bound)
  {
    var L := s.ledger;
    match e {
      case NewSale(c) => assert CreateSale(L, c).attempts == L.attempts;
      case Buy(c) => assert Purchase(L, c).attempts == L.attempts;
      case Pay(c) => StartKeepsAttempts(L, c);
      case Sweep(id, now) => assert Expire(L, id, now).attempts == L.attempts;
      case Lease(id, now) => ClaimTouchesLease(L, id, now);
      case Deliver(c) => DeliverTouchesOne(L, c);
      case _ =>
    }
  }

  lemma DeliverTouchesOne(L: Ledger, c: ApplyCall)
    requires Linked(L)
    ensures forall b :: b in L.attempts && (b != c.attempt || !DecideApply(L, c).Applied?) ==>
              b in Apply(L, c).attempts && Apply(L, c).attempts[b] == L.attempts[b]
    ensures DecideApply(L, c).Applied? ==> c.attempt in L.attempts && c.attempt in Apply(L, c).attempts
                                           && Apply(L, c).attempts[c.attempt] == Resolve(L.attempts[c.attempt], c)
  {
  }

  lemma PostponesLater(s: System, es: seq<Event>, a: Uuid, now: Instant)
    requires Linked(s.ledger) && es != []
    ensures (exists k :: 0 <= k < |es[1..]| && Postpones(After(Exec(s, es[0]), es[1..][..k]), es[1..][k], a, now))
        ==> (exists k :: 0 <= k < |es| && Postpones(After(s, es[..k]), es[k], a, now))
  {
    var t := Exec(s, es[0]);
    if k :| 0 <= k < |es[1..]| && Postpones(After(t, es[1..][..k]), es[1..][k], a, now) {
      assert es[..k + 1][0] == es[0] && es[..k + 1][1..] == es[1..][..k];
      assert After(s, es[..k + 1]) == After(t, es[1..][..k]);
      assert Postpones(After(s, es[..k + 1]), es[k + 1], a, now);
    }
  }

  lemma {:induction false} ClaimWaits(s: System, es: seq<Event>, a: Uuid, bound: Instant, now: Instant)
    requires Inv(s) && Guarded(s.ledger, a, bound)
    requires a in Claimable(After(s, es).ledger, now)
    ensures bound <= now || exists k :: 0 <= k < |es| && Postpones(After(s, es[..k]), es[k], a, now)
    decreases |es|
  {
    if es != [] {
      var e := es[0];
      var t := Exec(s, e);
      ExecKeepsInv(s, e);
      assert es[..0] == [] && After(s, es[..0]) == s;
      if Resolves(s, e, a) {
        DeliverTouchesOne(s.ledger, e.call);
        if e.call.result.ResultUnknown? {
          ClaimWaits(t, es[1..], a, e.call.checkFrom + SECOND, now);
          assert e.call.checkFrom + SECOND <= now ==> Postpones(After(s, es[..0]), es[0], a, now);
        } else {
          ClaimWaits(t, es[1..], a, bound, now);
        }
      } else {
        GuardKept(s, e, a, bound);
        ClaimWaits(t, es[1..], a, bound, now);
      }
      PostponesLater(s, es, a, now);
    }
  }

  /** After a claim of an attempt no claim can lease it again, whichever rows `skip locked` passes
      over, unless it reads a clock at least ten seconds later, or an unknown result was applied in
      between at least one second before its reading. */
  lemma LeaseSpacing(config: Config, es: seq<Event>, fs: seq<Event>, a: Uuid, first: Instant, second: Instant)
    requires a in Claimable(Reached(config, es).ledger, first)
    requires a in Claimable(Reached(config, es + [Lease(a, first)] + fs).ledger, second)
    ensures first + 10_000_000 <= second
         || exists k :: 0 <= k < |fs| && Postpones(Reached(config, es + [Lease(a, first)] + fs[..k]), fs[k], a, second)
  {
    ReachedInv(config, es);
    ReachedInv(config, es + [Lease(a, first)]);
    AfterConcat(Initial(config), es, [Lease(a, first)]);
    var s := Reached(config, es);
    var t := Reached(config, es + [Lease(a, first)]);
    assert After(s, [Lease(a, first)]) == Exec(s, Lease(a, first));
    assert Guarded(t.ledger, a, first + LEASE);
    AfterConcat(Initial(config), es + [Lease(a, first)], fs);
    ClaimWaits(t, fs, a, first + LEASE, second);
    if k :| 0 <= k < |fs| && Postpones(After(t, fs[..k]), fs[k], a, second) {
      AfterConcat(Initial(config), es + [Lease(a, first)], fs[..k]);
      assert Postpones(Reached(config, es + [Lease(a, first)] + fs[..k]), fs[k], a, second);
    }
  }
}
