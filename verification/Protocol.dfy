/** Buyers, workers, provider and callbacks as one transition system.

    Messages are never removed: a `Work` may be sent to the provider any number of times and
    arbitrarily late, an answer may be applied twice, out of order or never, and a worker that
    stops between two steps simply takes no further step. */
module Protocol {
  import opened Collections
  import opened Keys
  import opened LedgerSpec
  import opened Provider

  /** What `work` holds between its two reads. */
  datatype Half = Half(id: Uuid, orderId: Uuid, amount: nat, scenario: Scenario)
  datatype Message = Message(id: Uuid, amount: int, result: Result)

  datatype System = System(ledger: Ledger, receipts: map<Uuid, Receipt>, halves: set<Half>, works: set<Work>,
                           sent: set<Message>)

  datatype Event =
    | NewSale(sale: SaleCall)
    | Buy(purchase: PurchaseCall)
    | Pay(start: StartCall)
    | ReadAttempt(id: Uuid)
    | ReadHold(half: Half)
    | Submit(work: Work, now: Instant)
    | Deliver(call: ApplyCall)
    | Sweep(order: Uuid, now: Instant)
    | Lease(id: Uuid, now: Instant)

  function Initial(config: Config): System {
    System(Ledger(config, map[], map[], map[], map[], map[]), map[], {}, {}, {})
  }

  /** The environment: validated requests, reads and works that exist, and results that are
      either unknown (any failure of the call) or once held by the provider's receipt. */
  predicate Enabled(s: System, e: Event) {
    match e
    case NewSale(c) => ValidSale(c)
    case Buy(c) => Validated(c.request)
    case Pay(_) => true
    case ReadAttempt(id) => id in s.ledger.attempts && !s.ledger.attempts[id].Terminal()
    case ReadHold(h) => h in s.halves && h.orderId in s.ledger.holds
    case Submit(w, _) => w in s.works
    case Deliver(c) => c.result.ResultUnknown? || exists m :: m in s.sent && m.id == c.attempt && m.result == c.result
    case Sweep(_, _) => true
    case Lease(_, _) => true
  }

  function LedgerStep(L: Ledger, e: Event): Ledger
    requires Linked(L)
  {
    match e
    case NewSale(c) => CreateSale(L, c)
    case Buy(c) => Purchase(L, c)
    case Pay(c) => Start(L, c)
    case Deliver(c) => Apply(L, c)
    case Sweep(id, now) => Expire(L, id, now)
    case Lease(id, now) => Claim(L, id, now)
    case _ => L
  }

  function Effect(s: System, e: Event): System
    requires Linked(s.ledger) && Enabled(s, e)
  {
    match e
    case ReadAttempt(id) =>
      var a := s.ledger.attempts[id];
      s.(halves := s.halves + {Half(id, a.orderId, a.amount, a.scenario)})
    case ReadHold(h) =>
      s.(works := s.works + {Work(h.id, h.orderId, h.amount, h.scenario, s.ledger.holds[h.orderId].deadline)})
    case Submit(w, now) =>
      var reply := Reply(s.receipts, w, now);
      if reply.Answered? then
        s.(receipts := Accept(s.receipts, w, now), sent := s.sent + {Message(w.id, w.amount, reply.result)})
      else s
    case _ => s.(ledger := LedgerStep(s.ledger, e))
  }

  lemma StepLinked(L: Ledger, e: Event)
    requires Linked(L)
    ensures Linked(LedgerStep(L, e))
  {
    match e {
      case Buy(c) => assert Linked(Purchase(L, c));
      case Pay(c) => assert Linked(Start(L, c));
      case Deliver(c) => ApplyLinked(L, c);
      case Sweep(id, now) => assert Linked(Expire(L, id, now));
      case Lease(id, now) => assert Linked(Claim(L, id, now));
      case _ =>
    }
  }

  lemma ApplyLinked(L: Ledger, c: ApplyCall)
    requires Linked(L)
    ensures Linked(Apply(L, c))
  {
    if DecideApply(L, c).Applied? {
      var M := Record(L, c);
      var order := L.attempts[c.attempt].orderId;
      assert Linked(M);
      assert Linked(SetOrder(M, order, PaymentPending));
    }
  }

  /** An event that the environment cannot produce changes nothing. */
  function Exec(s: System, e: Event): (r: System)
    requires Linked(s.ledger)
    ensures Linked(r.ledger)
  {
    StepLinked(s.ledger, e);
    if Enabled(s, e) then Effect(s, e) else s
  }

  function After(s: System, es: seq<Event>): (r: System)
    requires Linked(s.ledger)
    ensures Linked(r.ledger)
    decreases |es|
  {
    if es == [] then s else After(Exec(s, es[0]), es[1..])
  }

  lemma {:induction false} AfterConcat(s: System, es: seq<Event>, fs: seq<Event>)
    requires Linked(s.ledger)
    ensures After(s, es + fs) == After(After(s, es), fs)
    decreases |es|
  {
    if es == [] {
      assert es + fs == fs;
    } else {
      assert (es + fs)[0] == es[0] && (es + fs)[1..] == es[1..] + fs;
      AfterConcat(Exec(s, es[0]), es[1..], fs);
    }
  }
}
