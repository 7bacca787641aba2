/** The invariant of the whole protocol: the ledger's, and the agreement of attempts,
    half-read works, works, receipts and messages. It holds after every run. */
module Agreement {
  import opened Collections
  import opened Keys
  import opened LedgerSpec
  import opened Invariant
  import opened Evolution
  import opened Provider
  import opened Protocol

  function Window(config: Config, a: Attempt): Instant {
    a.createdAt + config.paymentWindow * SECOND
  }

  ghost predicate ReceiptRow(config: Config, attempts: map<Uuid, Attempt>, id: Uuid, r: Receipt) {
    && id in attempts && r.amount == attempts[id].amount && r.scenario == attempts[id].scenario
    && r.deadline == Window(config, attempts[id])
    && Consistent(r)
  }

  ghost predicate HalfRow(attempts: map<Uuid, Attempt>, h: Half) {
    && h.id in attempts && h.orderId == attempts[h.id].orderId && h.amount == attempts[h.id].amount
    && h.scenario == attempts[h.id].scenario
  }

  /** A work whose deadline is not its own attempt's can only meet an existing receipt. */
  ghost predicate WorkRow(config: Config, attempts: map<Uuid, Attempt>, receipts: map<Uuid, Receipt>, w: Work) {
    && w.id in attempts && w.orderId == attempts[w.id].orderId && w.amount == attempts[w.id].amount
    && w.scenario == attempts[w.id].scenario
    && w.deadline.Some?
    && (w.deadline == Some(Window(config, attempts[w.id])) || w.id in receipts)
  }

  ghost predicate MessageRow(attempts: map<Uuid, Attempt>, receipts: map<Uuid, Receipt>, m: Message) {
    && m.id in attempts && m.id in receipts && m.amount == attempts[m.id].amount
    && (m.result.ResultUnknown? || receipts[m.id].result == m.result)
  }

  /** A final status in the ledger is the provider's result. */
  ghost predicate AgreeRow(attempts: map<Uuid, Attempt>, receipts: map<Uuid, Receipt>, a: Uuid)
    requires a in attempts
  {
    attempts[a].Terminal() ==> a in receipts && StatusOf(receipts[a].result) == attempts[a].status
  }

  ghost predicate ReceiptsOk(s: System) {
    forall id {:trigger ReceiptRow(s.ledger.config, s.ledger.attempts, id, s.receipts[id])} :: id in s.receipts ==>
      ReceiptRow(s.ledger.config, s.ledger.attempts, id, s.receipts[id])
  }

  ghost predicate HalvesOk(s: System) {
    forall h :: h in s.halves ==> HalfRow(s.ledger.attempts, h)
  }

  ghost predicate WorksOk(s: System) {
    forall w :: w in s.works ==> WorkRow(s.ledger.config, s.ledger.attempts, s.receipts, w)
  }

  ghost predicate MessagesOk(s: System) {
    forall m :: m in s.sent ==> MessageRow(s.ledger.attempts, s.receipts, m)
  }

  ghost predicate AgreesOk(s: System) {
    forall a {:trigger AgreeRow(s.ledger.attempts, s.receipts, a)} :: a in s.ledger.attempts ==>
      AgreeRow(s.ledger.attempts, s.receipts, a)
  }

  ghost predicate MailOk(s: System) {
    ReceiptsOk(s) && HalvesOk(s) && WorksOk(s) && MessagesOk(s)
  }

  ghost predicate Inv(s: System) {
    Valid(s.ledger) && Linked(s.ledger) && MailOk(s) && AgreesOk(s)
  }

  // ---------- ledger steps ----------

  /** The rows outside the ledger speak only of facts that never change. */
  lemma MailSurvives(s: System, M: Ledger)
    requires MailOk(s) && M.config == s.ledger.config && AttemptsGrow(s.ledger, M)
    ensures MailOk(s.(ledger := M))
  {
    var L := s.ledger;
    forall id | id in s.receipts ensures ReceiptRow(M.config, M.attempts, id, s.receipts[id]) {
      assert ReceiptRow(L.config, L.attempts, id, s.receipts[id]);
      assert AttemptGrows(L.attempts[id], M.attempts[id]);
    }
    forall h | h in s.halves ensures HalfRow(M.attempts, h) {
      assert HalfRow(L.attempts, h);
      assert AttemptGrows(L.attempts[h.id], M.attempts[h.id]);
    }
    forall w | w in s.works ensures WorkRow(M.config, M.attempts, s.receipts, w) {
      assert WorkRow(L.config, L.attempts, s.receipts, w);
      assert AttemptGrows(L.attempts[w.id], M.attempts[w.id]);
    }
    forall m | m in s.sent ensures MessageRow(M.attempts, s.receipts, m) {
      assert MessageRow(L.attempts, s.receipts, m);
      assert AttemptGrows(L.attempts[m.id], M.attempts[m.id]);
    }
  }

  /** No attempt becomes final. */
  ghost predicate NoVerdict(L: Ledger, M: Ledger) {
    forall a :: a in M.attempts && M.attempts[a].Terminal() ==> a in L.attempts && L.attempts[a].status == M.attempts[a].status
  }

  lemma AgreementSurvives(s: System, M: Ledger)
    requires AgreesOk(s) && NoVerdict(s.ledger, M)
    ensures AgreesOk(s.(ledger := M))
  {
    forall a | a in M.attempts ensures AgreeRow(M.attempts, s.receipts, a) {
      if M.attempts[a].Terminal() { assert AgreeRow(s.ledger.attempts, s.receipts, a); }
    }
  }

  lemma PurchaseNoVerdict(L: Ledger, c: PurchaseCall)
    ensures NoVerdict(L, Purchase(L, c))
  {
    assert Purchase(L, c).attempts == L.attempts;
  }

  lemma OtherNoVerdict(L: Ledger, e: Event)
    requires Linked(L) && !e.Deliver? && !e.Buy?
    ensures NoVerdict(L, LedgerStep(L, e))
  {
    match e {
      case NewSale(c) => assert CreateSale(L, c).attempts == L.attempts;
      case Pay(c) =>
      case Sweep(id, now) => assert Expire(L, id, now).attempts == L.attempts;
      case Lease(id, now) =>
      case _ =>
    }
  }

  lemma StepEvolves(L: Ledger, e: Event)
    requires Valid(L) && Linked(L)
    requires e.Buy? ==> Validated(e.purchase.request)
    ensures Evolves(L, LedgerStep(L, e))
  {
    match e {
      case NewSale(c) => CreateSaleEvolves(L, c);
      case Buy(c) => PurchaseEvolves(L, c);
      case Pay(c) => StartEvolves(L, c);
      case Deliver(c) => ApplyEvolves(L, c);
      case Sweep(id, now) => ExpireEvolves(L, id, now);
      case Lease(id, now) => ClaimEvolves(L, id, now);
      case _ => EvolvesItself(L);
    }
  }

  lemma StepKeepsValid(L: Ledger, e: Event)
    requires Valid(L) && Linked(L)
    requires e.Buy? ==> Validated(e.purchase.request)
    requires e.NewSale? ==> ValidSale(e.sale)
    ensures Valid(LedgerStep(L, e))
  {
    match e {
      case NewSale(c) => CreateSaleKeepsValid(L, c);
      case Buy(c) => PurchaseKeepsValid(L, c);
      case Pay(c) => StartKeepsValid(L, c);
      case Deliver(c) => ApplyKeepsValid(L, c);
      case Sweep(id, now) => ExpireKeepsValid(L, id, now);
      case Lease(id, now) => ClaimKeepsValid(L, id, now);
      case _ =>
    }
  }

  /** A delivered final result is the one in the receipt. */
  lemma DeliveryAgrees(s: System, c: ApplyCall)
    requires Inv(s) && Enabled(s, Deliver(c))
    ensures AgreesOk(s.(ledger := Apply(s.ledger, c)))
  {
    var L := s.ledger;
    var M := Apply(L, c);
    forall a | a in M.attempts ensures AgreeRow(M.attempts, s.receipts, a) {
      assert a in L.attempts && (a == c.attempt || M.attempts[a] == L.attempts[a]);
      assert AgreeRow(L.attempts, s.receipts, a);
      if a == c.attempt && DecideApply(L, c).Applied? && !c.result.ResultUnknown? {
        var m :| m in s.sent && m.id == c.attempt && m.result == c.result;
        assert MessageRow(L.attempts, s.receipts, m);
      }
    }
  }

  // ---------- reads and submissions ----------

  lemma ReadAttemptKeeps(s: System, id: Uuid)
    requires Inv(s) && Enabled(s, ReadAttempt(id))
    ensures Inv(Effect(s, ReadAttempt(id)))
  {
    var t := Effect(s, ReadAttempt(id));
    forall h | h in t.halves ensures HalfRow(t.ledger.attempts, h) {
      assert h in s.halves ==> HalfRow(s.ledger.attempts, h);
    }
    assert ReceiptsOk(t) && WorksOk(t) && MessagesOk(t) && AgreesOk(t);
  }

  /** The second read finds the attempt's own deadline, or the attempt has failed and
      therefore already has a receipt. */
  lemma ReadHoldKeeps(s: System, h: Half)
    requires Inv(s) && Enabled(s, ReadHold(h))
    ensures Inv(Effect(s, ReadHold(h)))
  {
    var L := s.ledger;
    var t := Effect(s, ReadHold(h));
    var w := Work(h.id, h.orderId, h.amount, h.scenario, L.holds[h.orderId].deadline);
    assert HalfRow(L.attempts, h);
    assert AttemptRow(L.config, L.orders, L.holds, L.attempts[h.id]);
    assert AgreeRow(L.attempts, s.receipts, h.id);
    assert WorkRow(L.config, L.attempts, s.receipts, w);
    forall x | x in t.works ensures WorkRow(L.config, L.attempts, s.receipts, x) {
      assert x in s.works || x == w;
    }
    assert ReceiptsOk(t) && HalvesOk(t) && MessagesOk(t) && AgreesOk(t);
  }

  lemma SubmitReceipt(s: System, w: Work, now: Instant)
    requires Inv(s) && w in s.works && Reply(s.receipts, w, now).Answered?
    ensures ReceiptRow(s.ledger.config, s.ledger.attempts, w.id, Accept(s.receipts, w, now)[w.id])
  {
    var L := s.ledger;
    assert WorkRow(L.config, L.attempts, s.receipts, w);
    AcceptGrows(s.receipts, w, now);
    if w.id in s.receipts {
      assert ReceiptRow(L.config, L.attempts, w.id, s.receipts[w.id]);
      assert ReceiptGrows(s.receipts[w.id], Accept(s.receipts, w, now)[w.id]);
    }
  }

  lemma ReceiptsGrowKeepMail(s: System, t: System)
    requires HalvesOk(s) && WorksOk(s) && MessagesOk(s) && AgreesOk(s)
    requires t.ledger == s.ledger && t.halves == s.halves && t.works == s.works
    requires s.receipts.Keys <= t.receipts.Keys && ReceiptsGrow(s.receipts, t.receipts)
    ensures HalvesOk(t) && WorksOk(t) && AgreesOk(t)
    ensures forall m :: m in s.sent ==> MessageRow(t.ledger.attempts, t.receipts, m)
  {
    var L := s.ledger;
    forall w | w in t.works ensures WorkRow(L.config, L.attempts, t.receipts, w) {
      assert WorkRow(L.config, L.attempts, s.receipts, w);
    }
    forall a | a in L.attempts ensures AgreeRow(L.attempts, t.receipts, a) {
      assert AgreeRow(L.attempts, s.receipts, a);
      assert a in s.receipts ==> ReceiptGrows(s.receipts[a], t.receipts[a]);
    }
    forall m | m in s.sent ensures MessageRow(L.attempts, t.receipts, m) {
      assert MessageRow(L.attempts, s.receipts, m);
      assert ReceiptGrows(s.receipts[m.id], t.receipts[m.id]);
    }
  }

  lemma SubmitKeeps(s: System, w: Work, now: Instant)
    requires Inv(s) && Enabled(s, Submit(w, now))
    ensures Inv(Effect(s, Submit(w, now)))
  {
    if Reply(s.receipts, w, now).Answered? {
      var L := s.ledger;
      var t := Effect(s, Submit(w, now));
      SubmitReceipt(s, w, now);
      AcceptGrows(s.receipts, w, now);
      ReceiptsGrowKeepMail(s, t);
      forall id | id in t.receipts ensures ReceiptRow(L.config, L.attempts, id, t.receipts[id]) {
        assert id != w.id ==> ReceiptRow(L.config, L.attempts, id, s.receipts[id]);
      }
      assert WorkRow(L.config, L.attempts, s.receipts, w);
    }
  }

  // ---------- runs ----------

  lemma ExecKeepsInv(s: System, e: Event)
    requires Inv(s)
    ensures Inv(Exec(s, e))
  {
    if Enabled(s, e) {
      match e {
        case ReadAttempt(id) => ReadAttemptKeeps(s, id);
        case ReadHold(h) => ReadHoldKeeps(s, h);
        case Submit(w, now) => SubmitKeeps(s, w, now);
        case _ => LedgerStepKeepsInv(s, e);
      }
    }
  }

  predicate OnLedger(e: Event) { !e.ReadAttempt? && !e.ReadHold? && !e.Submit? }

  lemma LedgerStepKeepsInv(s: System, e: Event)
    requires Inv(s) && Enabled(s, e) && OnLedger(e)
    ensures Inv(s.(ledger := LedgerStep(s.ledger, e)))
  {
    StepKeepsValid(s.ledger, e);
    StepLinked(s.ledger, e);
    StepEvolves(s.ledger, e);
    MailSurvives(s, LedgerStep(s.ledger, e));
    StepAgrees(s, e);
  }

  lemma StepAgrees(s: System, e: Event)
    requires Inv(s) && Enabled(s, e) && OnLedger(e)
    ensures AgreesOk(s.(ledger := LedgerStep(s.ledger, e)))
  {
    if e.Deliver? {
      DeliveryAgrees(s, e.call);
    } else {
      if e.Buy? { PurchaseNoVerdict(s.ledger, e.purchase); } else { OtherNoVerdict(s.ledger, e); }
      AgreementSurvives(s, LedgerStep(s.ledger, e));
    }
  }

  lemma InitialInv(config: Config)
    ensures Inv(Initial(config))
  {
  }

  /** The invariant holds after every run, whatever the interleaving and the clocks. */
  lemma {:induction false} RunKeepsInv(s: System, es: seq<Event>)
    requires Inv(s)
    ensures Inv(After(s, es))
    decreases |es|
  {
    if es != [] {
      ExecKeepsInv(s, es[0]);
      RunKeepsInv(Exec(s, es[0]), es[1..]);
    }
  }

  ghost predicate Moves(s: System, t: System) {
    Evolves(s.ledger, t.ledger) && s.receipts.Keys <= t.receipts.Keys && ReceiptsGrow(s.receipts, t.receipts)
  }

  lemma ExecMoves(s: System, e: Event)
    requires Inv(s)
    ensures Moves(s, Exec(s, e))
  {
    EvolvesItself(s.ledger);
    if Enabled(s, e) {
      if OnLedger(e) {
        StepEvolves(s.ledger, e);
      } else if e.Submit? {
        AcceptGrows(s.receipts, e.work, e.now);
      }
    }
  }

  lemma MovesOn(s: System, t: System, u: System)
    requires Moves(s, t) && Moves(t, u) && SalesOk(t.ledger.sales, t.ledger.items)
    ensures Moves(s, u)
  {
    EvolvesOn(s.ledger, t.ledger, u.ledger);
    forall id | id in s.receipts ensures ReceiptGrows(s.receipts[id], u.receipts[id]) {
      assert ReceiptGrows(s.receipts[id], t.receipts[id]) && ReceiptGrows(t.receipts[id], u.receipts[id]);
    }
  }

  /** Nothing that `Evolves` fixes is undone by any continuation of a run. */
  lemma {:induction false} RunMoves(s: System, es: seq<Event>)
    requires Inv(s)
    ensures Moves(s, After(s, es))
    decreases |es|
  {
    EvolvesItself(s.ledger);
    if es != [] {
      var t := Exec(s, es[0]);
      ExecKeepsInv(s, es[0]);
      ExecMoves(s, es[0]);
      RunMoves(t, es[1..]);
      MovesOn(s, t, After(t, es[1..]));
    }
  }
}
