/** The way into the purchase transaction: ticket, replay, freshness, gate, transaction. */
module PurchaseService {
  import opened Collections
  import opened Keys
  import opened LedgerSpec
  import opened Invariant
  import opened Protocol
  import opened Refusals
  import opened RunProperties
  import opened Database
  import AdmissionGate
  import PurchaseTransactionService

  datatype Claims = Claims(user: string, key: string, fingerprint: string, expiresAt: int)

  /** A supplied ticket after its signature and its text have been checked. */
  datatype Ticket = NoTicket | Unverifiable | Verified(claims: Claims)

  datatype Visit = Visit(call: PurchaseCall, ticket: Ticket, freshAt: int, token: AdmissionGate.Token, gateAt: AdmissionGate.Millis,
                         enterFault: AdmissionGate.Fault, leaveFault: AdmissionGate.Fault)

  datatype Reply = Served(order: Uuid) | Turned(error: Error)

  function CheckTicket(v: Visit): Option<Error> {
    match v.ticket
    case NoTicket => Some(AdmissionRequired)
    case Unverifiable => Some(InvalidAdmission)
    case Verified(claims) =>
      if claims.user == v.call.user && claims.key == v.call.key && claims.fingerprint == Fingerprint(v.call.request) then None
      else Some(InvalidAdmission)
  }

  /** What is answered before the gate is touched. */
  function BeforeGate(L: Ledger, ticketRequired: bool, v: Visit): Option<Reply> {
    if !ValidIdentity(v.call.user, v.call.key) then Some(Turned(InvalidIdentity))
    else if !Distinct(v.call.request.items) then Some(Turned(DuplicateItem))
    else if !ticketRequired then None
    else if CheckTicket(v).Some? then Some(Turned(CheckTicket(v).value))
    else
      var existing := ByKey(L.orders, v.call.user, v.call.key);
      if existing.Some? then
        if L.orders[existing.value].fingerprint != Fingerprint(v.call.request) then Some(Turned(KeyReused))
        else Some(Served(existing.value))
      else if v.ticket.claims.expiresAt <= v.freshAt then Some(Turned(AdmissionExpired))
      else None
  }

  /** The ticket is for this user, this key and this basket. */
  ghost predicate Fits(v: Visit) {
    v.ticket.Verified? && v.ticket.claims.user == v.call.user && v.ticket.claims.key == v.call.key
    && v.ticket.claims.fingerprint == Fingerprint(v.call.request)
  }

  /** Every answer given before the gate, the order of the checks included. */
  lemma FrontAnswers(L: Ledger, ticketRequired: bool, v: Visit)
    requires KeysOk(L.orders)
    ensures var answer, named := BeforeGate(L, ticketRequired, v), Named(v.call.user) && Named(v.call.key);
            var sound := named && !Repeats(v.call);
            && (answer == Some(Turned(InvalidIdentity)) <==> !named)
            && (answer == Some(Turned(DuplicateItem)) <==> named && Repeats(v.call))
            && (answer == Some(Turned(AdmissionRequired)) <==> sound && ticketRequired && v.ticket.NoTicket?)
            && (answer == Some(Turned(InvalidAdmission)) <==> sound && ticketRequired && !v.ticket.NoTicket? && !Fits(v))
            && (answer == Some(Turned(KeyReused)) <==>
                 sound && ticketRequired && Fits(v)
                 && exists id: Uuid :: KeyTaken(L, v.call, id) && L.orders[id].fingerprint != Fingerprint(v.call.request))
            && (forall id: Uuid :: answer == Some(Served(id)) <==>
                 sound && ticketRequired && Fits(v) && KeyTaken(L, v.call, id) && L.orders[id].fingerprint == Fingerprint(v.call.request))
            && (answer == Some(Turned(AdmissionExpired)) <==>
                 sound && ticketRequired && Fits(v) && !KeyUsed(L, v.call) && v.ticket.claims.expiresAt <= v.freshAt)
            && (answer == None <==>
                 sound && (ticketRequired ==> Fits(v) && !KeyUsed(L, v.call) && v.freshAt < v.ticket.claims.expiresAt))
  {
    IdentityRule(v.call.user, v.call.key);
    KeyFree(L, v.call);
    forall id: Uuid | KeyTaken(L, v.call, id) ensures ByKey(L.orders, v.call.user, v.call.key) == Some(id) {
      ByKeyFinds(L, id, v.call.user, v.call.key);
    }
  }

  /** A ticket issued for a basket passes exactly with its own user and key and with a basket of the
      same sale and the same item quantities, in any order. */
  lemma TicketBinds(v: Visit, issued: PurchaseRequest)
    requires Validated(issued) && Distinct(issued.items) && Validated(v.call.request) && Distinct(v.call.request.items)
    requires v.ticket.Verified? && v.ticket.claims.fingerprint == Fingerprint(issued)
    ensures CheckTicket(v).None? <==>
      v.ticket.claims.user == v.call.user && v.ticket.claims.key == v.call.key
      && issued.saleId == v.call.request.saleId && Wanted(issued.items) == Wanted(v.call.request.items)
  {
    FingerprintCanonical(issued, v.call.request);
  }

  /** The transaction is told when the ticket expires. */
  function Told(ticketRequired: bool, v: Visit): PurchaseCall
    requires ticketRequired ==> v.ticket.Verified?
  {
    v.call.(admission := if ticketRequired then Some(v.ticket.claims.expiresAt) else None)
  }

  function ReplyOf(a: PurchaseAnswer): Reply {
    match a
    case Replayed(id) => Served(id)
    case Placed(id) => Served(id)
    case Refused(e) => Turned(e)
  }

  /** The order of a replay or of a new purchase is served; a refusal turns the caller away with its
      own error. */
  lemma RepliesAlike(a: PurchaseAnswer)
    ensures forall id :: ReplyOf(a) == Served(id) <==> a == Replayed(id) || a == Placed(id)
    ensures forall e :: ReplyOf(a) == Turned(e) <==> a == Refused(e)
  {
  }

  /** The gate lets the request through to the transaction. */
  predicate LetThrough(enabled: bool, limits: AdmissionGate.Limits, r: AdmissionGate.Redis, v: Visit) {
    !enabled || (v.enterFault.NoFault? && AdmissionGate.Admits(limits, r, v.gateAt))
  }

  /** The gate's keys after a request that has reached the gate. */
  function GateAfter(enabled: bool, limits: AdmissionGate.Limits, r: AdmissionGate.Redis, v: Visit): AdmissionGate.Redis {
    if !enabled || v.enterFault.Unreachable? then r
    else
      var entered := AdmissionGate.Enter(limits, r, v.token, v.gateAt);
      if LetThrough(enabled, limits, r, v) && !v.leaveFault.Unreachable? then AdmissionGate.Leave(entered, v.token) else entered
  }

  /** A new token stays in the gate exactly when it was admitted and either the reply that
      admitted it was lost or Redis could not be reached to return it. */
  lemma PermitLeft(enabled: bool, limits: AdmissionGate.Limits, r: AdmissionGate.Redis, v: Visit)
    requires v.token !in r.holders
    ensures v.token in GateAfter(enabled, limits, r, v).holders <==>
      enabled && AdmissionGate.Admits(limits, r, v.gateAt)
      && (v.enterFault.ReplyLost? || (v.enterFault.NoFault? && v.leaveFault.Unreachable?))
  {
  }

  /** The permit is taken before the transaction and given back after it, however it ends. */
  method ThroughGate(db: Tables, gate: AdmissionGate.Gate, c: PurchaseCall, v: Visit) returns (reply: Reply)
    requires db.Good() && Validated(c.request)
    modifies db`items, db`orders, db`holds, gate
    ensures db.Good()
    ensures gate.redis == GateAfter(gate.enabled, gate.limits, old(gate.redis), v)
    ensures if LetThrough(gate.enabled, gate.limits, old(gate.redis), v)
            then reply == ReplyOf(DecidePurchase(old(db.State()), c)) && db.State() == Purchase(old(db.State()), c)
            else db.State() == old(db.State())
                 && reply == Turned(if v.enterFault.NoFault? then PurchaseBusy else AdmissionUnavailable)
  {
    var permit := gate.TryEnter(v.token, v.gateAt, v.enterFault);
    if permit.Busy? { return Turned(PurchaseBusy); }
    if permit.Unavailable? { return Turned(AdmissionUnavailable); }
    var answer, view := PurchaseTransactionService.PurchaseOrder(db, c);
    ghost var entered := gate.redis;
    gate.ReturnPermit(permit.permit, v.leaveFault);
    AdmissionGate.Returned(entered, gate.redis, permit.permit, v.leaveFault);
    reply := ReplyOf(answer);
  }

  /** One request from start to end: ticket, replay, freshness, gate, transaction, permit. */
  method Visiting(db: Tables, gate: AdmissionGate.Gate, ticketRequired: bool, v: Visit) returns (reply: Reply)
    requires db.Good() && Validated(v.call.request)
    modifies db`items, db`orders, db`holds, gate
    ensures db.Good()
    ensures BeforeGate(old(db.State()), ticketRequired, v).Some? ==>
      reply == BeforeGate(old(db.State()), ticketRequired, v).value && db.State() == old(db.State()) && gate.redis == old(gate.redis)
    ensures BeforeGate(old(db.State()), ticketRequired, v).None? ==>
      && (ticketRequired ==> v.ticket.Verified?)
      && gate.redis == GateAfter(gate.enabled, gate.limits, old(gate.redis), v)
      && if LetThrough(gate.enabled, gate.limits, old(gate.redis), v)
         then reply == ReplyOf(DecidePurchase(old(db.State()), Told(ticketRequired, v)))
              && db.State() == Purchase(old(db.State()), Told(ticketRequired, v))
         else db.State() == old(db.State())
              && reply == Turned(if v.enterFault.NoFault? then PurchaseBusy else AdmissionUnavailable)
    ensures v.token !in old(gate.redis.holders) ==>
      (v.token in gate.redis.holders <==>
        && BeforeGate(old(db.State()), ticketRequired, v).None? && gate.enabled
        && AdmissionGate.Admits(gate.limits, old(gate.redis), v.gateAt)
        && (v.enterFault.ReplyLost? || (v.enterFault.NoFault? && v.leaveFault.Unreachable?)))
  {
    if !ValidIdentity(v.call.user, v.call.key) { return Turned(InvalidIdentity); }
    if !Distinct(v.call.request.items) { return Turned(DuplicateItem); }
    if ticketRequired {
      var refusal := CheckTicket(v);
      if refusal.Some? { return Turned(refusal.value); }
      var replay := ReplayOf(db, v.call);
      if replay.Some? { return replay.value; }
      if v.ticket.claims.expiresAt <= v.freshAt { return Turned(AdmissionExpired); }
    }
    if v.token !in gate.redis.holders { PermitLeft(gate.enabled, gate.limits, gate.redis, v); }
    reply := ThroughGate(db, gate, Told(ticketRequired, v), v);
  }

  method ReplayOf(db: Tables, c: PurchaseCall) returns (reply: Option<Reply>)
    ensures reply == var existing := ByKey(db.orders, c.user, c.key);
                     if existing.None? then None
                     else if db.orders[existing.value].fingerprint != Fingerprint(c.request) then Some(Turned(KeyReused))
                     else Some(Served(existing.value))
  {
    var existing := ByKey(db.orders, c.user, c.key);
    if existing.None? { return None; }
    if db.orders[existing.value].fingerprint != Fingerprint(c.request) { return Some(Turned(KeyReused)); }
    reply := Some(Served(existing.value));
  }

  lemma ReplayedAtOnce(L: Ledger, v: Visit, id: Uuid)
    requires ValidIdentity(v.call.user, v.call.key) && CheckTicket(v).None?
    requires DecidePurchase(L, v.call) == Replayed(id)
    ensures BeforeGate(L, true, v) == Some(Served(id))
  {
  }

  /** A committed purchase is answered for ever to the holder of a matching ticket, before the
      gate is touched: whatever the ticket's expiry, the gate, the stock or the sale. */
  lemma CommittedReplayNeedsNothing(config: Config, es: seq<Event>, fs: seq<Event>, c: PurchaseCall, v: Visit)
    requires Validated(c.request) && Validated(v.call.request) && Distinct(v.call.request.items)
    requires DecidePurchase(Reached(config, es).ledger, c).Placed?
    requires ValidIdentity(c.user, c.key) && v.call.user == c.user && v.call.key == c.key
    requires v.call.request.saleId == c.request.saleId && Wants(v.call) == Wants(c)
    requires CheckTicket(v).None?
    ensures BeforeGate(Reached(config, es + [Buy(c)] + fs).ledger, true, v) == Some(Served(c.id))
  {
    ReplayForEver(config, es, fs, c, v.call);
    ReplayedAtOnce(Reached(config, es + [Buy(c)] + fs).ledger, v, c.id);
  }

  /** An expired ticket takes no stock, however long the caller waited at the gate or for locks. */
  lemma ExpiredTicketTakesNothing(L: Ledger, v: Visit)
    requires BeforeGate(L, true, v).None?
    requires v.ticket.claims.expiresAt <= v.call.millis
    ensures !DecidePurchase(L, Told(true, v)).Placed? && Purchase(L, Told(true, v)) == L
  {
  }
}
