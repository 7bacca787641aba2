/** The payment provider's durable receipts. One `accept` is one transaction; its clock
    reading comes first and may be older than the insertion. */
module Provider {
  import opened Collections
  import opened LedgerSpec

  datatype Work = Work(id: Uuid, orderId: Uuid, amount: int, scenario: Scenario, deadline: Option<Instant>)
  datatype Receipt = Receipt(amount: int, scenario: Scenario, acceptedAt: Instant, deadline: Instant, result: Result)
  datatype Answer = Answered(result: Result, lost: bool) | InvalidRequest | IdempotencyConflict

  function FirstResult(scenario: Scenario, now: Instant, deadline: Instant): Result {
    if now >= deadline then ResultFailed else
      match scenario
      case Failure => ResultFailed
      case NeverResolved => ResultUnknown
      case DelayedSuccess => ResultUnknown
      case Success => ResultSucceeded
      case LostResponse => ResultSucceeded
  }

  predicate Acceptable(w: Work) { w.amount > 0 && w.deadline.Some? }

  /** The row the request meets: the stored one, or the one it has just inserted. */
  function Row(receipts: map<Uuid, Receipt>, w: Work, now: Instant): Receipt
    requires Acceptable(w)
  {
    if w.id in receipts then receipts[w.id]
    else Receipt(w.amount, w.scenario, now, w.deadline.value, FirstResult(w.scenario, now, w.deadline.value))
  }

  predicate Matches(r: Receipt, w: Work) { r.amount == w.amount && r.scenario == w.scenario }

  /** A delayed success matures three seconds after its acceptance. */
  function Matured(r: Receipt, now: Instant): Receipt {
    if r.scenario.DelayedSuccess? && r.result.ResultUnknown? && r.acceptedAt + 3 * SECOND <= now
    then r.(result := ResultSucceeded) else r
  }

  function Reply(receipts: map<Uuid, Receipt>, w: Work, now: Instant): Answer {
    if !Acceptable(w) then InvalidRequest
    else if !Matches(Row(receipts, w, now), w) then IdempotencyConflict
    else Answered(Matured(Row(receipts, w, now), now).result, w.id !in receipts && w.scenario.LostResponse?)
  }

  function Accept(receipts: map<Uuid, Receipt>, w: Work, now: Instant): map<Uuid, Receipt> {
    if Reply(receipts, w, now).Answered? then receipts[w.id := Matured(Row(receipts, w, now), now)] else receipts
  }

  /** What a stored result says about the first acceptance. */
  ghost predicate Consistent(r: Receipt) {
    match r.result
    case ResultFailed => r.acceptedAt >= r.deadline || r.scenario.Failure?
    case ResultSucceeded => r.acceptedAt < r.deadline && (r.scenario.Success? || r.scenario.LostResponse? || r.scenario.DelayedSuccess?)
    case ResultUnknown => r.acceptedAt < r.deadline && (r.scenario.NeverResolved? || r.scenario.DelayedSuccess?)
  }

  /** A receipt keeps its facts, and a final result stays. */
  ghost predicate ReceiptGrows(r: Receipt, q: Receipt) {
    && q.amount == r.amount && q.scenario == r.scenario && q.acceptedAt == r.acceptedAt && q.deadline == r.deadline
    && (!r.result.ResultUnknown? ==> q.result == r.result)
  }

  ghost predicate ReceiptsGrow(a: map<Uuid, Receipt>, b: map<Uuid, Receipt>) {
    && (forall id :: id in a ==> id in b)
    && forall id {:trigger ReceiptGrows(a[id], b[id])} :: id in a ==> ReceiptGrows(a[id], b[id])
  }

  lemma AcceptGrows(receipts: map<Uuid, Receipt>, w: Work, now: Instant)
    ensures ReceiptsGrow(receipts, Accept(receipts, w, now))
    ensures w.id in receipts && Consistent(receipts[w.id]) && w.id in Accept(receipts, w, now)
        ==> Consistent(Accept(receipts, w, now)[w.id])
    ensures w.id !in receipts && w.id in Accept(receipts, w, now)
        ==> Consistent(Accept(receipts, w, now)[w.id])
  {
  }
}
