/** The worker: its execution slots, the drain of due payments, and the expiry sweep. */
module MockPaymentStore {
  import opened Collections
  import opened LedgerSpec
  import opened Provider

  class Store {
    var receipts: map<Uuid, Receipt>

    constructor ()
      ensures receipts == map[]
    {
      receipts := map[];
    }

    method AcceptWork(w: Work, now: Instant) returns (answer: Answer)
      modifies this
      ensures answer == Reply(old(receipts), w, now)
      ensures receipts == Accept(old(receipts), w, now)
    {
      if w.amount <= 0 || w.deadline.None? { return InvalidRequest; }
      var stored := receipts;
      var initial :=
        if !(now < w.deadline.value) then ResultFailed
        else if w.scenario.Failure? then ResultFailed
        else if w.scenario.NeverResolved? || w.scenario.DelayedSuccess? then ResultUnknown
        else ResultSucceeded;
      var inserted := w.id !in receipts;
      if inserted { receipts := receipts[w.id := Receipt(w.amount, w.scenario, now, w.deadline.value, initial)]; }
      var row := receipts[w.id];
      if row.amount != w.amount || row.scenario != w.scenario {
        receipts := stored;
        return IdempotencyConflict;
      }
      var result := row.result;
      if w.scenario.DelayedSuccess? && result.ResultUnknown? && row.acceptedAt + 3 * SECOND <= now {
        result := ResultSucceeded;
        receipts := receipts[w.id := row.(result := result)];
      }
      answer := Answered(result, inserted && w.scenario.LostResponse?);
      assert receipts == Accept(stored, w, now);
    }
  }
}

module Worker {
  import opened Collections
  import opened LedgerSpec
  import opened Invariant
  import opened Evolution
  import opened Provider
  import opened Protocol
  import opened Agreement
  import opened Answers
  import opened Database
  import MockPaymentStore
  import PaymentJobs
  import PaymentService
  import ReservationService

  // ---------- draining ----------

  /** What may happen to one HTTP call. */
  datatype Call = Delivered | NoAnswer | NotSent

  /** The ledger and the receipts, with no message under way. */
  ghost function Quiet(L: Ledger, receipts: map<Uuid, Receipt>): System {
    System(L, receipts, {}, {}, {})
  }

  lemma Quieten(s: System)
    requires Inv(s)
    ensures Inv(Quiet(s.ledger, s.receipts))
  {
    var q := Quiet(s.ledger, s.receipts);
    assert ReceiptsOk(q) by {
      forall id | id in q.receipts ensures ReceiptRow(q.ledger.config, q.ledger.attempts, id, q.receipts[id]) {
        assert ReceiptRow(s.ledger.config, s.ledger.attempts, id, s.receipts[id]);
      }
    }
    assert AgreesOk(q) by {
      forall a | a in q.ledger.attempts ensures AgreeRow(q.ledger.attempts, q.receipts, a) {
        assert AgreeRow(s.ledger.attempts, s.receipts, a);
      }
    }
  }

  /** `resolve`: any failure, lost answer or refusal is an unknown result. */
  method Resolve(pg: MockPaymentStore.Store, work: Work, now: Instant, call: Call) returns (result: Result)
    modifies pg
    ensures pg.receipts == if call.NotSent? then old(pg.receipts) else Accept(old(pg.receipts), work, now)
    ensures result == if call.Delivered? then Heard(Reply(old(pg.receipts), work, now)) else ResultUnknown
  {
    if call.NotSent? { return ResultUnknown; }
    var answer := pg.AcceptWork(work, now);
    if call.NoAnswer? || !answer.Answered? || answer.lost { return ResultUnknown; }
    result := answer.result;
  }

  /** One uninterrupted job seen as protocol events. */
  lemma JobKeepsInv(L: Ledger, R: map<Uuid, Receipt>, id: Uuid, now: Instant, sent: bool, result: Result)
    requires Inv(Quiet(L, R)) && id in L.attempts && !L.attempts[id].Terminal()
    requires L.attempts[id].orderId in L.holds
    ensures var w := WorkOf(L, id);
            var S := if sent then Accept(R, w, now) else R;
            var c := ApplyCall(id, w.amount, result, now, now, now);
            && Reply(R, w, now).Answered?
            && (result.ResultUnknown? || (sent && result == Reply(R, w, now).result) ==>
                 Inv(Quiet(Apply(L, c), S)) && DecideApply(L, c).Applied?)
  {
    var w := WorkOf(L, id);
    var c := ApplyCall(id, w.amount, result, now, now, now);
    var s0 := Quiet(L, R);
    var half := Half(id, L.attempts[id].orderId, L.attempts[id].amount, L.attempts[id].scenario);
    var s1 := s0.(halves := {half});
    ReadAttemptKeeps(s0, id);
    assert Effect(s0, ReadAttempt(id)).halves == {half};
    var s2 := s1.(works := {w});
    ReadHoldKeeps(s1, half);
    assert Effect(s1, ReadHold(half)).works == {w};
    Accepted(s2, w, now);
    if result.ResultUnknown? || (sent && result == Reply(R, w, now).result) {
      var s3 := if sent then Effect(s2, Submit(w, now)) else s2;
      if sent { SubmitKeeps(s2, w, now); }
      DeliverJob(s3, c, sent && !result.ResultUnknown?);
    }
  }

  ghost function WorkOf(L: Ledger, id: Uuid): Work
    requires id in L.attempts && L.attempts[id].orderId in L.holds
  {
    var a := L.attempts[id];
    Work(id, a.orderId, a.amount, a.scenario, L.holds[a.orderId].deadline)
  }

  lemma DeliverJob(s: System, c: ApplyCall, sent: bool)
    requires Inv(s) && c.attempt in s.ledger.attempts && !s.ledger.attempts[c.attempt].Terminal()
    requires c.amount == s.ledger.attempts[c.attempt].amount
    requires if sent then Message(c.attempt, c.amount, c.result) in s.sent else c.result.ResultUnknown?
    ensures Inv(Quiet(Apply(s.ledger, c), s.receipts)) && DecideApply(s.ledger, c).Applied?
  {
    if sent {
      var m := Message(c.attempt, c.amount, c.result);
      assert m in s.sent && m.id == c.attempt && m.result == c.result;
    }
    assert Enabled(s, Deliver(c));
    LedgerStepKeepsInv(s, Deliver(c));
    Quieten(s.(ledger := Apply(s.ledger, c)));
    OpenAttempt(s.ledger, c.attempt);
  }

  /** At a standing clock a result takes the attempt out of the due set. */
  lemma AppliedNotDue(L: Ledger, id: Uuid, c: ApplyCall, now: Instant)
    requires Linked(L) && c.attempt == id && c.checkFrom == now && DecideApply(L, c).Applied?
    requires id !in Claimable(L, now)
    ensures Claimable(Apply(L, c), now) == Claimable(L, now)
  {
    AppliedAttempts(L, c);
  }

  lemma AppliedAttempts(L: Ledger, c: ApplyCall)
    requires Linked(L) && DecideApply(L, c).Applied?
    ensures Apply(L, c).attempts == L.attempts[c.attempt := LedgerSpec.Resolve(L.attempts[c.attempt], c)]
  {
  }

  /** `claimed` are distinct due attempts and `left` the due attempts without them. */
  ghost predicate Progress(due: set<Uuid>, claimed: seq<Uuid>, left: set<Uuid>) {
    && (forall a :: a in claimed ==> a in due)
    && (forall i, j :: 0 <= i < j < |claimed| ==> claimed[i] != claimed[j])
    && forall a :: a in left <==> a in due && a !in claimed
  }

  lemma ProgressOn(due: set<Uuid>, claimed: seq<Uuid>, left: set<Uuid>, id: Uuid)
    requires Progress(due, claimed, left) && id in left
    ensures Progress(due, claimed + [id], left - {id}) && |left - {id}| < |left|
  {
  }

  /** A drain that runs alone with a standing clock, whatever happens to its calls: it claims due
      attempts only, each at most once, and no job throws. Unless a shutdown or an interrupt stops
      it (`stops(n)` before the n-th claim) it ends with none due. */
  method Drain(db: Tables, pg: MockPaymentStore.Store, now: Instant, calls: nat -> Call, stops: nat -> bool)
    returns (claimed: seq<Uuid>, answers: seq<Option<ApplyAnswer>>)
    requires Inv(Quiet(db.State(), pg.receipts))
    modifies db, pg
    ensures Inv(Quiet(db.State(), pg.receipts))
    ensures Progress(Claimable(old(db.State()), now), claimed, Claimable(db.State(), now))
    ensures |answers| == |claimed| && forall n :: 0 <= n < |answers| ==> answers[n] == Some(Applied)
    ensures (forall n :: !stops(n)) ==> Claimable(db.State(), now) == {}
  {
    claimed, answers := [], [];
    ghost var due := Claimable(db.State(), now);
    ghost var left := due;
    while !stops(|claimed|)
      invariant Inv(Quiet(db.State(), pg.receipts))
      invariant left == Claimable(db.State(), now) && Progress(due, claimed, left)
      invariant |answers| == |claimed| && forall n :: 0 <= n < |answers| ==> answers[n] == Some(Applied)
      decreases |left|
    {
      var job, answer := OneJob(db, pg, now, calls(|claimed|));
      if job.None? { break; }
      ProgressOn(due, claimed, left, job.value);
      left := left - {job.value};
      claimed, answers := claimed + [job.value], answers + [answer];
    }
  }

  /** One turn of the loop. */
  method OneJob(db: Tables, pg: MockPaymentStore.Store, now: Instant, call: Call)
    returns (job: Option<Uuid>, answer: Option<ApplyAnswer>)
    requires Inv(Quiet(db.State(), pg.receipts))
    modifies db, pg
    ensures Inv(Quiet(db.State(), pg.receipts))
    ensures job.None? ==> Claimable(old(db.State()), now) == {} == Claimable(db.State(), now)
    ensures job.Some? ==>
      && job.value in Claimable(old(db.State()), now) && answer == Some(Applied)
      && Claimable(db.State(), now) == Claimable(old(db.State()), now) - {job.value}
  {
    answer := None;
    job := NextJob(db, pg, now);
    if job.Some? { answer := RunJob(db, pg, job.value, now, call); }
  }

  method NextJob(db: Tables, pg: MockPaymentStore.Store, now: Instant) returns (job: Option<Uuid>)
    requires Inv(Quiet(db.State(), pg.receipts))
    modifies db`attempts
    ensures Inv(Quiet(db.State(), pg.receipts))
    ensures job.None? ==> Claimable(old(db.State()), now) == {} && db.State() == old(db.State())
    ensures job.Some? ==>
      && job.value in Claimable(old(db.State()), now)
      && Claimable(db.State(), now) == Claimable(old(db.State()), now) - {job.value}
      && job.value in db.attempts && !db.attempts[job.value].Terminal()
  {
    ghost var q := Quiet(db.State(), pg.receipts);
    job := PaymentJobs.ClaimJob(db, now, {});
    if job.Some? {
      LedgerStepKeepsInv(q, Lease(job.value, now));
      assert Quiet(db.State(), pg.receipts) == q.(ledger := LedgerStep(q.ledger, Lease(job.value, now)));
    }
  }

  /** The answer is what `apply` did; a conflict would be an exception that ends the drain. */
  method RunJob(db: Tables, pg: MockPaymentStore.Store, id: Uuid, now: Instant, call: Call) returns (answer: Option<ApplyAnswer>)
    requires Inv(Quiet(db.State(), pg.receipts))
    requires id in db.attempts && !db.attempts[id].Terminal() && id !in Claimable(db.State(), now)
    modifies db, pg
    ensures Inv(Quiet(db.State(), pg.receipts))
    ensures Claimable(db.State(), now) == Claimable(old(db.State()), now)
    ensures answer == Some(Applied)
    ensures old(db.attempts)[id].orderId in old(db.holds) && id in db.attempts
    ensures db.attempts[id].status ==
      StatusOf(if call.Delivered? then Heard(Reply(old(pg.receipts), WorkOf(old(db.State()), id), now)) else ResultUnknown)
  {
    ghost var L, R := db.State(), pg.receipts;
    EvolvesItself(L);
    var work := PaymentService.ReadWork(db, db, id);
    answer := None;
    if work.Some? {
      assert work.value == WorkOf(L, id);
      var result := Resolve(pg, work.value, now, call);
      JobKeepsInv(L, R, id, now, !call.NotSent?, result);
      var c := ApplyCall(id, work.value.amount, result, now, now, now);
      var applied := PaymentService.ApplyResult(db, c);
      AppliedNotDue(L, id, c, now);
      answer := Some(applied);
    }
  }

  // ---------- the expiry sweep ----------

  /** The ledger after the first `n` of the listed orders have been tried, each at its own
      clock reading. */
  ghost function Swept(L: Ledger, ids: seq<Uuid>, n: nat, clock: nat -> Instant): (M: Ledger)
    requires Linked(L) && n <= |ids|
    ensures Linked(M)
  {
    if n == 0 then L else
      var M := Swept(L, ids, n - 1, clock);
      StepLinked(M, Sweep(ids[n - 1], clock(n - 1)));
      Expire(M, ids[n - 1], clock(n - 1))
  }

  ghost predicate Batch(L: Ledger, ids: seq<Uuid>, now: Instant)
    requires Linked(L)
  {
    && (forall i, j :: 0 <= i < j < |ids| ==> ids[i] != ids[j])
    && forall id :: id in ids ==> id in ReservationService.DueOrders(L, now)
  }

  /** The hold of `k` was over when its turn came among the first `n`. */
  ghost predicate Over(holds: map<Uuid, Hold>, ids: seq<Uuid>, n: nat, clock: nat -> Instant, k: Uuid)
    requires n <= |ids| && k in holds
  {
    exists j :: 0 <= j < n && ids[j] == k && holds[k].expiresAt <= clock(j)
  }

  ghost predicate SweptRow(L: Ledger, M: Ledger, k: Uuid, over: bool)
    requires k in L.orders && k in L.holds
  {
    && k in M.orders && k in M.holds
    && M.orders[k] == (if over then L.orders[k].(status := OrderExpired) else L.orders[k])
    && M.holds[k] == (if over then L.holds[k].(status := HoldExpired) else L.holds[k])
  }

  lemma ExpireRows(L: Ledger, id: Uuid, now: Instant, k: Uuid)
    requires Linked(L) && k in L.orders && k in L.holds
    ensures SweptRow(L, Expire(L, id, now), k, k == id && Expires(L, id, now))
  {
  }

  lemma OverStep(holds: map<Uuid, Hold>, ids: seq<Uuid>, n: nat, clock: nat -> Instant, k: Uuid)
    requires 0 < n <= |ids| && k in holds && forall i, j :: 0 <= i < j < |ids| ==> ids[i] != ids[j]
    ensures Over(holds, ids, n, clock, k) <==>
      if k == ids[n - 1] then holds[k].expiresAt <= clock(n - 1) else Over(holds, ids, n - 1, clock, k)
    ensures k == ids[n - 1] ==> !Over(holds, ids, n - 1, clock, k)
  {
  }

  lemma {:induction false} SweptAt(L: Ledger, ids: seq<Uuid>, n: nat, now: Instant, clock: nat -> Instant, k: Uuid)
    requires Linked(L) && n <= |ids| && Batch(L, ids, now) && k in L.orders
    ensures SweptRow(L, Swept(L, ids, n, clock), k, Over(L.holds, ids, n, clock, k))
  {
    if n > 0 {
      var M := Swept(L, ids, n - 1, clock);
      SweptAt(L, ids, n - 1, now, clock, k);
      OverStep(L.holds, ids, n, clock, k);
      ExpireRows(M, ids[n - 1], clock(n - 1), k);
      assert ids[n - 1] in ids;
      assert k == ids[n - 1] ==> Expires(L, k, now);
    }
  }

  lemma {:induction false} SweptKeys(L: Ledger, ids: seq<Uuid>, n: nat, clock: nat -> Instant)
    requires Linked(L) && n <= |ids|
    ensures Swept(L, ids, n, clock).orders.Keys == L.orders.Keys
  {
    if n > 0 { SweptKeys(L, ids, n - 1, clock); }
  }

  /** What a complete batch leaves behind. */
  ghost predicate SweptExactly(L: Ledger, M: Ledger, ids: seq<Uuid>, clock: nat -> Instant)
    requires Linked(L)
  {
    && M.orders.Keys == L.orders.Keys
    && forall k :: k in L.orders ==> SweptRow(L, M, k, Over(L.holds, ids, |ids|, clock, k))
  }

  lemma SweptAll(L: Ledger, ids: seq<Uuid>, now: Instant, clock: nat -> Instant)
    requires Linked(L) && Batch(L, ids, now)
    ensures SweptExactly(L, Swept(L, ids, |ids|, clock), ids, clock)
  {
    SweptKeys(L, ids, |ids|, clock);
    forall k | k in L.orders ensures SweptRow(L, Swept(L, ids, |ids|, clock), k, Over(L.holds, ids, |ids|, clock, k)) {
      SweptAt(L, ids, |ids|, now, clock, k);
    }
  }

  lemma DueBatch(L: Ledger, now: Instant)
    requires Linked(L)
    ensures Batch(L, ReservationService.Due(L, now), now)
  {
    ReservationService.DueOldestFirst(L, now);
  }

  /** With a clock that does not run backwards the whole batch is expired. */
  lemma SweptDue(L: Ledger, M: Ledger, ids: seq<Uuid>, now: Instant, clock: nat -> Instant)
    requires Linked(L) && Linked(M) && Batch(L, ids, now) && SweptExactly(L, M, ids, clock)
    requires forall n :: 0 <= n < |ids| ==> now <= clock(n)
    ensures ReservationService.DueOrders(M, now) == ReservationService.DueOrders(L, now) - (set id | id in ids)
  {
    forall k | k in L.orders
      ensures k in ReservationService.DueOrders(M, now) <==> k in ReservationService.DueOrders(L, now) && k !in ids
    {
      assert SweptRow(L, M, k, Over(L.holds, ids, |ids|, clock, k));
      if k in ids {
        var n :| 0 <= n < |ids| && ids[n] == k;
        assert Expires(L, k, now) && now <= clock(n);
        assert Over(L.holds, ids, |ids|, clock, k);
      }
    }
  }

  /** The sweep reads the clock once for its batch and again for every order; it expires exactly
      the orders of the batch whose holds are over at their own reading. If the readings do not
      run backwards the rest of the due orders is what remains due. */
  method SweepDue(db: Tables, now: Instant, clock: nat -> Instant) returns (swept: seq<Uuid>)
    requires db.Good()
    modifies db`items, db`holds, db`orders
    ensures db.Good()
    ensures swept == ReservationService.Due(old(db.State()), now)
    ensures SweptExactly(old(db.State()), db.State(), swept, clock)
    ensures (forall n :: 0 <= n < |swept| ==> now <= clock(n)) ==>
      ReservationService.DueOrders(db.State(), now) == ReservationService.DueOrders(old(db.State()), now) - (set id | id in swept)
  {
    ghost var L := db.State();
    swept := ReservationService.ReadDue(db, now);
    for n := 0 to |swept|
      invariant db.Good() && db.State() == Swept(L, swept, n, clock)
    {
      var expired := ReservationService.ExpireOrder(db, swept[n], clock(n));
    }
    DueBatch(L, now);
    SweptAll(L, swept, now, clock);
    if forall n :: 0 <= n < |swept| ==> now <= clock(n) { SweptDue(L, db.State(), swept, now, clock); }
  }

  // ---------- execution slots ----------

  /** `free` permits of the semaphore, and drains submitted to the executor and not finished. */
  class Slots {
    const concurrency: nat
    var free: nat
    var submitted: nat
    var stopping: bool

    /** Every permit is free or held by exactly one submitted drain; only a shutdown loses some. */
    predicate Conserved()
      reads this
    {
      free + submitted <= concurrency && (!stopping ==> free + submitted == concurrency)
    }

    constructor (concurrency: nat)
      requires concurrency >= 1
      ensures Conserved() && this.concurrency == concurrency && free == concurrency && !stopping
    {
      this.concurrency := concurrency;
      free, submitted, stopping := concurrency, 0, false;
    }

    /** `drain` releases its permit however it ends. */
    method DrainEnds()
      requires Conserved() && submitted > 0
      modifies this`free, this`submitted
      ensures Conserved() && submitted == old(submitted) - 1 && free == old(free) + 1
    {
      submitted := submitted - 1;
      free := free + 1;
    }

    /** The executor drops the drains it has not begun; their permits never come back. */
    method Shutdown(dropped: nat)
      requires Conserved() && dropped <= submitted
      modifies this`submitted, this`stopping
      ensures Conserved() && stopping && submitted == old(submitted) - dropped
    {
      stopping := true;
      submitted := submitted - dropped;
    }

    /** One tick of the timer. Drains may end between two submissions (`ends(i)` of them), and
        the executor may reject a submission; the exception is the answer `false`. */
    method Dispatch(rejects: nat -> bool, ends: nat -> nat) returns (ok: bool)
      requires Conserved()
      modifies this`free, this`submitted
      ensures Conserved()
      ensures stopping ==> ok && submitted == old(submitted)
      ensures !ok ==> !stopping && exists i :: 0 <= i < concurrency && rejects(i)
      ensures !stopping && (forall i :: !rejects(i) && ends(i) == 0) ==> free == 0
    {
      var i := 0;
      while !stopping && i < concurrency && free > 0
        invariant Conserved() && 0 <= i <= concurrency
        invariant stopping ==> submitted == old(submitted)
        invariant !stopping && (forall j :: !rejects(j) && ends(j) == 0) ==> free + i <= concurrency
        decreases concurrency - i
      {
        free := free - 1;
        if rejects(i) {
          free := free + 1;
          if !stopping { return false; }
        } else {
          submitted := submitted + 1;
        }
        var done := if ends(i) <= submitted then ends(i) else submitted;
        submitted, free := submitted - done, free + done;
        i := i + 1;
      }
      ok := true;
    }
  }
}
