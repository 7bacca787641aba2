/** The tables, and the transactional services that change them row by row. Each method is
    proved to do exactly what the function of the same name in LedgerSpec says. */
module Database {
  import opened Collections
  import opened LedgerSpec
  import opened Invariant

  class Tables {
    const config: Config
    var sales: map<Uuid, Sale>
    var items: map<Uuid, Item>
    var orders: map<Uuid, Order>
    var holds: map<Uuid, Hold>
    var attempts: map<Uuid, Attempt>

    ghost function State(): Ledger
      reads this
    {
      Ledger(config, sales, items, orders, holds, attempts)
    }

    ghost predicate Good()
      reads this
    {
      Valid(State()) && Linked(State())
    }

    constructor (config: Config)
      ensures Good()
      ensures State() == Ledger(config, map[], map[], map[], map[], map[])
    {
      this.config := config;
      sales, items, orders, holds, attempts := map[], map[], map[], map[], map[];
    }
  }

  /** `lockItems`: the existing rows among `ids`, locked and returned in id order. */
  method LockItems(items: map<Uuid, Item>, ids: set<Uuid>) returns (rows: seq<Uuid>)
    ensures forall i :: i in rows <==> i in ids && i in items
    ensures Increasing(rows) && |rows| == |ids * items.Keys|
  {
    rows := ById(ids * items.Keys);
  }

  ghost predicate Increasing(rows: seq<Uuid>) {
    forall j, k :: 0 <= j < k < |rows| ==> rows[j] < rows[k]
  }

  /** The id order fixes the list. */
  lemma {:induction false} IncreasingUnique(a: seq<Uuid>, b: seq<Uuid>)
    requires Increasing(a) && Increasing(b)
    requires forall i :: i in a <==> i in b
    ensures a == b
  {
    assert a != [] ==> a[0] in a && a[0] in b;
    assert b != [] ==> b[0] in b && b[0] in a;
    if a != [] {
      assert a[0] == b[0];
      assert a == [a[0]] + a[1..] && b == [b[0]] + b[1..];
      forall i ensures i in a[1..] <==> i in b[1..] {
        assert i in a[1..] <==> i in a && i != a[0];
        assert i in b[1..] <==> i in b && i != b[0];
      }
      IncreasingUnique(a[1..], b[1..]);
    }
  }
}

module ReservationService {
  import opened Collections
  import opened LedgerSpec
  import opened Invariant
  import opened Database

  /** The item table after the first `k` locked rows have been moved. */
  ghost function MovedRows(items: map<Uuid, Item>, lines: map<Uuid, Line>, rows: seq<Uuid>, k: nat, confirm: bool): map<Uuid, Item>
    requires k <= |rows| && forall i :: i in rows ==> i in items && i in lines
  {
    if k == 0 then items else
      var before := MovedRows(items, lines, rows, k - 1, confirm);
      var i := rows[k - 1];
      if i in before then before[i := MoveRow(before[i], lines[i].quantity, confirm)] else before
  }

  lemma {:induction false} MovedRowsAt(items: map<Uuid, Item>, lines: map<Uuid, Line>, rows: seq<Uuid>, k: nat, confirm: bool, x: Uuid)
    requires k <= |rows| && Increasing(rows) && forall i :: i in rows ==> i in items && i in lines
    ensures var m := MovedRows(items, lines, rows, k, confirm);
            && m.Keys == items.Keys
            && (x in items ==> m[x] == if x in rows[..k] then MoveRow(items[x], lines[x].quantity, confirm) else items[x])
  {
    if k > 0 {
      MovedRowsAt(items, lines, rows, k - 1, confirm, x);
      assert rows[..k] == rows[..k - 1] + [rows[k - 1]];
      assert rows[k - 1] !in rows[..k - 1];
    }
  }

  /** Moving every locked row of an order is the move of LedgerSpec. */
  lemma AllRowsMoved(items: map<Uuid, Item>, lines: map<Uuid, Line>, rows: seq<Uuid>, confirm: bool)
    requires Increasing(rows) && forall i :: i in rows <==> i in items && i in lines
    ensures MovedRows(items, lines, rows, |rows|, confirm) == MoveStock(items, lines, confirm)
  {
    var m := MovedRows(items, lines, rows, |rows|, confirm);
    assert rows[..|rows|] == rows;
    forall x ensures m.Keys == items.Keys && (x in items ==> m[x] == MoveStock(items, lines, confirm)[x]) {
      MovedRowsAt(items, lines, rows, |rows|, confirm, x);
    }
  }

  method MoveStockOf(db: Tables, id: Uuid, confirm: bool)
    requires id in db.orders
    modifies db`items
    ensures db.items == MoveStock(old(db.items), db.orders[id].lines, confirm)
  {
    var lines := db.orders[id].lines;
    var stocks := LockItems(db.items, lines.Keys);
    ghost var before := db.items;
    for k := 0 to |stocks|
      invariant db.items.Keys == before.Keys
      invariant db.items == MovedRows(before, lines, stocks, k, confirm)
    {
      var stock := stocks[k];
      assert stock in stocks;
      var n := lines[stock].quantity;
      var row := db.items[stock].(held := db.items[stock].held - n);
      row := if confirm then row.(sold := row.sold + n) else row.(available := row.available + n);
      db.items := db.items[stock := row];
    }
    AllRowsMoved(before, lines, stocks, confirm);
  }

  /** `IllegalStateException` is the answer `false`; nothing has been written then. */
  method Confirm(db: Tables, id: Uuid) returns (ok: bool)
    requires id in db.orders && id in db.holds
    modifies db`items, db`holds, db`orders
    ensures ok <==> old(db.holds[id].status.Active?)
    ensures db.State() == if ok then Settle(old(db.State()), id, true) else old(db.State())
  {
    if !db.holds[id].status.Active? { return false; }
    MoveStockOf(db, id, true);
    db.holds := db.holds[id := db.holds[id].(status := HoldConfirmed)];
    db.orders := db.orders[id := db.orders[id].(status := OrderConfirmed)];
    ok := true;
  }

  method ReleaseHold(db: Tables, id: Uuid)
    requires id in db.orders && id in db.holds
    modifies db`items, db`holds, db`orders
    ensures db.State() == Release(old(db.State()), id)
  {
    if !db.holds[id].status.Active? { return; }
    MoveStockOf(db, id, false);
    db.holds := db.holds[id := db.holds[id].(status := HoldExpired)];
    db.orders := db.orders[id := db.orders[id].(status := OrderExpired)];
  }

  method ExpireOrder(db: Tables, id: Uuid, now: Instant) returns (expired: bool)
    requires db.Good()
    modifies db`items, db`holds, db`orders
    ensures db.Good()
    ensures expired <==> Expires(old(db.State()), id, now)
    ensures db.State() == Expire(old(db.State()), id, now)
  {
    ExpireKeepsValid(db.State(), id, now);
    if id !in db.orders || !db.orders[id].status.PaymentPending? { return false; }
    if !db.holds[id].status.Active? || db.holds[id].expiresAt > now { return false; }
    ReleaseHold(db, id);
    expired := true;
  }

  function DueOrders(L: Ledger, now: Instant): set<Uuid>
    requires Linked(L)
  {
    set id | id in L.orders && Expires(L, id, now)
  }

  function DueRankOf(holds: map<Uuid, Hold>): map<Uuid, int> {
    map id | id in holds :: holds[id].expiresAt
  }

  const BATCH := 100

  /** Active holds of pending orders whose time is over, oldest first, at most a hundred. */
  function Due(L: Ledger, now: Instant): (ids: seq<Uuid>)
    requires Linked(L)
    ensures |ids| == if |DueOrders(L, now)| <= BATCH then |DueOrders(L, now)| else BATCH
    ensures forall id :: id in ids ==> id in DueOrders(L, now)
  {
    var all := Ordered(DueOrders(L, now), DueRankOf(L.holds));
    if |all| <= BATCH then all else all[..BATCH]
  }

  method ReadDue(db: Tables, now: Instant) returns (ids: seq<Uuid>)
    requires Linked(db.State())
    ensures ids == Due(db.State(), now)
  {
    var due := set id | id in db.orders && db.orders[id].status.PaymentPending? && db.holds[id].status.Active?
                        && db.holds[id].expiresAt <= now;
    assert due == DueOrders(db.State(), now);
    var all := Ordered(due, DueRankOf(db.holds));
    ids := if |all| <= BATCH then all else all[..BATCH];
  }

  /** Distinct holds, the oldest first. */
  ghost predicate OldestFirst(holds: map<Uuid, Hold>, q: seq<Uuid>) {
    && (forall id :: id in q ==> id in holds)
    && forall i, j :: 0 <= i < j < |q| ==> q[i] != q[j] && holds[q[i]].expiresAt <= holds[q[j]].expiresAt
  }

  lemma OrderedOldest(orders: set<Uuid>, holds: map<Uuid, Hold>)
    requires orders <= holds.Keys
    ensures OldestFirst(holds, Ordered(orders, DueRankOf(holds)))
  {
    var q := Ordered(orders, DueRankOf(holds));
    forall i, j | 0 <= i < j < |q| ensures q[i] != q[j] && holds[q[i]].expiresAt <= holds[q[j]].expiresAt {
      assert Before(DueRankOf(holds), q[i], q[j]);
    }
  }

  lemma PrefixOldest(holds: map<Uuid, Hold>, q: seq<Uuid>, n: nat)
    requires OldestFirst(holds, q) && n <= |q|
    ensures OldestFirst(holds, q[..n])
  {
  }

  lemma RestYounger(holds: map<Uuid, Hold>, q: seq<Uuid>, n: nat, id: Uuid, other: Uuid)
    requires OldestFirst(holds, q) && n <= |q| && id in q[..n] && other in q && other !in q[..n]
    ensures holds[id].expiresAt <= holds[other].expiresAt
  {
    var i :| 0 <= i < n && q[i] == id;
    var j :| 0 <= j < |q| && q[j] == other;
  }

  /** The orders a sweep looks for. */
  ghost predicate IsDue(L: Ledger, now: Instant, id: Uuid) {
    && id in L.orders && L.orders[id].status.PaymentPending?
    && id in L.holds && L.holds[id].status.Active? && L.holds[id].expiresAt <= now
  }

  /** The batch is every due order, or a hundred of them: pending orders with an active hold that is
      over, the oldest hold first, and no order left out has an older hold. */
  lemma DueOldestFirst(L: Ledger, now: Instant)
    requires Linked(L)
    ensures var due := Due(L, now);
            && (forall id :: id in DueOrders(L, now) <==> IsDue(L, now, id))
            && |due| == (if |DueOrders(L, now)| <= 100 then |DueOrders(L, now)| else 100)
            && OldestFirst(L.holds, due)
            && forall id, other :: id in due && IsDue(L, now, other) && other !in due ==>
                 other in L.holds && L.holds[id].expiresAt <= L.holds[other].expiresAt
  {
    var q := Ordered(DueOrders(L, now), DueRankOf(L.holds));
    var due := Due(L, now);
    assert due == q[..|due|];
    OrderedOldest(DueOrders(L, now), L.holds);
    PrefixOldest(L.holds, q, |due|);
    forall id, other | id in due && IsDue(L, now, other) && other !in due
      ensures L.holds[id].expiresAt <= L.holds[other].expiresAt
    {
      assert other in DueOrders(L, now);
      RestYounger(L.holds, q, |due|, id, other);
    }
  }
}

module PaymentService {
  import opened Collections
  import opened LedgerSpec
  import opened Evolution
  import opened Invariant
  import opened Database
  import ReservationService
  import opened Provider

  function CreatedRank(attempts: map<Uuid, Attempt>): map<Uuid, int> {
    map a | a in attempts :: attempts[a].createdAt
  }

  /** `forOrder`: the attempts of an order, oldest first. */
  method ReadAttempts(attempts: map<Uuid, Attempt>, order: Uuid) returns (rows: seq<Uuid>)
    ensures forall a :: a in rows <==> a in attempts && attempts[a].orderId == order
    ensures forall i, j :: 0 <= i < j < |rows| ==> attempts[rows[i]].createdAt <= attempts[rows[j]].createdAt
  {
    var found := set a | a in attempts && attempts[a].orderId == order;
    rows := Ordered(found, CreatedRank(attempts));
    forall i, j | 0 <= i < j < |rows| ensures attempts[rows[i]].createdAt <= attempts[rows[j]].createdAt {
      assert Before(CreatedRank(attempts), rows[i], rows[j]);
    }
  }

  /** The loop looking for the key, and whether some attempt has not failed. */
  method ScanAttempts(attempts: map<Uuid, Attempt>, rows: seq<Uuid>, key: string) returns (same: Option<Uuid>, blocked: bool)
    requires forall a :: a in rows ==> a in attempts
    ensures same.Some? ==> same.value in rows && attempts[same.value].key == key
    ensures same.None? ==> forall a :: a in rows ==> attempts[a].key != key
    ensures same.None? ==> (blocked <==> exists a :: a in rows && !attempts[a].status.Failed?)
  {
    blocked := false;
    for k := 0 to |rows|
      invariant forall a :: a in rows[..k] ==> attempts[a].key != key
      invariant blocked <==> exists a :: a in rows[..k] && !attempts[a].status.Failed?
    {
      var a := rows[k];
      assert rows[..k + 1] == rows[..k] + [a];
      if attempts[a].key == key { return Some(a), blocked; }
      if !attempts[a].status.Failed? { blocked := true; }
    }
    same := None;
    assert rows[..|rows|] == rows;
  }

  method StartPayment(db: Tables, c: StartCall) returns (answer: StartAnswer)
    requires db.Good()
    modifies db`attempts, db`orders, db`holds
    ensures db.Good()
    ensures answer == DecideStart(old(db.State()), c)
    ensures db.State() == Start(old(db.State()), c)
  {
    ghost var L := db.State();
    StartKeepsValid(L, c);
    if !ValidIdentity(c.user, c.key) { return Declined(InvalidIdentity); }
    if c.order !in db.orders || db.orders[c.order].user != c.user { return Declined(OrderNotFound); }
    var rows := ReadAttempts(db.attempts, c.order);
    var same, blocked := ScanAttempts(db.attempts, rows, c.key);
    if same.Some? {
      assert same.value in WithKey(L, c.order, c.key);
      KeyedAttempt(L, c.order, c.key, same.value);
      if db.attempts[same.value].scenario != c.scenario { return Declined(KeyReused); }
      return Known(same.value);
    }
    ScanMeans(L, c.order, c.key, rows);
    if blocked { return Declined(PaymentBlocked); }
    if !db.orders[c.order].status.PaymentPending? || db.holds[c.order].expiresAt <= c.checkedAt {
      return Declined(HoldWindowOver);
    }
    if c.id in db.attempts { return Declined(DuplicateId); }
    var attempt := Attempt(c.order, c.key, c.scenario, Created, db.orders[c.order].totalAmount, c.createdAt, c.createdAt, None, None);
    db.attempts := db.attempts[c.id := attempt];
    db.orders := db.orders[c.order := db.orders[c.order].(status := PaymentProcessing)];
    db.holds := db.holds[c.order := db.holds[c.order].(deadline := Some(attempt.createdAt + db.config.paymentWindow * SECOND))];
    answer := Started(c.id);
  }

  lemma ScanMeans(L: Ledger, order: Uuid, key: string, rows: seq<Uuid>)
    requires forall a :: a in rows <==> a in L.attempts && L.attempts[a].orderId == order
    requires forall a :: a in rows ==> L.attempts[a].key != key
    ensures WithKey(L, order, key) == {}
    ensures Blocked(L, order) <==> exists a :: a in rows && !L.attempts[a].status.Failed?
  {
    assert forall a :: a in AttemptsOf(L, order) <==> a in rows;
  }

  /** `work` reads the attempt in one state of the tables and its hold in a later one, with any
      transactions in between. The work has the attempt's own deadline unless the attempt has
      failed meanwhile. */
  method ReadWork(tables: Tables, later: Tables, id: Uuid) returns (work: Option<Work>)
    requires tables.Good() && later.Good() && Evolves(tables.State(), later.State())
    ensures work.None? <==> id !in tables.attempts || tables.attempts[id].Terminal()
    ensures work.Some? ==>
      var a := tables.attempts[id];
      && a.orderId in later.holds && id in later.attempts
      && work.value == Work(id, a.orderId, a.amount, a.scenario, later.holds[a.orderId].deadline)
      && work.value.deadline.Some?
      && (!later.attempts[id].status.Failed? ==>
           work.value.deadline == Some(a.createdAt + tables.config.paymentWindow * SECOND))
  {
    if id !in tables.attempts || tables.attempts[id].Terminal() { return None; }
    var a := tables.attempts[id];
    assert AttemptGrows(tables.attempts[id], later.attempts[id]);
    assert AttemptRow(later.config, later.orders, later.holds, later.attempts[id]);
    work := Some(Work(id, a.orderId, a.amount, a.scenario, later.holds[a.orderId].deadline));
  }

  /** A thrown exception rolls the transaction back. */
  method ApplyResult(db: Tables, c: ApplyCall) returns (answer: ApplyAnswer)
    requires db.Good()
    modifies db`items, db`orders, db`holds, db`attempts
    ensures db.Good()
    ensures answer == DecideApply(old(db.State()), c)
    ensures db.State() == Apply(old(db.State()), c)
  {
    ghost var L := db.State();
    ApplyKeepsValid(L, c);
    if c.attempt !in db.attempts { return Conflict(PaymentNotFound); }
    var attempt := db.attempts[c.attempt];
    var order := attempt.orderId;
    if attempt.amount != c.amount { return Conflict(AmountMismatch); }
    if attempt.Terminal() {
      if !c.result.ResultUnknown? && attempt.status != StatusOf(c.result) { return Conflict(ResultConflict); }
      return Ignored;
    }
    var stored := db.attempts;
    attempt := attempt.(status := StatusOf(c.result));
    if attempt.Terminal() { attempt := attempt.(terminalAt := Some(c.terminalAt)); }
    attempt := attempt.(leaseUntil := None, nextCheckAt := c.checkFrom + SECOND);
    assert attempt == Resolve(L.attempts[c.attempt], c);
    db.attempts := db.attempts[c.attempt := attempt];
    if c.result.ResultSucceeded? {
      var ok := ReservationService.Confirm(db, order);
      if !ok {
        db.attempts := stored;
        return Conflict(ReleasedStock);
      }
    } else if c.result.ResultFailed? {
      db.orders := db.orders[order := db.orders[order].(status := PaymentPending)];
      if db.holds[order].expiresAt <= c.heldAt { ReservationService.ReleaseHold(db, order); }
    }
    answer := Applied;
  }
}

module PaymentJobs {
  import opened Collections
  import opened LedgerSpec
  import opened Invariant
  import opened Database

  /** `a` is due for its check before `b`, or at the same time and has the smaller id. */
  predicate OlderCheck(attempts: map<Uuid, Attempt>, a: Uuid, b: Uuid) {
    && a in attempts && b in attempts
    && (attempts[a].nextCheckAt < attempts[b].nextCheckAt || (attempts[a].nextCheckAt == attempts[b].nextCheckAt && a < b))
  }

  lemma FirstIsOldest(L: Ledger, free: set<Uuid>, job: Uuid)
    requires free <= L.attempts.Keys && IsFirst(free, DueRank(L), job)
    ensures forall b :: b in free && b != job ==> OlderCheck(L.attempts, job, b)
  {
    forall b | b in free && b != job ensures OlderCheck(L.attempts, job, b) { assert Before(DueRank(L), job, b); }
  }

  /** One worker's claim: among the rows that no other transaction has locked, the claimable
      attempt first by (next check, id) gets a new lease. */
  method ClaimJob(db: Tables, now: Instant, locked: set<Uuid>) returns (job: Option<Uuid>)
    requires db.Good()
    modifies db`attempts
    ensures db.Good()
    ensures job == Claimed(old(db.State()), now, locked)
    ensures db.State() == if job.Some? then Claim(old(db.State()), job.value, now) else old(db.State())
    ensures job.None? <==> Claimable(old(db.State()), now) <= locked
    ensures job.Some? ==>
      && job.value in Claimable(old(db.State()), now) && job.value !in locked
      && Claimable(db.State(), now) == Claimable(old(db.State()), now) - {job.value}
      && db.attempts == old(db.attempts)[job.value := old(db.attempts)[job.value].(leaseUntil := Some(now + 10_000_000))]
      && forall b :: b in Claimable(old(db.State()), now) && b !in locked && b != job.value ==>
           OlderCheck(old(db.attempts), job.value, b)
  {
    ghost var L := db.State();
    var due := set a | a in db.attempts && !db.attempts[a].Terminal() && db.attempts[a].nextCheckAt <= now
                       && (db.attempts[a].leaseUntil.None? || db.attempts[a].leaseUntil.value <= now);
    assert due == Claimable(L, now);
    var free := due - locked;
    assert forall a :: a in due && a !in locked ==> a in free;
    if free == {} { return None; }
    var rank := map a | a in db.attempts :: db.attempts[a].nextCheckAt;
    assert rank == DueRank(L);
    var id := First(free, rank);
    FirstIsOldest(L, free, id);
    ClaimKeepsValid(L, id, now);
    db.attempts := db.attempts[id := db.attempts[id].(leaseUntil := Some(now + LEASE))];
    job := Some(id);
    assert db.State() == Claim(L, id, now);
    ClaimNarrows(L, now, id);
  }

  lemma ClaimNarrows(L: Ledger, now: Instant, id: Uuid)
    requires id in Claimable(L, now)
    ensures Claimable(Claim(L, id, now), now) == Claimable(L, now) - {id}
  {
  }
}
