/** The row and advisory locks of the write transactions. Any number of them may run at once;
    none of them can ever be caught in a deadlock, because each takes its locks in one order. */
module Locks {
  import opened Collections

  datatype Lock = KeyLock(hash: int) | OrderLock(order: Uuid) | ItemLock(item: Uuid) | AttemptLock(attempt: Uuid)

  /** Key lock, then order row, then item rows by id, then the attempt row at the flush. */
  function Rank(l: Lock): nat {
    match l
    case KeyLock(_) => 0
    case OrderLock(_) => 1
    case ItemLock(i) => 2 + i
    case AttemptLock(_) => 2 + 0x1_0000_0000_0000_0000_0000_0000_0000_0000
  }

  ghost predicate Ascending(p: seq<Lock>) {
    forall i, j :: 0 <= i < j < |p| ==> Rank(p[i]) < Rank(p[j])
  }

  function ItemLocks(ids: seq<Uuid>): (p: seq<Lock>)
    ensures |p| == |ids| && forall k :: 0 <= k < |ids| ==> p[k] == ItemLock(ids[k])
  {
    if ids == [] then [] else [ItemLock(ids[0])] + ItemLocks(ids[1..])
  }

  // ---------- the transactions ----------

  function PurchaseLocks(hash: int, items: set<Uuid>): seq<Lock> {
    [KeyLock(hash)] + ItemLocks(ById(items))
  }

  function StartLocks(order: Uuid): seq<Lock> { [OrderLock(order)] }

  function Moves(items: set<Uuid>, moves: bool): seq<Lock> {
    if moves then ItemLocks(ById(items)) else []
  }

  /** `moves` says whether the result confirms or releases the stock. */
  function ApplyLocks(order: Uuid, items: set<Uuid>, moves: bool, attempt: Uuid): seq<Lock> {
    [OrderLock(order)] + Moves(items, moves) + [AttemptLock(attempt)]
  }

  function ExpireLocks(order: Uuid, items: set<Uuid>, moves: bool): seq<Lock> {
    [OrderLock(order)] + Moves(items, moves)
  }

  function ClaimLocks(attempt: Uuid): seq<Lock> { [AttemptLock(attempt)] }

  lemma AscendingAppend(a: seq<Lock>, b: seq<Lock>, bound: nat)
    requires Ascending(a) && Ascending(b)
    requires forall i :: 0 <= i < |a| ==> Rank(a[i]) < bound
    requires forall i :: 0 <= i < |b| ==> bound <= Rank(b[i])
    ensures Ascending(a + b)
  {
  }

  lemma ItemLocksAscend(items: set<Uuid>)
    ensures var p := ItemLocks(ById(items));
            Ascending(p) && OnlyItems(p)
  {
    var ids := ById(items);
    var p := ItemLocks(ids);
    assert forall i :: 0 <= i < |p| ==> Rank(p[i]) == 2 + (ids[i] as nat);
  }

  ghost predicate OnlyItems(p: seq<Lock>) {
    forall i :: 0 <= i < |p| ==> p[i].ItemLock?
  }

  lemma Wrapped(order: Uuid, p: seq<Lock>, attempt: Uuid)
    requires Ascending(p) && OnlyItems(p)
    ensures Ascending([OrderLock(order)] + p)
    ensures Ascending([OrderLock(order)] + p + [AttemptLock(attempt)])
  {
    AscendingAppend([OrderLock(order)], p, 2);
    AscendingAppend([OrderLock(order)] + p, [AttemptLock(attempt)], Rank(AttemptLock(attempt)));
  }

  lemma ItemLocksOf(items: set<Uuid>, l: Lock)
    ensures l in ItemLocks(ById(items)) <==> l.ItemLock? && l.item in items
  {
    var ids := ById(items);
    if l in ItemLocks(ids) { var k :| 0 <= k < |ids| && ItemLocks(ids)[k] == l; assert ids[k] in ids; }
    if l.ItemLock? && l.item in items { var k :| 0 <= k < |ids| && ids[k] == l.item; assert ItemLocks(ids)[k] == l; }
  }

  /** Which locks each transaction takes: the key and the items of a purchase, the order of a payment
      step, and the items only if stock moves. */
  lemma LocksTaken(hash: int, order: Uuid, items: set<Uuid>, moves: bool, attempt: Uuid, l: Lock)
    ensures l in PurchaseLocks(hash, items) <==> l == KeyLock(hash) || (l.ItemLock? && l.item in items)
    ensures l in StartLocks(order) <==> l == OrderLock(order)
    ensures l in ApplyLocks(order, items, moves, attempt) <==>
      l == OrderLock(order) || l == AttemptLock(attempt) || (moves && l.ItemLock? && l.item in items)
    ensures l in ExpireLocks(order, items, moves) <==> l == OrderLock(order) || (moves && l.ItemLock? && l.item in items)
    ensures l in ClaimLocks(attempt) <==> l == AttemptLock(attempt)
  {
    ItemLocksOf(items, l);
  }

  /** Every transaction of the ledger asks for its locks in ascending rank. */
  lemma AllAscend(hash: int, order: Uuid, items: set<Uuid>, moves: bool, attempt: Uuid)
    ensures Ascending(PurchaseLocks(hash, items))
    ensures Ascending(StartLocks(order))
    ensures Ascending(ApplyLocks(order, items, moves, attempt))
    ensures Ascending(ExpireLocks(order, items, moves))
    ensures Ascending(ClaimLocks(attempt))
  {
    ItemLocksAscend(items);
    AscendingAppend([KeyLock(hash)], ItemLocks(ById(items)), 1);
    Wrapped(order, Moves(items, moves), attempt);
  }

  // ---------- the lock table ----------

  type Name = Uuid
  datatype Transaction = Transaction(locks: seq<Lock>, taken: nat)
  type Table = map<Name, Transaction>

  ghost predicate WellFormed(t: Transaction) { t.taken <= |t.locks| && Ascending(t.locks) }

  predicate Holds(t: Transaction, l: Lock) {
    exists k :: 0 <= k < t.taken && k < |t.locks| && t.locks[k] == l
  }

  predicate Wants(t: Transaction) { t.taken < |t.locks| }

  function Next(t: Transaction): Lock
    requires Wants(t)
  {
    t.locks[t.taken]
  }

  predicate WaitsFor(s: Table, t: Name, u: Name) {
    t in s && u in s && t != u && Wants(s[t]) && Holds(s[u], Next(s[t]))
  }

  predicate Free(s: Table, t: Name)
    requires t in s && Wants(s[t])
  {
    forall u :: u in s && u != t ==> !Holds(s[u], Next(s[t]))
  }

  datatype Action = Begin(name: Name, locks: seq<Lock>) | Take(name: Name) | Finish(name: Name) | Abort(name: Name)

  ghost predicate Can(s: Table, a: Action) {
    match a
    case Begin(t, locks) => t !in s && Ascending(locks)
    case Take(t) => t in s && Wants(s[t]) && Free(s, t)
    case Finish(t) => t in s && !Wants(s[t])
    case Abort(t) => t in s
  }

  /** A commit or an abort frees every lock of the transaction. */
  ghost function Do(s: Table, a: Action): Table {
    if !Can(s, a) then s else
      match a
      case Begin(t, locks) => s[t := Transaction(locks, 0)]
      case Take(t) => s[t := s[t].(taken := s[t].taken + 1)]
      case Finish(t) => s - {t}
      case Abort(t) => s - {t}
  }

  ghost function DoAll(s: Table, actions: seq<Action>): Table
    decreases |actions|
  {
    if actions == [] then s else DoAll(Do(s, actions[0]), actions[1..])
  }

  ghost predicate Apart(t: Transaction, u: Transaction) {
    forall l :: Holds(t, l) ==> !Holds(u, l)
  }

  ghost predicate Exclusive(s: Table) {
    forall t, u :: t in s && u in s && t != u ==> Apart(s[t], s[u])
  }

  ghost predicate Sound(s: Table) {
    (forall t :: t in s ==> WellFormed(s[t])) && Exclusive(s)
  }

  lemma TakeHolds(t: Transaction, l: Lock)
    requires Wants(t)
    ensures Holds(t.(taken := t.taken + 1), l) <==> Holds(t, l) || l == Next(t)
  {
  }

  lemma DoKeepsSound(s: Table, a: Action)
    requires Sound(s)
    ensures Sound(Do(s, a))
  {
    if Can(s, a) && a.Take? {
      var r := Do(s, a);
      forall t, u | t in r && u in r && t != u ensures Apart(r[t], r[u]) {
        assert Apart(s[t], s[u]);
        forall l ensures Holds(r[a.name], l) <==> Holds(s[a.name], l) || l == Next(s[a.name]) { TakeHolds(s[a.name], l); }
      }
    }
  }

  /** No two running transactions ever hold one lock. */
  lemma {:induction false} RunSound(s: Table, actions: seq<Action>)
    requires Sound(s)
    ensures Sound(DoAll(s, actions))
    decreases |actions|
  {
    if actions != [] {
      DoKeepsSound(s, actions[0]);
      RunSound(Do(s, actions[0]), actions[1..]);
    }
  }

  /** Whoever holds the lock another one waits for asks only for later locks. */
  lemma WaitRises(s: Table, t: Name, u: Name)
    requires Sound(s) && WaitsFor(s, t, u) && Wants(s[u])
    ensures Rank(Next(s[t])) < Rank(Next(s[u]))
  {
    assert WellFormed(s[u]);
  }

  lemma {:induction false} PathRises(s: Table, path: seq<Name>)
    requires Sound(s) && |path| >= 2
    requires forall i :: 0 <= i < |path| - 1 ==> WaitsFor(s, path[i], path[i + 1])
    requires path[|path| - 1] in s && Wants(s[path[|path| - 1]])
    ensures path[0] in s && Wants(s[path[0]]) && Rank(Next(s[path[0]])) < Rank(Next(s[path[|path| - 1]]))
    decreases |path|
  {
    assert WaitsFor(s, path[0], path[1]);
    if |path| == 2 {
      WaitRises(s, path[0], path[1]);
    } else {
      var rest := path[1..];
      forall i | 0 <= i < |rest| - 1 ensures WaitsFor(s, rest[i], rest[i + 1]) {
        assert WaitsFor(s, path[i + 1], path[(i + 1) + 1]);
      }
      assert rest[|rest| - 1] == path[|path| - 1];
      PathRises(s, rest);
      WaitRises(s, path[0], path[1]);
    }
  }

  /** The wait-for graph of every reachable state is free of cycles. */
  lemma NoWaitCycle(actions: seq<Action>, path: seq<Name>)
    requires |path| >= 2
    requires forall i :: 0 <= i < |path| - 1 ==> WaitsFor(DoAll(map[], actions), path[i], path[i + 1])
    ensures path[0] != path[|path| - 1]
  {
    var s := DoAll(map[], actions);
    RunSound(map[], actions);
    assert WaitsFor(s, path[0], path[1]);
    if path[0] == path[|path| - 1] { PathRises(s, path); }
  }

  ghost predicate Runnable(s: Table, t: Name) {
    Can(s, Take(t)) || Can(s, Finish(t))
  }

  function Height(s: Table, t: Name): nat
    requires t in s
  {
    if Wants(s[t]) then Rank(Next(s[t])) else 0
  }

  const TOP: nat := 3 + 0x1_0000_0000_0000_0000_0000_0000_0000_0000

  /** Following the holders of the locks from any transaction ends at one that can run. */
  lemma {:induction false} LeadsToRunnable(s: Table, t: Name) returns (path: seq<Name>)
    requires Sound(s) && t in s
    ensures path != [] && path[0] == t && Runnable(s, path[|path| - 1])
    ensures forall i :: 0 <= i < |path| - 1 ==> WaitsFor(s, path[i], path[i + 1])
    decreases TOP - Height(s, t), if Wants(s[t]) then 1 else 0
  {
    if Runnable(s, t) { return [t]; }
    assert Wants(s[t]) && !Free(s, t);
    var u :| u in s && u != t && Holds(s[u], Next(s[t]));
    assert WaitsFor(s, t, u);
    if !Wants(s[u]) {
      assert Can(s, Finish(u));
      return [t, u];
    }
    WaitRises(s, t, u);
    var rest := LeadsToRunnable(s, u);
    path := [t] + rest;
    assert forall i :: 0 < i < |path| ==> path[i] == rest[i - 1];
    forall i | 0 <= i < |path| - 1 ensures WaitsFor(s, path[i], path[i + 1]) {
      if i > 0 { assert WaitsFor(s, rest[i - 1], rest[i]); }
    }
  }

  // ---------- every transaction can still commit ----------

  function Remaining(t: Transaction): nat {
    if Wants(t) then |t.locks| - t.taken + 1 else 1
  }

  function Weights(s: Table): map<Name, nat> {
    map t | t in s :: Remaining(s[t])
  }

  /** Locks still to take plus commits still to come. */
  function Work(s: Table): nat {
    Total(Weights(s))
  }

  lemma FinishShrinks(s: Table, t: Name)
    requires Can(s, Finish(t))
    ensures Work(Do(s, Finish(t))) < Work(s)
  {
    TotalSplit(Weights(s), t);
    assert Weights(s - {t}) == Weights(s) - {t};
  }

  lemma TakeShrinks(s: Table, t: Name)
    requires Can(s, Take(t))
    ensures Work(Do(s, Take(t))) < Work(s)
  {
    var x := s[t].(taken := s[t].taken + 1);
    assert Weights(s[t := x]) == Weights(s)[t := Remaining(x)];
    TotalUpdate(Weights(s), t, Remaining(x));
  }

  lemma RunnableShrinks(s: Table, t: Name) returns (a: Action)
    requires Runnable(s, t)
    ensures (a == Take(t) || a == Finish(t)) && Can(s, a)
    ensures Work(Do(s, a)) < Work(s)
  {
    if Can(s, Finish(t)) {
      a := Finish(t);
      FinishShrinks(s, t);
    } else {
      a := Take(t);
      TakeShrinks(s, t);
    }
  }

  lemma NextAction(s: Table) returns (a: Action)
    requires Sound(s) && s != map[]
    ensures (a.Take? || a.Finish?) && Sound(Do(s, a)) && Work(Do(s, a)) < Work(s)
  {
    var t :| t in s;
    var path := LeadsToRunnable(s, t);
    a := RunnableShrinks(s, path[|path| - 1]);
    DoKeepsSound(s, a);
  }

  lemma DoFirst(s: Table, a: Action, rest: seq<Action>)
    ensures DoAll(s, [a] + rest) == DoAll(Do(s, a), rest)
  {
    assert ([a] + rest)[1..] == rest;
  }

  /** Nothing but takes and commits. */
  ghost predicate Forward(actions: seq<Action>) {
    forall k :: 0 <= k < |actions| ==> actions[k].Take? || actions[k].Finish?
  }

  lemma ForwardFirst(a: Action, rest: seq<Action>)
    requires Forward(rest) && (a.Take? || a.Finish?)
    ensures Forward([a] + rest)
  {
  }

  /** From every reachable state the transactions already running can all commit, without
      aborting any and without starting others. */
  lemma {:induction false} AllCanCommit(s: Table) returns (actions: seq<Action>)
    requires Sound(s)
    ensures DoAll(s, actions) == map[] && Forward(actions)
    decreases Work(s)
  {
    if s == map[] {
      actions := [];
    } else {
      var a := NextAction(s);
      var rest := AllCanCommit(Do(s, a));
      DoFirst(s, a, rest);
      ForwardFirst(a, rest);
      actions := [a] + rest;
    }
  }
}
