/** The catalog projection of a sale, and what its states promise about the future. */
module SaleCatalogPublisher {
  import opened Collections
  import opened LedgerSpec
  import opened Invariant
  import opened Evolution
  import opened Protocol
  import opened RunProperties
  import opened Database

  datatype Shelf = Available | FullyHeld | SoldOut

  function ItemsOf(items: map<Uuid, Item>, sale: Uuid): set<Uuid> {
    set i | i in items && items[i].saleId == sale
  }

  /** `sum(available)` and `sum(held)` over some rows. */
  function SumAvailable(items: map<Uuid, Item>, rows: seq<Uuid>): int
    requires forall i :: i in rows ==> i in items
  {
    if rows == [] then 0 else items[rows[0]].available + SumAvailable(items, rows[1..])
  }

  function SumHeld(items: map<Uuid, Item>, rows: seq<Uuid>): int
    requires forall i :: i in rows ==> i in items
  {
    if rows == [] then 0 else items[rows[0]].held + SumHeld(items, rows[1..])
  }

  function ShelfOf(items: map<Uuid, Item>, sale: Uuid): Shelf {
    var rows := ById(ItemsOf(items, sale));
    if SumAvailable(items, rows) > 0 then Available else if SumHeld(items, rows) > 0 then FullyHeld else SoldOut
  }

  lemma {:induction false} SumsZero(items: map<Uuid, Item>, rows: seq<Uuid>)
    requires forall i :: i in rows ==> i in items && items[i].available >= 0 && items[i].held >= 0
    ensures SumAvailable(items, rows) >= 0 && SumHeld(items, rows) >= 0
    ensures SumAvailable(items, rows) == 0 <==> forall i :: i in rows ==> items[i].available == 0
    ensures SumHeld(items, rows) == 0 <==> forall i :: i in rows ==> items[i].held == 0
  {
    if rows != [] {
      SumsZero(items, rows[1..]);
      assert rows == [rows[0]] + rows[1..];
    }
  }

  /** The three states in terms of the rows. */
  lemma ShelfMeaning(L: Ledger, sale: Uuid)
    requires Valid(L)
    ensures ShelfOf(L.items, sale).Available? <==> exists i :: i in ItemsOf(L.items, sale) && L.items[i].available > 0
    ensures ShelfOf(L.items, sale).SoldOut? <==> forall i :: i in ItemsOf(L.items, sale) ==> L.items[i].sold == L.items[i].total
  {
    var rows := ById(ItemsOf(L.items, sale));
    forall i | i in rows
      ensures L.items[i].available >= 0 && L.items[i].held >= 0
      ensures L.items[i].sold == L.items[i].total <==> L.items[i].available == 0 && L.items[i].held == 0
    {
      assert StockRow(L.items, L.orders, i);
    }
    SumsZero(L.items, rows);
  }

  lemma SoldOutKept(L: Ledger, M: Ledger, sale: Uuid)
    requires Valid(L) && Valid(M) && Evolves(L, M)
    requires sale in L.sales && ShelfOf(L.items, sale).SoldOut?
    ensures ShelfOf(M.items, sale).SoldOut?
  {
    ShelfMeaning(L, sale);
    ShelfMeaning(M, sale);
    forall i | i in ItemsOf(M.items, sale) ensures M.items[i].sold == M.items[i].total {
      assert i in L.items;
      assert ItemGrows(L.items[i], M.items[i]);
      assert i in ItemsOf(L.items, sale);
      assert StockRow(M.items, M.orders, i);
    }
  }

  /** SOLD_OUT is absorbing: no continuation of any run leaves it. */
  lemma SoldOutForEver(config: Config, es: seq<Event>, fs: seq<Event>, sale: Uuid)
    requires sale in Reached(config, es).ledger.sales
    requires ShelfOf(Reached(config, es).ledger.items, sale).SoldOut?
    ensures ShelfOf(Reached(config, es + fs).ledger.items, sale).SoldOut?
  {
    ReachedInv(config, es);
    ReachedInv(config, es + fs);
    ReachedMoves(config, es, fs);
    SoldOutKept(Reached(config, es).ledger, Reached(config, es + fs).ledger, sale);
  }

  /** FULLY_HELD is not: whenever a hold of the sale expires, the sale is available again. */
  lemma ExpiryReopens(L: Ledger, id: Uuid, now: Instant)
    requires Valid(L) && Linked(L) && Expires(L, id, now)
    ensures ShelfOf(Expire(L, id, now).items, L.orders[id].saleId).Available?
  {
    var o := L.orders[id];
    var M := Expire(L, id, now);
    ExpireKeepsValid(L, id, now);
    assert OrderRow(L.sales, L.items, o);
    var i :| i in o.lines.Keys;
    assert LineRow(L.items, o, i) && StockRow(L.items, L.orders, i);
    assert M.items[i].available == L.items[i].available + o.lines[i].quantity;
    assert i in ItemsOf(M.items, o.saleId);
    ShelfMeaning(M, o.saleId);
  }

  /** A published value: the opening time in milliseconds and the state. */
  datatype Entry = Entry(opensAt: int, shelf: Shelf)

  /** `from sales join sale_items … group by`: the sales with items. */
  function Listed(sales: map<Uuid, Sale>, items: map<Uuid, Item>): set<Uuid> {
    set k | k in sales && ItemsOf(items, k) != {}
  }

  /** `toEpochMilli` rounds down. */
  function EntryOf(sales: map<Uuid, Sale>, items: map<Uuid, Item>, sale: Uuid): Entry
    requires sale in sales
  {
    Entry(sales[sale].opensAt / 1000, ShelfOf(items, sale))
  }

  /** The keys after the entries of the first `n` rows have been written. */
  ghost function Written(sales: map<Uuid, Sale>, items: map<Uuid, Item>, cache: map<Uuid, Entry>, rows: seq<Uuid>, n: nat): map<Uuid, Entry>
    requires n <= |rows| && forall k :: k in rows ==> k in sales
  {
    if n == 0 then cache
    else Written(sales, items, cache, rows, n - 1)[rows[n - 1] := EntryOf(sales, items, rows[n - 1])]
  }

  ghost predicate KeyAfter(sales: map<Uuid, Sale>, items: map<Uuid, Item>, cache: map<Uuid, Entry>, after: map<Uuid, Entry>, k: Uuid,
                           renewed: bool)
  {
    if renewed then k in after && k in sales && after[k] == EntryOf(sales, items, k)
    else (k in after <==> k in cache) && (k in cache && k in after ==> after[k] == cache[k])
  }

  lemma KeyWritten(sales: map<Uuid, Sale>, items: map<Uuid, Item>, cache: map<Uuid, Entry>, before: map<Uuid, Entry>, row: Uuid, k: Uuid,
                   renewed: bool)
    requires row in sales && KeyAfter(sales, items, cache, before, k, renewed)
    ensures KeyAfter(sales, items, cache, before[row := EntryOf(sales, items, row)], k, renewed || k == row)
  {
  }

  lemma {:induction false} WrittenAt(sales: map<Uuid, Sale>, items: map<Uuid, Item>, cache: map<Uuid, Entry>, rows: seq<Uuid>,
                                     n: nat, k: Uuid)
    requires n <= |rows| && forall s :: s in rows ==> s in sales
    ensures KeyAfter(sales, items, cache, Written(sales, items, cache, rows, n), k, k in rows[..n])
  {
    if n > 0 {
      WrittenAt(sales, items, cache, rows, n - 1, k);
      KeyWritten(sales, items, cache, Written(sales, items, cache, rows, n - 1), rows[n - 1], k, k in rows[..n - 1]);
      assert rows[..n] == rows[..n - 1] + [rows[n - 1]];
    }
  }

  lemma AllWritten(sales: map<Uuid, Sale>, items: map<Uuid, Item>, cache: map<Uuid, Entry>, rows: seq<Uuid>, n: nat)
    requires n <= |rows| && forall s :: s in rows ==> s in sales
    ensures forall k :: KeyAfter(sales, items, cache, Written(sales, items, cache, rows, n), k, k in rows[..n])
  {
    forall k ensures KeyAfter(sales, items, cache, Written(sales, items, cache, rows, n), k, k in rows[..n]) {
      WrittenAt(sales, items, cache, rows, n, k);
    }
  }

  method SumColumns(items: map<Uuid, Item>, rows: seq<Uuid>) returns (available: int, held: int)
    requires forall i :: i in rows ==> i in items
    ensures available == SumAvailable(items, rows) && held == SumHeld(items, rows)
  {
    available, held := 0, 0;
    var rest := rows;
    while rest != []
      invariant forall i :: i in rest ==> i in items
      invariant available + SumAvailable(items, rest) == SumAvailable(items, rows)
      invariant held + SumHeld(items, rest) == SumHeld(items, rows)
      decreases |rest|
    {
      available := available + items[rest[0]].available;
      held := held + items[rest[0]].held;
      rest := rest[1..];
    }
  }

  method ReadShelf(items: map<Uuid, Item>, sale: Uuid) returns (shelf: Shelf)
    ensures shelf == ShelfOf(items, sale)
  {
    var available, held := SumColumns(items, ById(ItemsOf(items, sale)));
    shelf := if available > 0 then Available else if held > 0 then FullyHeld else SoldOut;
  }

  /** `written` are listed sales, as many as Redis took; if it took all, then all of them. */
  ghost predicate Taken(listed: set<Uuid>, written: seq<Uuid>, writes: nat) {
    && |written| == (if writes < |listed| then writes else |listed|)
    && (forall k :: k in written ==> k in listed)
    && (writes >= |listed| ==> forall k :: k in listed ==> k in written)
  }

  lemma PrefixTaken(listed: set<Uuid>, rows: seq<Uuid>, n: nat, writes: nat)
    requires |rows| == |listed| && forall k :: k in rows <==> k in listed
    requires n <= |rows| && n <= writes && (n == |rows| || n == writes)
    ensures Taken(listed, rows[..n], writes)
  {
    if n == |rows| { assert rows[..n] == rows; }
  }

  method ReadEntry(sales: map<Uuid, Sale>, items: map<Uuid, Item>, sale: Uuid) returns (entry: Entry)
    requires sale in sales
    ensures entry == EntryOf(sales, items, sale)
  {
    var shelf := ReadShelf(items, sale);
    entry := Entry(sales[sale].opensAt / 1000, shelf);
  }

  lemma WrittenNext(sales: map<Uuid, Sale>, items: map<Uuid, Item>, cache: map<Uuid, Entry>, rows: seq<Uuid>, n: nat)
    requires n < |rows| && forall s :: s in rows ==> s in sales
    ensures Written(sales, items, cache, rows, n + 1)
         == Written(sales, items, cache, rows, n)[rows[n] := EntryOf(sales, items, rows[n])]
  {
  }

  /** The loop over the rows; a failure of Redis ends it. */
  method WriteKeys(db: Tables, cache: map<Uuid, Entry>, rows: seq<Uuid>, writes: nat) returns (published: map<Uuid, Entry>, n: nat)
    requires forall k :: k in rows ==> k in db.sales
    ensures n <= |rows| && n <= writes && (n == |rows| || n == writes)
    ensures published == Written(db.sales, db.items, cache, rows, n)
  {
    published, n := cache, 0;
    while n < |rows| && n < writes
      invariant n <= |rows| && n <= writes
      invariant published == Written(db.sales, db.items, cache, rows, n)
    {
      assert rows[n] in rows;
      var entry := ReadEntry(db.sales, db.items, rows[n]);
      WrittenNext(db.sales, db.items, cache, rows, n);
      published := published[rows[n] := entry];
      n := n + 1;
    }
  }

  /** What a published value says about the rows: the opening time in whole milliseconds, available if
      some item has stock to sell, sold out if all items are sold, and otherwise fully held. */
  ghost predicate Describes(entry: Entry, sales: map<Uuid, Sale>, items: map<Uuid, Item>, sale: Uuid) {
    && sale in sales
    && entry.opensAt * 1000 <= sales[sale].opensAt < entry.opensAt * 1000 + 1000
    && (entry.shelf.Available? <==> exists i :: i in items && items[i].saleId == sale && items[i].available > 0)
    && (entry.shelf.SoldOut? <==> forall i :: i in items && items[i].saleId == sale ==> items[i].sold == items[i].total)
  }

  lemma EntryDescribes(L: Ledger, sale: Uuid)
    requires Valid(L) && sale in L.sales
    ensures Describes(EntryOf(L.sales, L.items, sale), L.sales, L.items, sale)
  {
    ShelfMeaning(L, sale);
    var entry := EntryOf(L.sales, L.items, sale);
    if i :| i in L.items && L.items[i].saleId == sale && L.items[i].available > 0 { assert i in ItemsOf(L.items, sale); }
    if entry.shelf.SoldOut? {
      forall i | i in L.items && L.items[i].saleId == sale ensures L.items[i].sold == L.items[i].total {
        assert i in ItemsOf(L.items, sale);
      }
    }
  }

  lemma AllDescribed(L: Ledger, cache: map<Uuid, Entry>, published: map<Uuid, Entry>, written: seq<Uuid>)
    requires Valid(L) && forall k :: KeyAfter(L.sales, L.items, cache, published, k, k in written)
    ensures forall k :: k in written ==> k in published && Describes(published[k], L.sales, L.items, k)
    ensures forall k :: k !in written ==> (k in published <==> k in cache) && (k in cache && k in published ==> published[k] == cache[k])
  {
    forall k | k in written ensures k in published && Describes(published[k], L.sales, L.items, k) {
      assert KeyAfter(L.sales, L.items, cache, published, k, k in written);
      EntryDescribes(L, k);
    }
    forall k | k !in written ensures (k in published <==> k in cache) && (k in cache && k in published ==> published[k] == cache[k]) {
      assert KeyAfter(L.sales, L.items, cache, published, k, k in written);
    }
  }

  /** One refresh. Redis takes `writes` keys before it fails, and a failure ends the loop. Each key
      written holds its sale's opening time and state, and every other key is left alone; without a
      failure every listed sale has been written. */
  method Refresh(db: Tables, cache: map<Uuid, Entry>, writes: nat) returns (published: map<Uuid, Entry>, written: seq<Uuid>)
    requires db.Good()
    ensures Taken(Listed(db.sales, db.items), written, writes)
    ensures forall k :: k in written ==> k in published && Describes(published[k], db.sales, db.items, k)
    ensures forall k :: k !in written ==> (k in published <==> k in cache) && (k in cache && k in published ==> published[k] == cache[k])
  {
    var rows := ById(Listed(db.sales, db.items));
    assert forall k :: k in rows ==> k in db.sales;
    var n;
    published, n := WriteKeys(db, cache, rows, writes);
    written := rows[..n];
    PrefixTaken(Listed(db.sales, db.items), rows, n, writes);
    AllWritten(db.sales, db.items, cache, rows, n);
    AllDescribed(db.State(), cache, published, written);
  }
}
