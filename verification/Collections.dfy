/** Identifiers, and the two collection tools the ledger needs: sums over the rows
    of a table, and rows listed in the order an `order by` clause gives them. */
module Collections {

  datatype Option<+T> = None | Some(value: T)

  /** A UUID as the 128-bit number the database stores and compares. */
  type Uuid = n: nat | n < 0x1_0000_0000_0000_0000_0000_0000_0000_0000

  lemma {:induction false} SubsetSize<T>(a: set<T>, b: set<T>)
    requires a <= b
    ensures |a| <= |b|
  {
    if a != {} {
      var x :| x in a;
      SubsetSize(a - {x}, b - {x});
    }
  }

  // ---------- the first row by (rank, id) ----------

  predicate Before(rank: map<Uuid, int>, x: Uuid, y: Uuid)
    requires x in rank && y in rank
  {
    rank[x] < rank[y] || (rank[x] == rank[y] && x < y)
  }

  ghost predicate IsFirst(s: set<Uuid>, rank: map<Uuid, int>, x: Uuid)
    requires s <= rank.Keys
  {
    x in s && forall y :: y in s && y != x ==> Before(rank, x, y)
  }

  lemma FirstExists(s: set<Uuid>, rank: map<Uuid, int>)
    requires s != {} && s <= rank.Keys
    ensures exists x :: IsFirst(s, rank, x)
  {
    var x :| x in s;
    if s == {x} {
      assert IsFirst(s, rank, x);
    } else {
      var rest := s - {x};
      assert s == rest + {x};
      FirstExists(rest, rank);
      var y :| IsFirst(rest, rank, y);
      var z := if Before(rank, x, y) then x else y;
      forall w | w in s && w != z
        ensures Before(rank, z, w)
      {
        if w in rest && w != y { assert Before(rank, y, w); }
      }
      assert IsFirst(s, rank, z);
    }
  }

  /** `order by rank, id limit 1` */
  function First(s: set<Uuid>, rank: map<Uuid, int>): (x: Uuid)
    requires s != {} && s <= rank.Keys
    ensures IsFirst(s, rank, x)
  {
    FirstExists(s, rank);
    assert exists x :: x in s && forall y :: y in s && y != x ==> Before(rank, x, y) by {
      var x :| IsFirst(s, rank, x);
      assert x in s && forall y :: y in s && y != x ==> Before(rank, x, y);
    }
    var x :| x in s && forall y :: y in s && y != x ==> Before(rank, x, y);
    x
  }

  /** `order by rank, id` */
  function Ordered(s: set<Uuid>, rank: map<Uuid, int>): (q: seq<Uuid>)
    requires s <= rank.Keys
    ensures forall x :: x in q <==> x in s
    ensures |q| == |s|
    ensures forall i, j :: 0 <= i < j < |q| ==> Before(rank, q[i], q[j])
  {
    if s == {} then [] else
      var x := First(s, rank);
      var rest := Ordered(s - {x}, rank);
      [x] + rest
  }

  /** `order by id` */
  function ById(s: set<Uuid>): (q: seq<Uuid>)
    ensures forall x :: x in q <==> x in s
    ensures |q| == |s|
    ensures forall i, j :: 0 <= i < j < |q| ==> q[i] < q[j]
  {
    var rank := map x | x in s :: 0;
    var q := Ordered(s, rank);
    assert forall i, j :: 0 <= i < j < |q| ==> Before(rank, q[i], q[j]);
    q
  }

  // ---------- sums over a table ----------

  function Least(s: set<Uuid>): (x: Uuid)
    requires s != {}
    ensures x in s && forall y :: y in s ==> x <= y
  {
    var rank := map x | x in s :: 0;
    var x := First(s, rank);
    assert forall y :: y in s && y != x ==> Before(rank, x, y);
    x
  }

  lemma RemoveOne<T>(m: map<Uuid, T>, k: Uuid)
    requires k in m
    ensures |m - {k}| == |m| - 1
  {
    assert (m - {k}).Keys == m.Keys - {k};
    assert |m.Keys| == |m| && |(m - {k}).Keys| == |m - {k}|;
  }

  /** The sum of the values of a map. */
  function Total(m: map<Uuid, nat>): nat
    decreases |m|
  {
    if m.Keys == {} then 0 else
      var k := Least(m.Keys);
      RemoveOne(m, k);
      m[k] + Total(m - {k})
  }

  lemma RemoveTwo(m: map<Uuid, nat>, k: Uuid, l: Uuid)
    ensures (m - {k}) - {l} == (m - {l}) - {k}
  {
  }

  lemma LeastRemains(m: map<Uuid, nat>, k: Uuid)
    requires k in m && k != Least(m.Keys)
    ensures var l := Least(m.Keys);
            l in m - {k} && Total(m - {k}) == m[l] + Total((m - {k}) - {l})
  {
    var l := Least(m.Keys);
    var b := m - {k};
    assert l in b.Keys;
    assert Least(b.Keys) == l;
  }

  /** Any key may be taken out first. */
  lemma {:induction false} TotalSplit(m: map<Uuid, nat>, k: Uuid)
    requires k in m
    ensures Total(m) == m[k] + Total(m - {k})
    decreases |m|
  {
    var l := Least(m.Keys);
    if l != k {
      RemoveOne(m, l);
      TotalSplit(m - {l}, k);
      LeastRemains(m, k);
      RemoveTwo(m, k, l);
    }
  }

  lemma TotalUpdate(m: map<Uuid, nat>, k: Uuid, v: nat)
    ensures Total(m[k := v]) == v + Total(m) - (if k in m then m[k] else 0)
  {
    TotalSplit(m[k := v], k);
    assert m[k := v] - {k} == m - {k};
    if k in m {
      TotalSplit(m, k);
    } else {
      assert m - {k} == m;
    }
  }

  lemma MultiplyOut(n: int, bound: int)
    ensures n * bound == (n - 1) * bound + bound
  {
  }

  lemma {:induction false} TotalBounded(m: map<Uuid, nat>, bound: nat)
    requires forall k :: k in m ==> m[k] <= bound
    ensures Total(m) <= |m| * bound
    decreases |m|
  {
    if m.Keys != {} {
      var k := Least(m.Keys);
      RemoveOne(m, k);
      TotalBounded(m - {k}, bound);
      MultiplyOut(|m|, bound);
    }
  }

  lemma TotalIsZero(m: map<Uuid, nat>)
    ensures Total(m) == 0 <==> forall k :: k in m ==> m[k] == 0
  {
    if Total(m) == 0 {
      forall k | k in m ensures m[k] == 0 { TotalSplit(m, k); }
    } else if forall k :: k in m ==> m[k] == 0 {
      TotalBounded(m, 0);
    }
  }
}
