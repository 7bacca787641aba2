/** The two canonical texts idempotency rests on: the basket fingerprint stored with an
    order, and the advisory-lock key of a (user, idempotency key) pair. */
module Keys {
  import opened Collections

  datatype RequestItem = RequestItem(id: Uuid, quantity: nat)
  datatype PurchaseRequest = PurchaseRequest(saleId: Uuid, items: seq<RequestItem>)

  const MAX_ITEMS := 20
  const MAX_QUANTITY := 1_000_000

  /** What the validation annotations of the request let through. */
  predicate Validated(r: PurchaseRequest) {
    && 1 <= |r.items| <= MAX_ITEMS
    && forall k :: 0 <= k < |r.items| ==> 1 <= r.items[k].quantity <= MAX_QUANTITY
  }

  predicate Distinct(items: seq<RequestItem>) {
    forall i, j :: 0 <= i < j < |items| ==> items[i].id != items[j].id
  }

  /** The item-to-quantity table of a basket; a later entry overwrites an earlier one. */
  function Wanted(items: seq<RequestItem>): (m: map<Uuid, nat>)
    ensures forall x :: x in m <==> exists k :: 0 <= k < |items| && items[k].id == x
  {
    if items == [] then map[] else
      var n := |items| - 1;
      var m := Wanted(items[..n])[items[n].id := items[n].quantity];
      assert forall k :: 0 <= k < n ==> items[..n][k] == items[k];
      m
  }

  lemma {:induction false} WantedAt(items: seq<RequestItem>, k: nat)
    requires Distinct(items) && k < |items|
    ensures items[k].id in Wanted(items) && Wanted(items)[items[k].id] == items[k].quantity
  {
    var n := |items| - 1;
    if k < n {
      assert items[..n][k] == items[k];
      assert Distinct(items[..n]);
      WantedAt(items[..n], k);
    }
  }

  lemma NewKeySize(m: map<Uuid, nat>, i: Uuid, n: nat)
    requires i !in m
    ensures |m[i := n]| == |m| + 1
  {
    assert m[i := n].Keys == m.Keys + {i};
    assert |m| == |m.Keys| && |m[i := n]| == |m[i := n].Keys|;
  }

  lemma LastEntry(basket: seq<RequestItem>)
    requires Distinct(basket) && basket != []
    ensures var n := |basket| - 1;
            && Distinct(basket[..n]) && basket[n].id !in Wanted(basket[..n])
            && Wanted(basket) == Wanted(basket[..n])[basket[n].id := basket[n].quantity]
  {
    var n := |basket| - 1;
    assert forall k :: 0 <= k < n ==> basket[..n][k] == basket[k];
  }

  lemma {:induction false} WantedSize(items: seq<RequestItem>)
    requires Distinct(items)
    ensures |Wanted(items)| == |items|
  {
    if items != [] {
      var n := |items| - 1;
      LastEntry(items);
      WantedSize(items[..n]);
      NewKeySize(Wanted(items[..n]), items[n].id, items[n].quantity);
    }
  }

  // ---------- number texts ----------

  function Digit(d: nat): char
    requires d < 16
  {
    if d < 10 then (48 + d) as char else (87 + d) as char
  }

  function Decimal(n: nat): (s: string)
    ensures |s| >= 1
    ensures |s| == 1 <==> n < 10
    ensures forall k :: 0 <= k < |s| ==> '0' <= s[k] <= '9'
  {
    if n < 10 then [Digit(n)] else Decimal(n / 10) + [Digit(n % 10)]
  }

  /** The value of a character as a digit. */
  function DigitValue(c: char): nat {
    if '0' <= c <= '9' then c as nat - '0' as nat else if 'a' <= c <= 'f' then c as nat - 'a' as nat + 10 else 0
  }

  /** The number a text denotes, most significant digit first. */
  function Read(s: string, base: nat): nat {
    if s == [] then 0 else Read(s[..|s| - 1], base) * base + DigitValue(s[|s| - 1])
  }

  lemma ReadLast(s: string, c: char, base: nat)
    ensures Read(s + [c], base) == Read(s, base) * base + DigitValue(c)
  {
    assert (s + [c])[..|s|] == s;
  }

  /** The decimal text of a number denotes it and has no leading zero. */
  lemma {:induction false} DecimalReads(n: nat)
    ensures Read(Decimal(n), 10) == n
    ensures n > 0 ==> Decimal(n)[0] != '0'
  {
    if n >= 10 {
      DecimalReads(n / 10);
      ReadLast(Decimal(n / 10), Digit(n % 10), 10);
    } else {
      ReadLast([], Digit(n), 10);
      assert [] + [Digit(n)] == Decimal(n);
    }
  }

  lemma DecimalInjective(m: nat, n: nat)
    requires Decimal(m) == Decimal(n)
    ensures m == n
  {
    DecimalReads(m);
    DecimalReads(n);
  }

  function Power(base: nat, k: nat): nat {
    if k == 0 then 1 else base * Power(base, k - 1)
  }

  lemma {:induction false} DecimalLength(n: nat, k: nat)
    requires k >= 1 && n < Power(10, k)
    ensures |Decimal(n)| <= k
  {
    if n >= 10 {
      DecimalLength(n / 10, k - 1);
    }
  }

  function Hex(n: nat, width: nat): (s: string)
    ensures |s| == width
    ensures forall k :: 0 <= k < |s| ==> '0' <= s[k] <= '9' || 'a' <= s[k] <= 'f'
  {
    if width == 0 then [] else Hex(n / 16, width - 1) + [Digit(n % 16)]
  }

  lemma {:induction false} HexReads(n: nat, width: nat)
    requires n < Power(16, width)
    ensures Read(Hex(n, width), 16) == n
  {
    if width > 0 {
      HexReads(n / 16, width - 1);
      ReadLast(Hex(n / 16, width - 1), Digit(n % 16), 16);
    }
  }

  lemma UuidFitsHex()
    ensures Power(16, 32) == 0x1_0000_0000_0000_0000_0000_0000_0000_0000
  {
    assert Power(16, 8) == 0x1_0000_0000 by {
      assert Power(16, 4) == 0x1_0000;
    }
    assert Power(16, 16) == 0x1_0000_0000_0000_0000 by {
      assert Power(16, 12) == 0x1_0000_0000_0000;
    }
    assert Power(16, 24) == 0x1_0000_0000_0000_0000_0000_0000 by {
      assert Power(16, 20) == 0x1_0000_0000_0000_0000_0000;
    }
    assert Power(16, 28) == 0x1_0000_0000_0000_0000_0000_0000_0000;
  }

  /** `UUID.toString`: 8-4-4-4-12 hexadecimal digits. */
  function Text(id: Uuid): (s: string)
    ensures |s| == 36
    ensures forall k :: 0 <= k < |s| ==> s[k] != ',' && s[k] != ':' && s[k] != '='
  {
    var h := Hex(id, 32);
    h[..8] + "-" + h[8..12] + "-" + h[12..16] + "-" + h[16..20] + "-" + h[20..]
  }

  lemma TextShape(id: Uuid)
    ensures var t, h := Text(id), Hex(id, 32);
            t[..8] == h[..8] && t[9..13] == h[8..12] && t[14..18] == h[12..16]
            && t[19..23] == h[16..20] && t[24..] == h[20..]
  {
  }

  lemma Pieces(h: string)
    requires |h| == 32
    ensures h[..8] + h[8..12] + h[12..16] + h[16..20] + h[20..] == h
  {
  }

  /** The digits of an id text, without the hyphens. */
  function Digits(t: string): string
    requires |t| == 36
  {
    t[..8] + t[9..13] + t[14..18] + t[19..23] + t[24..]
  }

  /** The text of an id has hyphens at four places, and its other 32 digits denote the id. */
  lemma TextReads(id: Uuid)
    ensures var t := Text(id);
            t[8] == t[13] == t[18] == t[23] == '-' && Read(Digits(t), 16) == id
  {
    TextShape(id);
    Pieces(Hex(id, 32));
    UuidFitsHex();
    HexReads(id, 32);
  }

  lemma TextInjective(a: Uuid, b: Uuid)
    requires Text(a) == Text(b)
    ensures a == b
  {
    TextReads(a);
    TextReads(b);
  }

  // ---------- the order of java.util.UUID ----------

  /** A 64-bit word read as a signed `long`. */
  function Signed(x: nat): int {
    if x >= 0x8000_0000_0000_0000 then x - 0x1_0000_0000_0000_0000 else x
  }

  /** `UUID.compareTo`: signed comparison of the high word, then of the low word. */
  predicate JavaBefore(a: Uuid, b: Uuid) {
    var ah, bh := Signed(a / 0x1_0000_0000_0000_0000), Signed(b / 0x1_0000_0000_0000_0000);
    var al, bl := Signed(a % 0x1_0000_0000_0000_0000), Signed(b % 0x1_0000_0000_0000_0000);
    ah < bh || (ah == bh && al < bl)
  }

  /** An id with the sign bits of its two words flipped. */
  function Flipped(id: Uuid): nat {
    var high, low := id / 0x1_0000_0000_0000_0000, id % 0x1_0000_0000_0000_0000;
    (high + 0x8000_0000_0000_0000) % 0x1_0000_0000_0000_0000 * 0x1_0000_0000_0000_0000
      + (low + 0x8000_0000_0000_0000) % 0x1_0000_0000_0000_0000
  }

  lemma FlippedWord(x: nat)
    requires x < 0x1_0000_0000_0000_0000
    ensures (x + 0x8000_0000_0000_0000) % 0x1_0000_0000_0000_0000 == Signed(x) + 0x8000_0000_0000_0000
  {
  }

  /** The signed comparison of the two words is the comparison of the ids with both sign bits flipped. */
  lemma JavaOrderFlips(a: Uuid, b: Uuid)
    ensures JavaBefore(a, b) <==> Flipped(a) < Flipped(b)
  {
    FlippedWord(a / 0x1_0000_0000_0000_0000);
    FlippedWord(b / 0x1_0000_0000_0000_0000);
    FlippedWord(a % 0x1_0000_0000_0000_0000);
    FlippedWord(b % 0x1_0000_0000_0000_0000);
  }

  lemma JavaOrderTotal(a: Uuid, b: Uuid)
    ensures a == b || JavaBefore(a, b) || JavaBefore(b, a)
  {
    assert a == (a / 0x1_0000_0000_0000_0000) * 0x1_0000_0000_0000_0000 + a % 0x1_0000_0000_0000_0000;
    assert b == (b / 0x1_0000_0000_0000_0000) * 0x1_0000_0000_0000_0000 + b % 0x1_0000_0000_0000_0000;
  }

  ghost predicate Ascending(s: seq<RequestItem>) {
    forall i, j :: 0 <= i < j < |s| ==> JavaBefore(s[i].id, s[j].id)
  }

  function Insert(x: RequestItem, s: seq<RequestItem>): (r: seq<RequestItem>)
    ensures |r| == |s| + 1
    ensures forall y :: y in r <==> y == x || y in s
  {
    if s == [] || JavaBefore(x.id, s[0].id) then [x] + s else [s[0]] + Insert(x, s[1..])
  }

  lemma {:induction false} InsertKeepsOrder(x: RequestItem, s: seq<RequestItem>)
    requires Ascending(s) && forall y :: y in s ==> y.id != x.id
    ensures Ascending(Insert(x, s))
  {
    if s != [] {
      if JavaBefore(x.id, s[0].id) {
        assert Insert(x, s) == [x] + s;
      } else {
        JavaOrderTotal(x.id, s[0].id);
        InsertKeepsOrder(x, s[1..]);
        var r := Insert(x, s[1..]);
        forall j | 0 <= j < |r|
          ensures JavaBefore(s[0].id, r[j].id)
        {
          assert r[j] in r;
          if r[j] in s[1..] {
            var k :| 0 <= k < |s[1..]| && s[1..][k] == r[j];
            assert s[k + 1] == r[j];
          }
        }
      }
    }
  }

  /** `items.stream().sorted(comparing(saleItemId))` */
  function Sort(s: seq<RequestItem>): (r: seq<RequestItem>)
    ensures |r| == |s|
    ensures forall y :: y in r <==> y in s
  {
    if s == [] then [] else
      assert s == [s[0]] + s[1..];
      Insert(s[0], Sort(s[1..]))
  }

  lemma {:induction false} SortAscends(s: seq<RequestItem>)
    requires Distinct(s)
    ensures Ascending(Sort(s))
  {
    if s != [] {
      SortAscends(s[1..]);
      forall y | y in Sort(s[1..]) ensures y.id != s[0].id {
        var k :| 0 <= k < |s[1..]| && s[1..][k] == y;
        assert s[k + 1] == y;
      }
      InsertKeepsOrder(s[0], Sort(s[1..]));
    }
  }

  /** An ascending list is determined by its members. */
  lemma {:induction false} AscendingUnique(a: seq<RequestItem>, b: seq<RequestItem>)
    requires Ascending(a) && Ascending(b)
    requires forall y :: y in a <==> y in b
    ensures a == b
  {
    assert b != [] ==> b[0] in b && b[0] in a;
    if a != [] {
      assert a[0] in b;
      assert b != [];
      assert b[0] in a;
      SameHead(a, b);
      assert a == [a[0]] + a[1..] && b == [b[0]] + b[1..];
      forall y
        ensures y in a[1..] <==> y in b[1..]
      {
        TailMembers(a, y);
        TailMembers(b, y);
      }
      AscendingUnique(a[1..], b[1..]);
    }
  }

  lemma SameHead(a: seq<RequestItem>, b: seq<RequestItem>)
    requires Ascending(a) && Ascending(b) && a != [] && b != []
    requires a[0] in b && b[0] in a
    ensures a[0] == b[0]
  {
    var i :| 0 <= i < |b| && b[i] == a[0];
    var j :| 0 <= j < |a| && a[j] == b[0];
  }

  lemma TailMembers(a: seq<RequestItem>, y: RequestItem)
    requires Ascending(a) && a != []
    ensures y in a[1..] <==> y in a && y != a[0]
  {
    if y in a && y != a[0] {
      var k :| 0 <= k < |a| && a[k] == y;
      assert a[1..][k - 1] == y;
    }
    if y in a[1..] {
      var k :| 0 <= k < |a[1..]| && a[1..][k] == y;
      assert a[k + 1] == y;
    }
  }

  // ---------- the fingerprint ----------

  function Part(i: RequestItem): (s: string)
    ensures forall k :: 0 <= k < |s| ==> s[k] != ','
  {
    Text(i.id) + "=" + Decimal(i.quantity)
  }

  function Parts(s: seq<RequestItem>): (p: seq<string>)
    ensures |p| == |s|
    ensures forall k :: 0 <= k < |s| ==> p[k] == Part(s[k])
  {
    if s == [] then [] else [Part(s[0])] + Parts(s[1..])
  }

  function Join(p: seq<string>): string {
    if p == [] then "" else if |p| == 1 then p[0] else p[0] + "," + Join(p[1..])
  }

  /** The text stored with the order; the caller has refused repeated items. */
  function Fingerprint(r: PurchaseRequest): string {
    Text(r.saleId) + ":" + Join(Parts(Sort(r.items)))
  }

  lemma InOrder(x: RequestItem, y: RequestItem)
    requires Flipped(x.id) < Flipped(y.id)
    ensures Sort([x, y]) == [x, y] && Sort([y, x]) == [x, y]
  {
    JavaOrderFlips(x.id, y.id);
    JavaOrderFlips(y.id, x.id);
    assert Sort([x]) == [x] && Sort([y]) == [y] by {
      assert [x][1..] == [] && [y][1..] == [];
    }
    assert [x, y][1..] == [y] && [y, x][1..] == [x];
  }

  /** The text of a basket of two, however listed: the item that comes first by its signed words is
      written first. */
  lemma FingerprintOfTwo(sale: Uuid, x: RequestItem, y: RequestItem)
    requires Flipped(x.id) < Flipped(y.id)
    ensures Fingerprint(PurchaseRequest(sale, [x, y])) == PairText(sale, x, y)
    ensures Fingerprint(PurchaseRequest(sale, [y, x])) == PairText(sale, x, y)
  {
    InOrder(x, y);
    assert Parts([x, y]) == [Part(x), Part(y)];
    JoinOfTwo(Part(x), Part(y));
  }

  lemma JoinOfTwo(p: string, q: string)
    ensures Join([p, q]) == p + "," + q
  {
    assert [p, q][1..] == [q];
  }

  /** sale:first=quantity,second=quantity */
  function PairText(sale: Uuid, x: RequestItem, y: RequestItem): string {
    Text(sale) + ":" + (Text(x.id) + "=" + Decimal(x.quantity) + "," + (Text(y.id) + "=" + Decimal(y.quantity)))
  }

  lemma PartInjective(a: RequestItem, b: RequestItem)
    requires Part(a) == Part(b)
    ensures a == b
  {
    assert Part(a)[..36] == Text(a.id) && Part(b)[..36] == Text(b.id);
    assert Part(a)[37..] == Decimal(a.quantity) && Part(b)[37..] == Decimal(b.quantity);
    TextInjective(a.id, b.id);
    DecimalInjective(a.quantity, b.quantity);
  }

  ghost predicate Free(s: string, c: char) {
    forall k :: 0 <= k < |s| ==> s[k] != c
  }

  /** The first separator splits a text in only one way. */
  lemma SplitUnique(a: string, x: string, b: string, y: string, c: char)
    requires Free(a, c) && Free(b, c)
    requires a + [c] + x == b + [c] + y
    ensures a == b && x == y
  {
    var l, r := a + [c] + x, b + [c] + y;
    assert l[|a|] == c && r[|b|] == c;
    assert forall k :: 0 <= k < |a| ==> l[k] == a[k];
    assert forall k :: 0 <= k < |b| ==> r[k] == b[k];
    assert |a| == |b|;
    assert l[..|a|] == a && r[..|b|] == b;
    assert l[|a| + 1..] == x && r[|b| + 1..] == y;
  }

  lemma JoinSeparator(p: seq<string>)
    requires p != []
    ensures |p| == 1 ==> Join(p) == p[0]
    ensures |p| > 1 ==> |Join(p)| > |p[0]| && Join(p)[|p[0]|] == ','
  {
  }

  lemma {:induction false} JoinInjective(p: seq<string>, q: seq<string>)
    requires p != [] && q != []
    requires forall k :: 0 <= k < |p| ==> Free(p[k], ',')
    requires forall k :: 0 <= k < |q| ==> Free(q[k], ',')
    requires Join(p) == Join(q)
    ensures p == q
  {
    JoinSeparator(p);
    JoinSeparator(q);
    assert |p| == 1 <==> |q| == 1;
    if |p| == 1 {
      assert p == [p[0]] && q == [q[0]];
    } else {
      SplitUnique(p[0], Join(p[1..]), q[0], Join(q[1..]), ',');
      JoinInjective(p[1..], q[1..]);
      assert p == [p[0]] + p[1..] && q == [q[0]] + q[1..];
    }
  }

  lemma PartsInjective(a: seq<RequestItem>, b: seq<RequestItem>)
    requires Parts(a) == Parts(b)
    ensures a == b
  {
    assert |Parts(a)| == |a| && |Parts(b)| == |b|;
    forall k | 0 <= k < |a| ensures a[k] == b[k] {
      assert Parts(a)[k] == Part(a[k]) && Parts(b)[k] == Part(b[k]);
      PartInjective(a[k], b[k]);
    }
  }

  lemma FingerprintParts(a: PurchaseRequest, b: PurchaseRequest)
    requires a.items != [] && b.items != []
    requires Fingerprint(a) == Fingerprint(b)
    ensures a.saleId == b.saleId && Sort(a.items) == Sort(b.items)
  {
    var f, g := Fingerprint(a), Fingerprint(b);
    assert f[..36] == Text(a.saleId) && g[..36] == Text(b.saleId);
    assert f[37..] == Join(Parts(Sort(a.items))) && g[37..] == Join(Parts(Sort(b.items)));
    TextInjective(a.saleId, b.saleId);
    JoinInjective(Parts(Sort(a.items)), Parts(Sort(b.items)));
    PartsInjective(Sort(a.items), Sort(b.items));
  }

  /** A basket without repeats has exactly the entries of its table. */
  lemma WantedMembers(items: seq<RequestItem>, x: RequestItem)
    requires Distinct(items)
    ensures x in items <==> x.id in Wanted(items) && Wanted(items)[x.id] == x.quantity
  {
    if x in items {
      var k :| 0 <= k < |items| && items[k] == x;
      WantedAt(items, k);
    }
    if x.id in Wanted(items) && Wanted(items)[x.id] == x.quantity {
      var k :| 0 <= k < |items| && items[k].id == x.id;
      WantedAt(items, k);
      assert items[k] == x;
    }
  }

  lemma SameMembersSameWanted(a: seq<RequestItem>, b: seq<RequestItem>)
    requires Distinct(a) && Distinct(b)
    requires forall y :: y in a ==> y in b
    ensures forall x :: x in Wanted(a) ==> x in Wanted(b) && Wanted(b)[x] == Wanted(a)[x]
  {
    forall x | x in Wanted(a)
      ensures x in Wanted(b) && Wanted(b)[x] == Wanted(a)[x]
    {
      var y := RequestItem(x, Wanted(a)[x]);
      WantedMembers(a, y);
      WantedMembers(b, y);
    }
  }

  /** Two baskets have the same fingerprint exactly when they ask for the same quantities
      of the same sale, whatever the order of their items. */
  lemma FingerprintCanonical(a: PurchaseRequest, b: PurchaseRequest)
    requires Validated(a) && Validated(b) && Distinct(a.items) && Distinct(b.items)
    ensures Fingerprint(a) == Fingerprint(b)
       <==> a.saleId == b.saleId && Wanted(a.items) == Wanted(b.items)
  {
    if Fingerprint(a) == Fingerprint(b) {
      FingerprintParts(a, b);
      assert forall y :: y in a.items <==> y in Sort(a.items);
      SameMembersSameWanted(a.items, b.items);
      SameMembersSameWanted(b.items, a.items);
    }
    if a.saleId == b.saleId && Wanted(a.items) == Wanted(b.items) {
      forall y ensures y in Sort(a.items) <==> y in Sort(b.items) {
        WantedMembers(a.items, y);
        WantedMembers(b.items, y);
      }
      SortAscends(a.items);
      SortAscends(b.items);
      AscendingUnique(Sort(a.items), Sort(b.items));
    }
  }

  lemma {:induction false} JoinLength(s: seq<RequestItem>)
    requires s != [] && forall k :: 0 <= k < |s| ==> s[k].quantity <= MAX_QUANTITY
    ensures |Join(Parts(s))| <= 45 * |s| - 1
  {
    assert Power(10, 7) == 10_000_000 by { assert Power(10, 4) == 10_000; }
    DecimalLength(s[0].quantity, 7);
    if |s| > 1 {
      JoinLength(s[1..]);
      assert Parts(s)[1..] == Parts(s[1..]);
    }
  }

  /** Every accepted basket fits the 1000-character column. */
  lemma FingerprintLength(r: PurchaseRequest)
    requires Validated(r)
    ensures |Fingerprint(r)| <= 936
  {
    var s := Sort(r.items);
    forall k | 0 <= k < |s| ensures s[k].quantity <= MAX_QUANTITY {
      assert s[k] in s;
      assert s[k] in r.items;
    }
    JoinLength(s);
  }

  lemma {:induction false} FullJoin(s: seq<RequestItem>)
    requires s != [] && forall k :: 0 <= k < |s| ==> s[k].quantity == 1_000_000
    ensures |Join(Parts(s))| == 45 * |s| - 1
  {
    MillionText();
    assert |Part(s[0])| == 44;
    if |s| > 1 {
      FullJoin(s[1..]);
      assert Parts(s)[1..] == Parts(s[1..]);
    }
  }

  lemma MillionText()
    ensures |Decimal(1_000_000)| == 7
  {
    assert |Decimal(1_000)| == 4 by { assert |Decimal(10)| == 2; }
    assert |Decimal(100_000)| == 6;
  }

  /** The bound is met: a basket of twenty items with a million each is accepted and needs 936. */
  lemma FingerprintLengthReached(r: PurchaseRequest)
    requires |r.items| == 20 && forall k :: 0 <= k < 20 ==> r.items[k].quantity == 1_000_000
    ensures Validated(r) && |Fingerprint(r)| == 936
  {
    var s := Sort(r.items);
    forall k | 0 <= k < |s| ensures s[k].quantity == 1_000_000 {
      assert s[k] in s;
      assert s[k] in r.items;
    }
    FullJoin(s);
  }

  // ---------- the advisory-lock key ----------

  function LockKey(user: string, key: string): string {
    Decimal(|user|) + ":" + user + key
  }

  lemma SplitAt(p: string, u: string, k: string)
    ensures var t := p + ":" + u + k; t[..|p|] == p && t[|p|] == ':' && t[|p| + 1..] == u + k
  {
  }

  /** The lock text is the length of the user name, a colon and the two names. */
  lemma LockKeyReads(user: string, key: string)
    ensures var text, n := LockKey(user, key), |Decimal(|user|)|;
            n < |text| && Read(text[..n], 10) == |user| && text[n] == ':' && text[n + 1..] == user + key
  {
    SplitAt(Decimal(|user|), user, key);
    DecimalReads(|user|);
  }

  lemma LockKeyInjective(u: string, k: string, v: string, l: string)
    ensures LockKey(u, k) == LockKey(v, l) <==> u == v && k == l
  {
    if LockKey(u, k) == LockKey(v, l) {
      assert LockKey(u, k) == Decimal(|u|) + [':'] + (u + k);
      assert LockKey(v, l) == Decimal(|v|) + [':'] + (v + l);
      SplitUnique(Decimal(|u|), u + k, Decimal(|v|), v + l, ':');
      DecimalInjective(|u|, |v|);
      assert (u + k)[..|u|] == u && (v + l)[..|v|] == v;
      assert (u + k)[|u|..] == k && (v + l)[|v|..] == l;
    }
  }
}
