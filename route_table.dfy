/** Route-table assembly shared by both auto-configurations: every mapping is
    expanded by the entry parser, the results are concatenated in discovery order
    and sorted by `FastEntry.compareTo`. Java's `Stream.sorted` is stable, so the
    sort is specified as a stable insertion sort. */
module RouteTable {
  import opened Common
  import opened FastEntries
  import EntryParser

  /** Ascending under `compareTo`, which orders by `order` alone (`Compare`'s contract). */
  predicate SortedByOrder(s: seq<FastEntry>) {
    forall i, j :: 0 <= i < j < |s| ==> s[i].order <= s[j].order
  }

  /** The entries whose order is `k`, in sequence order. */
  function WithOrder(s: seq<FastEntry>, k: int32): seq<FastEntry> {
    if s == [] then [] else (if s[0].order == k then [s[0]] else []) + WithOrder(s[1..], k)
  }

  lemma {:induction false} WithOrderMember(s: seq<FastEntry>, k: int32, x: FastEntry)
    ensures x in WithOrder(s, k) <==> x in s && x.order == k
  {
    if s != [] {
      WithOrderMember(s[1..], k, x);
      assert s == [s[0]] + s[1..];
    }
  }

  /** Puts `x` in front of the first entry that does not sort before it: `x` came
      earlier in the input than everything already in `s`. */
  function Insert(x: FastEntry, s: seq<FastEntry>): (r: seq<FastEntry>)
    ensures multiset(r) == multiset(s) + multiset{x}
  {
    if s == [] then [x]
    else if x.order <= s[0].order then
      assert s == [s[0]] + s[1..];
      [x] + s
    else
      assert s == [s[0]] + s[1..];
      [s[0]] + Insert(x, s[1..])
  }

  /** Inserting into an ascending sequence keeps it ascending. */
  lemma {:induction false} InsertSorted(x: FastEntry, s: seq<FastEntry>)
    requires SortedByOrder(s)
    ensures SortedByOrder(Insert(x, s))
  {
    if s != [] && x.order > s[0].order {
      var rest := Insert(x, s[1..]);
      InsertSorted(x, s[1..]);
      InsertLowerBound(x, s[1..], s[0].order);
      assert Insert(x, s) == [s[0]] + rest;
    }
  }

  /** A lower bound on the orders of `x` and of `s` bounds those of `Insert(x, s)`. */
  lemma {:induction false} InsertLowerBound(x: FastEntry, s: seq<FastEntry>, b: int32)
    requires b <= x.order && forall i :: 0 <= i < |s| ==> b <= s[i].order
    ensures forall i :: 0 <= i < |Insert(x, s)| ==> b <= Insert(x, s)[i].order
  {
    if s != [] && x.order > s[0].order {
      InsertLowerBound(x, s[1..], b);
      assert Insert(x, s) == [s[0]] + Insert(x, s[1..]);
    }
  }

  lemma WithOrderPrepend(x: FastEntry, s: seq<FastEntry>, k: int32)
    ensures WithOrder([x] + s, k) == (if x.order == k then [x] else []) + WithOrder(s, k)
  {
    assert ([x] + s)[1..] == s;
  }

  /** Inserting `x` puts it first among the entries of its order and leaves the
      entries of every other order as they were. */
  lemma {:induction false} InsertWithOrder(x: FastEntry, s: seq<FastEntry>, k: int32)
    ensures WithOrder(Insert(x, s), k) == if x.order == k then [x] + WithOrder(s, k) else WithOrder(s, k)
  {
    if s == [] {
      assert Insert(x, s) == [x] + [];
      WithOrderPrepend(x, [], k);
    } else if x.order <= s[0].order {
      WithOrderPrepend(x, s, k);
    } else {
      assert s == [s[0]] + s[1..];
      InsertWithOrder(x, s[1..], k);
      WithOrderPrepend(s[0], Insert(x, s[1..]), k);
      WithOrderPrepend(s[0], s[1..], k);
    }
  }

  /** `Stream.sorted()` over `compareTo`. */
  function Sort(s: seq<FastEntry>): seq<FastEntry> {
    if s == [] then [] else Insert(s[0], Sort(s[1..]))
  }

  /** The sort orders by `order`, adds and drops nothing, and keeps the input order
      among entries with equal `order`. */
  lemma {:induction false} SortSpec(s: seq<FastEntry>)
    ensures SortedByOrder(Sort(s))
    ensures multiset(Sort(s)) == multiset(s)
    ensures forall k :: WithOrder(Sort(s), k) == WithOrder(s, k)
  {
    if s != [] {
      SortSpec(s[1..]);
      InsertSorted(s[0], Sort(s[1..]));
      assert s == [s[0]] + s[1..];
      forall k ensures WithOrder(Sort(s), k) == WithOrder(s, k) {
        InsertWithOrder(s[0], Sort(s[1..]), k);
        WithOrderPrepend(s[0], s[1..], k);
      }
    }
  }

  /** The first entries of two ascending sequences with the same entries of every
      order have the same order. */
  lemma SameLeastOrder(t1: seq<FastEntry>, t2: seq<FastEntry>)
    requires t1 != [] && t2 != []
    requires SortedByOrder(t1) && SortedByOrder(t2)
    requires WithOrder(t1, t1[0].order) == WithOrder(t2, t1[0].order)
    requires WithOrder(t1, t2[0].order) == WithOrder(t2, t2[0].order)
    ensures t1[0].order == t2[0].order
  {
    var a, b := t1[0], t2[0];
    WithOrderMember(t1, a.order, a);
    WithOrderMember(t2, a.order, a);
    WithOrderMember(t2, b.order, b);
    WithOrderMember(t1, b.order, b);
    var j :| 0 <= j < |t2| && t2[j] == a;
    var i :| 0 <= i < |t1| && t1[i] == b;
    assert b.order <= t2[j].order;
    assert a.order <= t1[i].order;
  }

  lemma EmptyWithOrder(t: seq<FastEntry>)
    requires t != []
    ensures WithOrder(t, t[0].order) != []
  {
    WithOrderMember(t, t[0].order, t[0]);
  }

  lemma TailsAgree(t1: seq<FastEntry>, t2: seq<FastEntry>, k: int32)
    requires t1 != [] && t2 != [] && t1[0].order == t2[0].order
    requires WithOrder(t1, k) == WithOrder(t2, k)
    ensures WithOrder(t1[1..], k) == WithOrder(t2[1..], k)
  {
    assert t1 == [t1[0]] + t1[1..];
    assert t2 == [t2[0]] + t2[1..];
    WithOrderPrepend(t1[0], t1[1..], k);
    WithOrderPrepend(t2[0], t2[1..], k);
    var x1, x2 := WithOrder(t1[1..], k), WithOrder(t2[1..], k);
    if t1[0].order == k {
      assert [t1[0]] + x1 == [t2[0]] + x2;
      assert x1 == ([t1[0]] + x1)[1..];
      assert x2 == ([t2[0]] + x2)[1..];
    } else {
      assert [] + x1 == x1 && [] + x2 == x2;
    }
  }

  /** A stable sort is determined by its input: two ascending sequences holding the
      same entries of every order in the same relative order are equal. Together with
      `SortSpec` this makes `Sort` the one stable sort by order. */
  lemma {:induction false} StableSortUnique(t1: seq<FastEntry>, t2: seq<FastEntry>)
    requires SortedByOrder(t1) && SortedByOrder(t2)
    requires forall k :: WithOrder(t1, k) == WithOrder(t2, k)
    ensures t1 == t2
    decreases |t1|
  {
    if t1 == [] {
      if t2 != [] {
        EmptyWithOrder(t2);
      }
    } else if t2 == [] {
      EmptyWithOrder(t1);
    } else {
      var a, b := t1[0], t2[0];
      SameLeastOrder(t1, t2);
      var k0 := a.order;
      assert t1 == [a] + t1[1..];
      assert t2 == [b] + t2[1..];
      forall k ensures WithOrder(t1[1..], k) == WithOrder(t2[1..], k) {
        TailsAgree(t1, t2, k);
      }
      assert a == b by {
        WithOrderPrepend(a, t1[1..], k0);
        WithOrderPrepend(b, t2[1..], k0);
        assert WithOrder(t1, k0)[0] == a && WithOrder(t2, k0)[0] == b;
      }
      StableSortUnique(t1[1..], t2[1..]);
    }
  }

  /** A handler mapping as the framework lists it: the mapping and its handler. */
  type Mapping = (RequestMappingInfo, HandlerMethod)

  /** The `flatMap` over the mappings: each mapping's entries, in mapping order. */
  function AllEntries(mappings: seq<Mapping>): seq<FastEntry> {
    Flatten(Parsed(mappings))
  }

  /** Each mapping's `parseEntry` result, position for position. */
  function Parsed(mappings: seq<Mapping>): seq<seq<FastEntry>> {
    seq(|mappings|, i requires 0 <= i < |mappings| => EntryParser.ParseEntry(mappings[i].1, mappings[i].0))
  }

  function Flatten<T>(xss: seq<seq<T>>): seq<T> {
    if xss == [] then [] else xss[0] + Flatten(xss[1..])
  }

  lemma {:induction false} FlattenMember<T>(xss: seq<seq<T>>, x: T)
    ensures x in Flatten(xss) <==> exists i :: 0 <= i < |xss| && x in xss[i]
  {
    if xss != [] {
      FlattenMember(xss[1..], x);
      if x in Flatten(xss[1..]) {
        var i :| 0 <= i < |xss[1..]| && x in xss[1..][i];
        assert x in xss[i + 1];
      }
      if exists i :: 1 <= i < |xss| && x in xss[i] {
        var i :| 1 <= i < |xss| && x in xss[i];
        assert x in xss[1..][i - 1];
      }
    }
  }

  /** `parseEntry` yields `e` for mapping `m`. */
  predicate Produces(m: Mapping, e: FastEntry) {
    e in EntryParser.ParseEntry(m.1, m.0)
  }

  /** The concatenation holds exactly the entries some mapping produces. */
  lemma AllEntriesMember(mappings: seq<Mapping>, e: FastEntry)
    ensures e in AllEntries(mappings) <==> exists i :: 0 <= i < |mappings| && Produces(mappings[i], e)
  {
    var xss := Parsed(mappings);
    FlattenMember(xss, e);
    assert forall i :: 0 <= i < |mappings| ==> (e in xss[i] <==> Produces(mappings[i], e));
  }

  /** The route table handed to the handler mapping. */
  function BuildTable(mappings: seq<Mapping>): seq<FastEntry> {
    Sort(AllEntries(mappings))
  }

  /** The table is the concatenated entries sorted ascending by order, nothing added
      or dropped, with discovery order kept among equal orders; an entry is in it
      exactly when some mapping produces it. */
  lemma BuildTableSpec(mappings: seq<Mapping>)
    ensures SortedByOrder(BuildTable(mappings))
    ensures multiset(BuildTable(mappings)) == multiset(AllEntries(mappings))
    ensures forall k :: WithOrder(BuildTable(mappings), k) == WithOrder(AllEntries(mappings), k)
    ensures forall e :: e in BuildTable(mappings) <==> exists i :: 0 <= i < |mappings| && Produces(mappings[i], e)
  {
    SortSpec(AllEntries(mappings));
    forall e ensures e in BuildTable(mappings) <==> exists i :: 0 <= i < |mappings| && Produces(mappings[i], e) {
      assert e in BuildTable(mappings) <==> e in multiset(BuildTable(mappings));
      AllEntriesMember(mappings, e);
    }
  }

  /** Entries of two mappings with the same order keep the order of the mappings. */
  lemma EqualOrdersKeepDiscoveryOrder(mappings: seq<Mapping>, x: FastEntry, y: FastEntry, i: nat, j: nat)
    returns (p: nat, q: nat)
    requires i < j < |AllEntries(mappings)| && AllEntries(mappings)[i] == x && AllEntries(mappings)[j] == y
    requires x.order == y.order
    ensures p < q < |BuildTable(mappings)| && BuildTable(mappings)[p] == x && BuildTable(mappings)[q] == y
  {
    var s := AllEntries(mappings);
    BuildTableSpec(mappings);
    var p0, q0 := WithOrderPositions(s, x.order, i, j);
    p, q := WithOrderOrigin(BuildTable(mappings), x.order, p0, q0);
  }

  /** Two positions of `s` holding entries of order `k` keep their order in `WithOrder(s, k)`. */
  lemma {:induction false} WithOrderPositions(s: seq<FastEntry>, k: int32, i: nat, j: nat) returns (p: nat, q: nat)
    requires i < j < |s| && s[i].order == k && s[j].order == k
    ensures p < q < |WithOrder(s, k)| && WithOrder(s, k)[p] == s[i] && WithOrder(s, k)[q] == s[j]
  {
    assert s == [s[0]] + s[1..];
    WithOrderPrepend(s[0], s[1..], k);
    var w1 := WithOrder(s[1..], k);
    assert WithOrder(s, k) == (if s[0].order == k then [s[0]] else []) + w1;
    if i == 0 {
      assert s[j] == s[1..][j - 1];
      q := WithOrderIndex(s[1..], k, j - 1);
      p, q := 0, q + 1;
    } else {
      p, q := WithOrderPositions(s[1..], k, i - 1, j - 1);
      if s[0].order == k {
        p, q := p + 1, q + 1;
      }
    }
  }

  /** Where an entry of order `k` sits in `WithOrder(s, k)`. */
  lemma {:induction false} WithOrderIndex(s: seq<FastEntry>, k: int32, j: nat) returns (q: nat)
    requires j < |s| && s[j].order == k
    ensures q < |WithOrder(s, k)| && WithOrder(s, k)[q] == s[j]
  {
    assert s == [s[0]] + s[1..];
    WithOrderPrepend(s[0], s[1..], k);
    assert WithOrder(s, k) == (if s[0].order == k then [s[0]] else []) + WithOrder(s[1..], k);
    if j == 0 {
      q := 0;
    } else {
      assert s[j] == s[1..][j - 1];
      q := WithOrderIndex(s[1..], k, j - 1);
      if s[0].order == k {
        q := q + 1;
      }
    }
  }

  /** Two positions of `WithOrder(t, k)` come from positions of `t` in the same order. */
  lemma {:induction false} WithOrderOrigin(t: seq<FastEntry>, k: int32, p: nat, q: nat) returns (i: nat, j: nat)
    requires p < q < |WithOrder(t, k)|
    ensures i < j < |t| && t[i] == WithOrder(t, k)[p] && t[j] == WithOrder(t, k)[q]
  {
    assert t != [];
    assert t == [t[0]] + t[1..];
    WithOrderPrepend(t[0], t[1..], k);
    var w := WithOrder(t, k);
    var w1 := WithOrder(t[1..], k);
    assert w == (if t[0].order == k then [t[0]] else []) + w1;
    if t[0].order == k {
      if p == 0 {
        var j1 := WithOrderSource(t[1..], k, q - 1);
        i, j := 0, j1 + 1;
      } else {
        var i1, j1 := WithOrderOrigin(t[1..], k, p - 1, q - 1);
        i, j := i1 + 1, j1 + 1;
      }
    } else {
      var i1, j1 := WithOrderOrigin(t[1..], k, p, q);
      i, j := i1 + 1, j1 + 1;
    }
  }

  /** Where an element of `WithOrder(t, k)` comes from in `t`. */
  lemma {:induction false} WithOrderSource(t: seq<FastEntry>, k: int32, q: nat) returns (j: nat)
    requires q < |WithOrder(t, k)|
    ensures j < |t| && t[j] == WithOrder(t, k)[q]
  {
    assert t != [];
    assert t == [t[0]] + t[1..];
    WithOrderPrepend(t[0], t[1..], k);
    var w1 := WithOrder(t[1..], k);
    assert WithOrder(t, k) == (if t[0].order == k then [t[0]] else []) + w1;
    if t[0].order == k && q == 0 {
      j := 0;
    } else {
      var j1 := WithOrderSource(t[1..], k, if t[0].order == k then q - 1 else q);
      j := j1 + 1;
    }
  }
}
