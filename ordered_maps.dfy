/** Insertion-ordered multimaps: the `LinkedHashMap<K, List<V>>` values that the
    middleware flattener fills with `computeIfAbsent(k, ArrayList::new).add(v)` and
    `.addAll(vs)`. A map is a sequence of (key, values) entries with distinct keys,
    in key insertion order. */
module OrderedMaps {

  type OrderedMap<K, V> = seq<(K, seq<V>)>

  function Keys<K, V>(m: seq<(K, V)>): (r: seq<K>)
    ensures |r| == |m|
    ensures forall i :: 0 <= i < |m| ==> r[i] == m[i].0
  {
    if m == [] then [] else Keys(m[..|m| - 1]) + [m[|m| - 1].0]
  }

  predicate Distinct<T(==)>(s: seq<T>) {
    forall i, j :: 0 <= i < j < |s| ==> s[i] != s[j]
  }

  function IndexOfKey<K(==), V>(m: seq<(K, V)>, k: K): (r: int)
    ensures -1 <= r < |m|
    ensures r >= 0 ==> m[r].0 == k && forall i :: 0 <= i < r ==> m[i].0 != k
    ensures r < 0 ==> forall i :: 0 <= i < |m| ==> m[i].0 != k
  {
    if m == [] then -1
    else
      var r := IndexOfKey(m[..|m| - 1], k);
      if r >= 0 then r else if m[|m| - 1].0 == k then |m| - 1 else -1
  }

  /** `get(k)`, with an absent key read as the empty list. */
  function Lookup<K(==), V>(m: OrderedMap<K, V>, k: K): seq<V> {
    var i := IndexOfKey(m, k);
    if i < 0 then [] else m[i].1
  }

  /** `computeIfAbsent(k, ArrayList::new).addAll(vs)`: a new key goes to the end,
      an existing key keeps its position and gets `vs` appended. */
  function AppendAll<K(==), V>(m: OrderedMap<K, V>, k: K, vs: seq<V>): OrderedMap<K, V> {
    var i := IndexOfKey(m, k);
    if i < 0 then m + [(k, vs)] else m[i := (k, m[i].1 + vs)]
  }

  /** The map that a left-to-right walk of (key, values) contributions produces,
      starting from an empty map. */
  function Build<K(==), V>(pairs: seq<(K, seq<V>)>): OrderedMap<K, V> {
    if pairs == [] then []
    else
      var last := pairs[|pairs| - 1];
      AppendAll(Build(pairs[..|pairs| - 1]), last.0, last.1)
  }

  /** The elements of `s` at their first occurrence, in order. */
  function Dedup<T(==)>(s: seq<T>): seq<T> {
    if s == [] then []
    else
      var d := Dedup(s[..|s| - 1]);
      if s[|s| - 1] in d then d else d + [s[|s| - 1]]
  }

  /** Everything contributed under key `k`, in walk order. */
  function Gather<K(==), V>(pairs: seq<(K, seq<V>)>, k: K): seq<V> {
    if pairs == [] then []
    else
      var last := pairs[|pairs| - 1];
      Gather(pairs[..|pairs| - 1], k) + (if last.0 == k then last.1 else [])
  }

  lemma {:induction false} DedupSpec<T>(s: seq<T>)
    ensures Distinct(Dedup(s))
    ensures forall x :: x in Dedup(s) <==> x in s
    ensures forall i, j :: 0 <= i < j < |Dedup(s)| ==> Position(s, Dedup(s)[i]) < Position(s, Dedup(s)[j])
  {
    if s != [] {
      var p := s[..|s| - 1];
      var x := s[|s| - 1];
      assert s == p + [x];
      DedupSpec(p);
      var d := Dedup(p);
      forall y | y in p ensures Position(s, y) == Position(p, y) < |p| {
        PositionPrefix(p, s, y);
        PositionMember(p, y);
      }
      if x !in d {
        assert x !in p;
        PositionLast(s);
        forall i, j | 0 <= i < j < |d| + 1
          ensures Position(s, (d + [x])[i]) < Position(s, (d + [x])[j])
        {
          assert (d + [x])[i] == d[i] && d[i] in d;
          if j < |d| {
            assert (d + [x])[j] == d[j] && d[j] in d;
          } else {
            assert (d + [x])[j] == x;
            assert Position(s, d[i]) < |p|;
          }
        }
      } else {
        forall i, j | 0 <= i < j < |d|
          ensures Position(s, d[i]) < Position(s, d[j])
        {
          assert d[i] in d && d[j] in d;
        }
      }
    }
  }

  /** Position of the first occurrence of `x` in `s`, or |s|. */
  function Position<T(==)>(s: seq<T>, x: T): (r: nat)
    ensures r <= |s|
    ensures r < |s| ==> s[r] == x
    ensures x !in s[..r]
  {
    if s == [] then 0 else if s[0] == x then 0 else 1 + Position(s[1..], x)
  }

  lemma PositionMember<T>(s: seq<T>, x: T)
    requires x in s
    ensures Position(s, x) < |s|
  {
  }

  lemma {:induction false} PositionPrefix<T>(p: seq<T>, s: seq<T>, x: T)
    requires p <= s && x in p
    ensures Position(s, x) == Position(p, x)
  {
    if s[0] != x {
      assert x in p[1..];
      PositionPrefix(p[1..], s[1..], x);
    }
  }

  lemma PositionLast<T>(s: seq<T>)
    requires s != [] && s[|s| - 1] !in s[..|s| - 1]
    ensures Position(s, s[|s| - 1]) == |s| - 1
  {
  }

  /** How one `computeIfAbsent(k).addAll(vs)` changes the keys and the lists. */
  lemma AppendAllSpec<K, V>(m: OrderedMap<K, V>, k: K, vs: seq<V>)
    ensures Keys(AppendAll(m, k, vs)) == if k in Keys(m) then Keys(m) else Keys(m) + [k]
    ensures forall k' :: Lookup(AppendAll(m, k, vs), k') == Lookup(m, k') + (if k' == k then vs else [])
  {
    var i := IndexOfKey(m, k);
    var m' := AppendAll(m, k, vs);
    if i < 0 {
      assert k !in Keys(m);
      forall k' ensures Lookup(m', k') == Lookup(m, k') + (if k' == k then vs else []) {
        if k' == k {
          assert IndexOfKey(m', k') == |m|;
        } else {
          assert m'[..|m|] == m;
          PrefixIndex(m, m', k');
        }
      }
    } else {
      assert Keys(m)[i] == k;
      assert Keys(m') == Keys(m);
      forall k' ensures Lookup(m', k') == Lookup(m, k') + (if k' == k then vs else []) {
        if k' == k {
          assert IndexOfKey(m', k') == i;
        } else {
          SameKeysIndex(m, m', k');
        }
      }
    }
  }

  lemma PrefixIndex<K, V>(m: seq<(K, V)>, m': seq<(K, V)>, k: K)
    requires |m'| == |m| + 1 && m'[..|m|] == m && m'[|m|].0 != k
    ensures IndexOfKey(m', k) == IndexOfKey(m, k)
  {
    var a, b := IndexOfKey(m', k), IndexOfKey(m, k);
    if a >= 0 {
      assert m[a].0 == k;
    }
  }

  lemma SameKeysIndex<K, V>(m: seq<(K, V)>, m': seq<(K, V)>, k: K)
    requires |m'| == |m|
    requires forall j :: 0 <= j < |m| ==> m'[j].0 == m[j].0
    ensures IndexOfKey(m', k) == IndexOfKey(m, k)
  {
    var a, b := IndexOfKey(m', k), IndexOfKey(m, k);
    if a >= 0 {
      assert m[a].0 == k;
    }
    if b >= 0 {
      assert m'[b].0 == k;
    }
  }

  lemma KeysSnoc<K, V>(m: seq<(K, V)>, e: (K, V))
    ensures Keys(m + [e]) == Keys(m) + [e.0]
  {
    assert (m + [e])[..|m|] == m;
  }

  /** What `Build` produces: each key once, in first-contribution order, holding
      everything contributed under it, in walk order. */
  lemma {:induction false} BuildSpec<K, V>(pairs: seq<(K, seq<V>)>)
    ensures Keys(Build(pairs)) == Dedup(Keys(pairs))
    ensures forall k :: Lookup(Build(pairs), k) == Gather(pairs, k)
  {
    if pairs != [] {
      var init := pairs[..|pairs| - 1];
      var last := pairs[|pairs| - 1];
      assert pairs == init + [last];
      BuildSpec(init);
      KeysSnoc(init, last);
      var ks := Keys(pairs);
      assert ks[..|ks| - 1] == Keys(init);
      DedupSpec(Keys(init));
      AppendAllSpec(Build(init), last.0, last.1);
    }
  }

  lemma KeysAppend<K, V>(a: seq<(K, V)>, b: seq<(K, V)>)
    ensures Keys(a + b) == Keys(a) + Keys(b)
  {
  }

  lemma {:induction false} GatherAppend<K, V>(a: seq<(K, seq<V>)>, b: seq<(K, seq<V>)>, k: K)
    ensures Gather(a + b, k) == Gather(a, k) + Gather(b, k)
    decreases |b|
  {
    if b != [] {
      var b' := b[..|b| - 1];
      assert (a + b)[..|a + b| - 1] == a + b';
      GatherAppend(a, b', k);
    } else {
      assert a + b == a;
    }
  }

  /** When every contribution is non-empty, something is gathered under `k` exactly
      when `k` was contributed to. */
  lemma {:induction false} GatherNonEmpty<K, V>(pairs: seq<(K, seq<V>)>, k: K)
    requires forall t :: 0 <= t < |pairs| ==> pairs[t].1 != []
    ensures Gather(pairs, k) != [] <==> k in Keys(pairs)
  {
    if pairs != [] {
      var init := pairs[..|pairs| - 1];
      GatherNonEmpty(init, k);
      KeysSnoc(init, pairs[|pairs| - 1]);
      assert init + [pairs[|pairs| - 1]] == pairs;
    }
  }

  /** The keys of a built map are distinct. */
  lemma BuildDistinct<K, V>(pairs: seq<(K, seq<V>)>)
    ensures Distinct(Keys(Build(pairs)))
  {
    BuildSpec(pairs);
    DedupSpec(Keys(pairs));
  }

  // ---------------------------------------------------------------------------
  // Walking a map entry by entry and value by value

  /** Every (key, value) pair of `m`, in map order and list order. */
  function Occurrences<K, V>(m: OrderedMap<K, V>): seq<(K, V)> {
    if m == [] then [] else Occurrences(m[..|m| - 1]) + EntryOccurrences(m[|m| - 1])
  }

  function EntryOccurrences<K, V>(e: (K, seq<V>)): (r: seq<(K, V)>)
    ensures |r| == |e.1|
    ensures forall j :: 0 <= j < |r| ==> r[j] == (e.0, e.1[j])
  {
    seq(|e.1|, j requires 0 <= j < |e.1| => (e.0, e.1[j]))
  }

  /** Each value as a key holding its one-element list of keys: the input of a regrouping. */
  function Swapped<K, V>(occ: seq<(K, V)>): (r: seq<(V, seq<K>)>)
    ensures |r| == |occ|
    ensures forall i :: 0 <= i < |occ| ==> r[i] == (occ[i].1, [occ[i].0])
  {
    if occ == [] then [] else Swapped(occ[..|occ| - 1]) + [(occ[|occ| - 1].1, [occ[|occ| - 1].0])]
  }

  /** The keys under which `v` occurs, with repeats, in walk order. */
  function KeysOf<K, V(==)>(occ: seq<(K, V)>, v: V): seq<K> {
    if occ == [] then []
    else KeysOf(occ[..|occ| - 1], v) + (if occ[|occ| - 1].1 == v then [occ[|occ| - 1].0] else [])
  }

  /** The values walked, in order. */
  function Walked<K, V>(occ: seq<(K, V)>): (r: seq<V>)
    ensures |r| == |occ|
    ensures forall i :: 0 <= i < |occ| ==> r[i] == occ[i].1
  {
    if occ == [] then [] else Walked(occ[..|occ| - 1]) + [occ[|occ| - 1].1]
  }

  /** Regrouping value -> keys: the `orderedGrouping` loop of the flattener. */
  function Regroup<K, V(==)>(m: OrderedMap<K, V>): OrderedMap<V, K> {
    Build(Swapped(Occurrences(m)))
  }

  lemma {:induction false} GatherSwapped<K, V>(occ: seq<(K, V)>, v: V)
    ensures Gather(Swapped(occ), v) == KeysOf(occ, v)
  {
    if occ != [] {
      GatherSwapped(occ[..|occ| - 1], v);
      assert Swapped(occ)[..|occ| - 1] == Swapped(occ[..|occ| - 1]);
    }
  }

  lemma KeysSwapped<K, V>(occ: seq<(K, V)>)
    ensures Keys(Swapped(occ)) == Walked(occ)
  {
  }

  /** The regrouped map lists each walked value once, in the order first seen, and
      holds for each the key of every occurrence, repeats included. */
  lemma RegroupSpec<K, V>(m: OrderedMap<K, V>)
    ensures Keys(Regroup(m)) == Dedup(Walked(Occurrences(m)))
    ensures Distinct(Keys(Regroup(m)))
    ensures forall v :: Lookup(Regroup(m), v) == KeysOf(Occurrences(m), v)
  {
    var occ := Occurrences(m);
    BuildSpec(Swapped(occ));
    KeysSwapped(occ);
    DedupSpec(Walked(occ));
    forall v ensures Lookup(Regroup(m), v) == KeysOf(occ, v) {
      GatherSwapped(occ, v);
    }
  }

  lemma OccurrencesStep<K, V>(m: OrderedMap<K, V>, i: nat)
    requires i < |m|
    ensures Occurrences(m[..i + 1]) == Occurrences(m[..i]) + EntryOccurrences(m[i])
  {
    assert m[..i + 1][..i] == m[..i];
  }

  lemma EntryOccurrencesStep<K, V>(k: K, vs: seq<V>, j: nat)
    requires j < |vs|
    ensures EntryOccurrences((k, vs[..j + 1])) == EntryOccurrences((k, vs[..j])) + [(k, vs[j])]
  {
  }

  lemma SwappedAppend<K, V>(a: seq<(K, V)>, b: seq<(K, V)>)
    ensures Swapped(a + b) == Swapped(a) + Swapped(b)
  {
  }

  lemma BuildAppendOne<K, V>(pairs: seq<(K, seq<V>)>, p: (K, seq<V>))
    ensures Build(pairs + [p]) == AppendAll(Build(pairs), p.0, p.1)
  {
    assert (pairs + [p])[..|pairs|] == pairs;
  }

  /** The regrouping loop: walk the entries in order and, for every value of every
      list, `computeIfAbsent(value, ArrayList::new).add(key)`. */
  method RegroupEntries<K, V(==)>(m: OrderedMap<K, V>) returns (grouped: OrderedMap<V, K>)
    ensures grouped == Regroup(m)
  {
    grouped := [];
    for i := 0 to |m|
      invariant grouped == Regroup(m[..i])
    {
      grouped := RegroupEntry(grouped, Occurrences(m[..i]), m[i].0, m[i].1);
      OccurrencesStep(m, i);
    }
    assert m[..|m|] == m;
  }

  /** The inner loop of a regrouping: every value of one entry's list, in order,
      gets the entry's key appended. */
  method RegroupEntry<K, V(==)>(grouped: OrderedMap<V, K>, before: seq<(K, V)>, k: K, vs: seq<V>)
    returns (grouped': OrderedMap<V, K>)
    requires grouped == Build(Swapped(before))
    ensures grouped' == Build(Swapped(before + EntryOccurrences((k, vs))))
  {
    grouped' := grouped;
    assert before + EntryOccurrences((k, vs[..0])) == before;
    for j := 0 to |vs|
      invariant grouped' == Build(Swapped(before + EntryOccurrences((k, vs[..j]))))
    {
      RegroupStep(before, k, vs, j);
      grouped' := AppendAll(grouped', vs[j], [k]);
    }
    assert vs[..|vs|] == vs;
  }

  lemma RegroupStep<K, V>(before: seq<(K, V)>, k: K, vs: seq<V>, j: nat)
    requires j < |vs|
    ensures Build(Swapped(before + EntryOccurrences((k, vs[..j + 1]))))
         == AppendAll(Build(Swapped(before + EntryOccurrences((k, vs[..j])))), vs[j], [k])
  {
    var prev := before + EntryOccurrences((k, vs[..j]));
    EntryOccurrencesStep(k, vs, j);
    assert before + EntryOccurrences((k, vs[..j + 1])) == prev + [(k, vs[j])];
    SwappedAppend(prev, [(k, vs[j])]);
    BuildAppendOne(Swapped(prev), (vs[j], [k]));
  }

  /** A value is a key of the regrouped map exactly when it was walked at least once. */
  lemma RegroupKeys<K, V>(m: OrderedMap<K, V>)
    ensures forall v :: v in Keys(Regroup(m)) <==> Lookup(Regroup(m), v) != []
  {
    RegroupSpec(m);
    var occ := Occurrences(m);
    DedupSpec(Walked(occ));
    forall v ensures v in Walked(occ) <==> KeysOf(occ, v) != [] {
      KeysOfNonEmpty(occ, v);
    }
  }

  lemma {:induction false} KeysOfNonEmpty<K, V>(occ: seq<(K, V)>, v: V)
    ensures KeysOf(occ, v) != [] <==> v in Walked(occ)
  {
    if occ != [] {
      var init := occ[..|occ| - 1];
      KeysOfNonEmpty(init, v);
      assert Walked(occ) == Walked(init) + [occ[|occ| - 1].1];
    }
  }

  lemma {:induction false} KeysOfAppend<K, V>(a: seq<(K, V)>, b: seq<(K, V)>, v: V)
    ensures KeysOf(a + b, v) == KeysOf(a, v) + KeysOf(b, v)
    decreases |b|
  {
    if b != [] {
      var b' := b[..|b| - 1];
      assert (a + b)[..|a + b| - 1] == a + b';
      KeysOfAppend(a, b', v);
    } else {
      assert a + b == a;
    }
  }

  // ---------------------------------------------------------------------------
  // Stream filtering

  /** `stream().filter(keep).toList()`: the elements that pass, in order. */
  function Filtered<T>(s: seq<T>, keep: T -> bool): seq<T> {
    if s == [] then []
    else Filtered(s[..|s| - 1], keep) + (if keep(s[|s| - 1]) then [s[|s| - 1]] else [])
  }

  /** Filtering keeps exactly the elements that pass, and keeps them in order. */
  lemma FilteredSpec<T>(s: seq<T>, keep: T -> bool)
    ensures forall x :: x in Filtered(s, keep) <==> x in s && keep(x)
    ensures Distinct(s) ==>
              && Distinct(Filtered(s, keep))
              && forall i, j :: 0 <= i < j < |Filtered(s, keep)| ==>
                   Position(s, Filtered(s, keep)[i]) < Position(s, Filtered(s, keep)[j])
  {
    FilteredMember(s, keep);
    if Distinct(s) {
      FilteredOrder(s, keep);
      var f := Filtered(s, keep);
      forall i, j | 0 <= i < j < |f| ensures f[i] != f[j] {
        assert f[i] in f;
      }
    }
  }

  lemma {:induction false} FilteredMember<T>(s: seq<T>, keep: T -> bool)
    ensures forall x :: x in Filtered(s, keep) <==> x in s && keep(x)
  {
    if s != [] {
      var p, x := s[..|s| - 1], s[|s| - 1];
      assert s == p + [x];
      FilteredMember(p, keep);
    }
  }

  lemma {:induction false} FilteredOrder<T>(s: seq<T>, keep: T -> bool)
    requires Distinct(s)
    ensures forall i, j :: 0 <= i < j < |Filtered(s, keep)| ==>
              Position(s, Filtered(s, keep)[i]) < Position(s, Filtered(s, keep)[j])
  {
    if s != [] {
      var p, x := s[..|s| - 1], s[|s| - 1];
      assert s == p + [x];
      assert Distinct(p);
      FilteredOrder(p, keep);
      var f := Filtered(p, keep);
      var r := Filtered(s, keep);
      assert r == f + (if keep(x) then [x] else []);
      forall i, j | 0 <= i < j < |r| ensures Position(s, r[i]) < Position(s, r[j]) {
        FilteredElement(p, keep, i);
        assert r[i] == f[i];
        PositionExtend(p, x, f[i]);
        if j < |f| {
          FilteredElement(p, keep, j);
          assert r[j] == f[j];
          PositionExtend(p, x, f[j]);
        } else {
          assert r[j] == x && x !in p;
          PositionLast(s);
        }
      }
    }
  }

  lemma FilteredElement<T>(s: seq<T>, keep: T -> bool, i: nat)
    requires i < |Filtered(s, keep)|
    ensures Filtered(s, keep)[i] in s && keep(Filtered(s, keep)[i])
  {
    FilteredMember(s, keep);
    assert Filtered(s, keep)[i] in Filtered(s, keep);
  }

  lemma PositionExtend<T>(p: seq<T>, x: T, y: T)
    requires y in p
    ensures Position(p + [x], y) == Position(p, y) < |p|
  {
    PositionPrefix(p, p + [x], y);
    PositionMember(p, y);
  }

  lemma {:induction false} FilteredAppend<T>(a: seq<T>, b: seq<T>, keep: T -> bool)
    ensures Filtered(a + b, keep) == Filtered(a, keep) + Filtered(b, keep)
    decreases |b|
  {
    if b != [] {
      var b' := b[..|b| - 1];
      assert (a + b)[..|a + b| - 1] == a + b';
      FilteredAppend(a, b', keep);
    } else {
      assert a + b == a;
    }
  }

  /** Filtering a map keeps its keys distinct when they were. */
  lemma FilteredKeysDistinct<K, V>(m: seq<(K, V)>, keep: ((K, V)) -> bool)
    requires Distinct(Keys(m))
    ensures Distinct(Keys(Filtered(m, keep)))
  {
    var f := Filtered(m, keep);
    DistinctEntries(m);
    FilteredSpec(m, keep);
    forall i, j | 0 <= i < j < |f| ensures Keys(f)[i] != Keys(f)[j] {
      var a, b := Position(m, f[i]), Position(m, f[j]);
      assert f[i] in m && f[j] in m;
      PositionMember(m, f[i]);
      PositionMember(m, f[j]);
      assert Keys(m)[a] != Keys(m)[b];
    }
  }

  /** Entries with distinct keys are distinct. */
  lemma DistinctEntries<K, V>(m: seq<(K, V)>)
    requires Distinct(Keys(m))
    ensures Distinct(m)
  {
    forall i, j | 0 <= i < j < |m| ensures m[i] != m[j] {
      assert Keys(m)[i] != Keys(m)[j];
    }
  }
}
