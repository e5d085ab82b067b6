/** Flattening the servlet filters into matcher -> filters, regrouping them into
    filter -> matchers in first-seen order, and the allow-list selection. */
module FilterUtils {
  import opened Common
  import opened OrderedMaps

  /** A security request matcher, compared with `equals`: the shared
      `AnyRequestMatcher.INSTANCE`, or the matcher of some security chain. */
  datatype Matcher = AnyRequest | ChainMatcher(id: nat)

  /** A registered servlet filter: a plain filter, a `CompositeFilter` with its
      member filters, or a `FilterChainProxy` with its security chains. Filters
      are compared by value; `id` stands for the instance. */
  datatype Filter =
    | PlainFilter(id: nat, className: string)
    | CompositeFilter(id: nat, className: string, members: seq<Filter>)
    | FilterChainProxy(id: nat, className: string, chains: seq<SecurityChain>)

  /** One `SecurityFilterChain`: its request matcher and its filters. */
  datatype SecurityChain = SecurityChain(matcher: Matcher, filters: seq<Filter>)

  type Grouped = OrderedMap<Filter, Matcher>

  // ---------------------------------------------------------------------------
  // mapFiltersByMatcher

  /** The (matcher, filters) additions one top-level filter makes to the map. */
  function Contributions(f: Filter): seq<(Matcher, seq<Filter>)> {
    match f
    case FilterChainProxy(_, _, chains) => ChainPairs(chains)
    case CompositeFilter(_, _, members) => [(AnyRequest, members)]
    case PlainFilter(_, _) => [(AnyRequest, [f])]
  }

  function ChainPairs(chains: seq<SecurityChain>): (r: seq<(Matcher, seq<Filter>)>)
    ensures |r| == |chains|
    ensures forall j :: 0 <= j < |chains| ==> r[j] == (chains[j].matcher, chains[j].filters)
  {
    seq(|chains|, j requires 0 <= j < |chains| => (chains[j].matcher, chains[j].filters))
  }

  function AllContributions(fs: seq<Filter>): seq<(Matcher, seq<Filter>)> {
    if fs == [] then [] else AllContributions(fs[..|fs| - 1]) + Contributions(fs[|fs| - 1])
  }

  /** The map `mapFiltersByMatcher` returns. */
  function FlatFilters(fs: seq<Filter>): OrderedMap<Matcher, Filter> {
    Build(AllContributions(fs))
  }

  /** `FilterUtils.mapFiltersByMatcher`. */
  method MapFiltersByMatcher(filters: seq<Filter>) returns (orderedMap: OrderedMap<Matcher, Filter>)
    ensures orderedMap == FlatFilters(filters)
  {
    orderedMap := [];
    for i := 0 to |filters|
      invariant orderedMap == Build(AllContributions(filters[..i]))
    {
      ContributionsStep(filters, i);
      orderedMap := AddFilter(orderedMap, AllContributions(filters[..i]), filters[i]);
    }
    assert filters[..|filters|] == filters;
  }

  lemma ContributionsStep(fs: seq<Filter>, i: nat)
    requires i < |fs|
    ensures AllContributions(fs[..i + 1]) == AllContributions(fs[..i]) + Contributions(fs[i])
  {
    assert fs[..i + 1][..i] == fs[..i];
  }

  /** One pass of the loop: a proxy files each chain's filters under the chain's
      matcher, a composite its members and a plain filter itself under `AnyRequest`. */
  method AddFilter(orderedMap: OrderedMap<Matcher, Filter>, base: seq<(Matcher, seq<Filter>)>, f: Filter)
    returns (orderedMap': OrderedMap<Matcher, Filter>)
    requires orderedMap == Build(base)
    ensures orderedMap' == Build(base + Contributions(f))
  {
    orderedMap' := orderedMap;
    match f {
      case FilterChainProxy(_, _, chains) =>
        assert base + ChainPairs(chains[..0]) == base;
        for j := 0 to |chains|
          invariant orderedMap' == Build(base + ChainPairs(chains[..j]))
        {
          ChainPairsStep(base, chains, j);
          orderedMap' := AppendAll(orderedMap', chains[j].matcher, chains[j].filters);
        }
        assert chains[..|chains|] == chains;
      case CompositeFilter(_, _, members) =>
        BuildAppendOne(base, (AnyRequest, members));
        orderedMap' := AppendAll(orderedMap', AnyRequest, members);
      case PlainFilter(_, _) =>
        BuildAppendOne(base, (AnyRequest, [f]));
        orderedMap' := AppendAll(orderedMap', AnyRequest, [f]);
    }
  }

  lemma ChainPairsStep(base: seq<(Matcher, seq<Filter>)>, chains: seq<SecurityChain>, j: nat)
    requires j < |chains|
    ensures Build(base + ChainPairs(chains[..j + 1]))
         == AppendAll(Build(base + ChainPairs(chains[..j])), chains[j].matcher, chains[j].filters)
  {
    assert base + ChainPairs(chains[..j + 1]) == (base + ChainPairs(chains[..j])) + [(chains[j].matcher, chains[j].filters)];
    BuildAppendOne(base + ChainPairs(chains[..j]), (chains[j].matcher, chains[j].filters));
  }

  /** Reference definition: the filters placed under matcher k, in input order.
      Plain filters and composite members go under `AnyRequest`; a proxy's chain
      filters go under the chain's matcher. Nothing nested is expanded. */
  function FiltersUnder(fs: seq<Filter>, k: Matcher): seq<Filter> {
    if fs == [] then []
    else
      var f := fs[|fs| - 1];
      FiltersUnder(fs[..|fs| - 1], k) +
        match f
        case FilterChainProxy(_, _, chains) => ChainFiltersUnder(chains, k)
        case CompositeFilter(_, _, members) => if k == AnyRequest then members else []
        case PlainFilter(_, _) => if k == AnyRequest then [f] else []
  }

  function ChainFiltersUnder(chains: seq<SecurityChain>, k: Matcher): seq<Filter> {
    if chains == [] then []
    else
      var c := chains[|chains| - 1];
      ChainFiltersUnder(chains[..|chains| - 1], k) + (if c.matcher == k then c.filters else [])
  }

  /** Reference definition: the matchers in the order the filters name them. */
  function MatchersNamed(fs: seq<Filter>): seq<Matcher> {
    if fs == [] then []
    else
      var f := fs[|fs| - 1];
      MatchersNamed(fs[..|fs| - 1]) +
        match f
        case FilterChainProxy(_, _, chains) => ChainMatchers(chains)
        case _ => [AnyRequest]
  }

  function ChainMatchers(chains: seq<SecurityChain>): (r: seq<Matcher>)
    ensures |r| == |chains| && forall j :: 0 <= j < |chains| ==> r[j] == chains[j].matcher
  {
    seq(|chains|, j requires 0 <= j < |chains| => chains[j].matcher)
  }

  /** The flattened map has each matcher once, in first-named order (chains with an
      equal matcher share one key), and lists under it every filter placed there,
      in input order. */
  lemma FlatFiltersSpec(fs: seq<Filter>)
    ensures Keys(FlatFilters(fs)) == Dedup(MatchersNamed(fs))
    ensures forall k :: Lookup(FlatFilters(fs), k) == FiltersUnder(fs, k)
  {
    BuildSpec(AllContributions(fs));
    ContributionKeys(fs);
    forall k ensures Gather(AllContributions(fs), k) == FiltersUnder(fs, k) {
      ContributionsGather(fs, k);
    }
  }

  lemma {:induction false} ContributionKeys(fs: seq<Filter>)
    ensures Keys(AllContributions(fs)) == MatchersNamed(fs)
  {
    if fs != [] {
      var init := fs[..|fs| - 1];
      ContributionKeys(init);
      KeysAppend(AllContributions(init), Contributions(fs[|fs| - 1]));
      ContributionKeysOne(fs[|fs| - 1]);
    }
  }

  lemma ContributionKeysOne(f: Filter)
    ensures Keys(Contributions(f)) == match f case FilterChainProxy(_, _, chains) => ChainMatchers(chains) case _ => [AnyRequest]
  {
  }

  lemma {:induction false} ContributionsGather(fs: seq<Filter>, k: Matcher)
    ensures Gather(AllContributions(fs), k) == FiltersUnder(fs, k)
  {
    if fs != [] {
      var init, f := fs[..|fs| - 1], fs[|fs| - 1];
      ContributionsGather(init, k);
      GatherAppend(AllContributions(init), Contributions(f), k);
      match f {
        case FilterChainProxy(_, _, chains) => ChainGather(chains, k);
        case CompositeFilter(_, _, _) => assert Contributions(f)[..0] == [];
        case PlainFilter(_, _) => assert Contributions(f)[..0] == [];
      }
    }
  }

  lemma {:induction false} ChainGather(chains: seq<SecurityChain>, k: Matcher)
    ensures Gather(ChainPairs(chains), k) == ChainFiltersUnder(chains, k)
  {
    if chains != [] {
      assert ChainPairs(chains)[..|chains| - 1] == ChainPairs(chains[..|chains| - 1]);
      ChainGather(chains[..|chains| - 1], k);
    }
  }

  /** A plain filter listed after a security chain still lands under `AnyRequest`,
      which was inserted first, so it is walked before the chain's filters. */
  lemma PlainFiltersJoinFirstAnyRequestKey(p: Filter, q: Filter, a: Filter, proxy: Filter)
    requires p.PlainFilter? && q.PlainFilter? && a.PlainFilter?
    requires proxy == FilterChainProxy(9, "org.springframework.security.web.FilterChainProxy", [SecurityChain(ChainMatcher(1), [a])])
    ensures Keys(FlatFilters([p, proxy, q])) == [AnyRequest, ChainMatcher(1)]
    ensures Lookup(FlatFilters([p, proxy, q]), AnyRequest) == [p, q]
    ensures Lookup(FlatFilters([p, proxy, q]), ChainMatcher(1)) == [a]
  {
    var fs := [p, proxy, q];
    FlatFiltersSpec(fs);
    ExampleMatchersNamed(p, q, a, proxy);
    DedupExample(AnyRequest, ChainMatcher(1));
    ExampleFiltersUnder(p, q, a, proxy, AnyRequest);
    ExampleFiltersUnder(p, q, a, proxy, ChainMatcher(1));
  }

  lemma ExampleMatchersNamed(p: Filter, q: Filter, a: Filter, proxy: Filter)
    requires p.PlainFilter? && q.PlainFilter?
    requires proxy == FilterChainProxy(9, "org.springframework.security.web.FilterChainProxy", [SecurityChain(ChainMatcher(1), [a])])
    ensures MatchersNamed([p, proxy, q]) == [AnyRequest, ChainMatcher(1), AnyRequest]
  {
    var fs := [p, proxy, q];
    assert fs[..2] == [p, proxy] && fs[..2][..1] == [p] && [p][..0] == [];
    assert MatchersNamed([p]) == [AnyRequest];
    assert ChainMatchers(proxy.chains) == [ChainMatcher(1)];
    assert MatchersNamed([p, proxy]) == [AnyRequest, ChainMatcher(1)];
  }

  lemma DedupExample(x: Matcher, y: Matcher)
    requires x != y
    ensures Dedup([x, y, x]) == [x, y]
  {
    var s := [x, y, x];
    assert s[..2] == [x, y] && s[..2][..1] == [x] && [x][..0] == [];
    assert Dedup([x]) == [x];
    assert Dedup([x, y]) == [x, y];
  }

  lemma ExampleFiltersUnder(p: Filter, q: Filter, a: Filter, proxy: Filter, k: Matcher)
    requires p.PlainFilter? && q.PlainFilter?
    requires proxy == FilterChainProxy(9, "org.springframework.security.web.FilterChainProxy", [SecurityChain(ChainMatcher(1), [a])])
    ensures FiltersUnder([p, proxy, q], k) == if k == AnyRequest then [p, q] else if k == ChainMatcher(1) then [a] else []
  {
    var fs := [p, proxy, q];
    assert fs[..2] == [p, proxy] && fs[..2][..1] == [p] && [p][..0] == [];
    var chains := [SecurityChain(ChainMatcher(1), [a])];
    assert proxy.chains == chains && chains[..0] == [];
    assert ChainFiltersUnder(chains[..0], k) == [];
    var k1 := ChainFiltersUnder(chains, k);
    assert k1 == if k == ChainMatcher(1) then [a] else [];
    assert FiltersUnder([p], k) == if k == AnyRequest then [p] else [];
    assert FiltersUnder([p, proxy], k) == FiltersUnder([p], k) + k1;
  }

  // ---------------------------------------------------------------------------
  // groupMatchersByFilterOrdered

  /** The input map, with a null list read as an empty one. */
  function NonNull(m: seq<(Matcher, Option<seq<Filter>>)>): (r: OrderedMap<Matcher, Filter>)
    ensures |r| == |m|
    ensures forall i :: 0 <= i < |m| ==> r[i] == (m[i].0, if m[i].1.Some? then m[i].1.value else [])
  {
    seq(|m|, i requires 0 <= i < |m| => (m[i].0, if m[i].1.Some? then m[i].1.value else []))
  }

  /** Every list of the map, present. */
  function Nullable(m: OrderedMap<Matcher, Filter>): (r: seq<(Matcher, Option<seq<Filter>>)>)
    ensures NonNull(r) == m
  {
    seq(|m|, i requires 0 <= i < |m| => (m[i].0, Some(m[i].1)))
  }

  /** `FilterUtils.groupMatchersByFilterOrdered`: a null map gives the empty list. */
  method GroupMatchersByFilterOrdered(matcherToFiltersMap: Option<seq<(Matcher, Option<seq<Filter>>)>>)
    returns (grouped: Grouped)
    ensures matcherToFiltersMap.None? ==> grouped == []
    ensures matcherToFiltersMap.Some? ==> grouped == Regroup(NonNull(matcherToFiltersMap.value))
  {
    if matcherToFiltersMap.None? {
      return [];
    }
    grouped := RegroupEntries(NonNull(matcherToFiltersMap.value));
  }

  /** A null filter list contributes exactly what an empty one does: nothing. */
  lemma NullListContributesNothing(m: seq<(Matcher, Option<seq<Filter>>)>, k: Matcher)
    ensures Regroup(NonNull(m + [(k, None)])) == Regroup(NonNull(m))
  {
    var n := NonNull(m + [(k, None)]);
    assert n == NonNull(m) + [(k, [])];
    assert n[..|n| - 1] == NonNull(m);
    assert EntryOccurrences<Matcher, Filter>((k, [])) == [];
    assert Occurrences(n) == Occurrences(NonNull(m)) + [];
    assert Occurrences(NonNull(m)) + [] == Occurrences(NonNull(m));
  }

  // ---------------------------------------------------------------------------
  // prepareFilters

  /** `allOrderedFilters.stream().filter(class name equals).findFirst()`. */
  function FirstOfClass(grouped: Grouped, name: string): Option<(Filter, seq<Matcher>)> {
    if grouped == [] then None
    else if grouped[0].0.className == name then Some(grouped[0])
    else FirstOfClass(grouped[1..], name)
  }

  /** The search finds an entry iff some key has the class, and then it is the
      entry at the first such position. */
  lemma {:induction false} FirstOfClassSpec(grouped: Grouped, name: string) returns (i: int)
    ensures var r := FirstOfClass(grouped, name);
            && (r.None? <==> forall j :: 0 <= j < |grouped| ==> grouped[j].0.className != name)
            && (r.Some? ==> 0 <= i < |grouped| && r.value == grouped[i] && grouped[i].0.className == name
                            && forall j :: 0 <= j < i ==> grouped[j].0.className != name)
  {
    if grouped == [] {
      i := -1;
    } else if grouped[0].0.className == name {
      i := 0;
    } else {
      var k := FirstOfClassSpec(grouped[1..], name);
      i := k + 1;
      forall j | 1 <= j < |grouped| ensures grouped[j] == grouped[1..][j - 1] {
      }
    }
  }

  /** One walked filter: if its class is kept, append the first grouped entry of
      that class, or fail with "Cannot find filter" when there is none. A failure
      stays. */
  function SelectStep(grouped: Grouped, keep: seq<string>, acc: Result<Grouped, string>, f: Filter): Result<Grouped, string> {
    match acc
    case Failure(e) => Failure(e)
    case Success(sel) =>
      if f.className !in keep then acc
      else
        match FirstOfClass(grouped, f.className)
        case None => Failure("Cannot find filter " + f.className)
        case Some(e) => Success(sel + [e])
  }

  /** The walk over every (matcher, filter) occurrence of the flattened map. */
  function SelectWalk(grouped: Grouped, keep: seq<string>, occ: seq<(Matcher, Filter)>): Result<Grouped, string> {
    if occ == [] then Success([])
    else SelectStep(grouped, keep, SelectWalk(grouped, keep, occ[..|occ| - 1]), occ[|occ| - 1].1)
  }

  /** What `prepareFilters` returns, or the exception it throws. */
  function PrepareFiltersResult(filtersToKeep: seq<string>, allFilters: seq<Filter>): Result<Grouped, string> {
    var flat := FlatFilters(allFilters);
    var grouped := Regroup(flat);
    if KeepsAll(filtersToKeep) then Success(grouped) else SelectWalk(grouped, filtersToKeep, Occurrences(flat))
  }

  /** `FilterUtils.prepareFilters`. */
  method PrepareFilters(filtersToKeep: seq<string>, allFilters: seq<Filter>) returns (r: Result<Grouped, string>)
    ensures r == PrepareFiltersResult(filtersToKeep, allFilters)
  {
    var flatFilters := MapFiltersByMatcher(allFilters);
    var allOrderedFilters := GroupMatchersByFilterOrdered(Some(Nullable(flatFilters)));
    if |filtersToKeep| == 1 && filtersToKeep[0] == "*" {
      return Success(allOrderedFilters);
    }
    r := SelectOrdered(allOrderedFilters, filtersToKeep, flatFilters);
  }

  /** The selection loop of `prepareFilters`, over the lists of the flattened map. */
  method SelectOrdered(allOrderedFilters: Grouped, filtersToKeep: seq<string>, flatFilters: OrderedMap<Matcher, Filter>)
    returns (r: Result<Grouped, string>)
    ensures r == SelectWalk(allOrderedFilters, filtersToKeep, Occurrences(flatFilters))
  {
    var selected: Grouped := [];
    for i := 0 to |flatFilters|
      invariant SelectWalk(allOrderedFilters, filtersToKeep, Occurrences(flatFilters[..i])) == Success(selected)
    {
      WalkEntry(flatFilters, i);
      r := SelectFromList(allOrderedFilters, filtersToKeep, flatFilters, i, selected);
      if r.Failure? {
        return;
      }
      selected := r.value;
    }
    assert flatFilters[..|flatFilters|] == flatFilters;
    r := Success(selected);
  }

  /** The inner loop of `prepareFilters`, over the i-th list of the flattened map;
      the exception becomes a `Failure`, which is what the whole walk gives. */
  method SelectFromList(allOrderedFilters: Grouped, filtersToKeep: seq<string>, flatFilters: OrderedMap<Matcher, Filter>,
                        i: nat, selected0: Grouped)
    returns (r: Result<Grouped, string>)
    requires i < |flatFilters|
    requires SelectWalk(allOrderedFilters, filtersToKeep, Walk(flatFilters, i, 0)) == Success(selected0)
    ensures r.Success? ==> r == SelectWalk(allOrderedFilters, filtersToKeep, Walk(flatFilters, i, |flatFilters[i].1|))
    ensures r.Failure? ==> r == SelectWalk(allOrderedFilters, filtersToKeep, Occurrences(flatFilters))
  {
    var inOrderList := flatFilters[i].1;
    var selected := selected0;
    for j := 0 to |inOrderList|
      invariant SelectWalk(allOrderedFilters, filtersToKeep, Walk(flatFilters, i, j)) == Success(selected)
    {
      WalkStep(allOrderedFilters, filtersToKeep, flatFilters, i, j);
      var name := inOrderList[j].className;
      if name in filtersToKeep {
        var foundEntry := FirstOfClass(allOrderedFilters, name);
        if foundEntry.None? {
          WalkIsPrefix(flatFilters, i, j + 1);
          FailureSticks(allOrderedFilters, filtersToKeep, Occurrences(flatFilters), Walk(flatFilters, i, j + 1));
          return Failure("Cannot find filter " + name);
        }
        selected := selected + [foundEntry.value];
      }
    }
    r := Success(selected);
  }

  /** The occurrences walked before the j-th filter of the i-th list. */
  function Walk(m: OrderedMap<Matcher, Filter>, i: nat, j: nat): seq<(Matcher, Filter)>
    requires i < |m| && j <= |m[i].1|
  {
    Occurrences(m[..i]) + EntryOccurrences((m[i].0, m[i].1[..j]))
  }

  lemma WalkStep(grouped: Grouped, keep: seq<string>, m: OrderedMap<Matcher, Filter>, i: nat, j: nat)
    requires i < |m| && j < |m[i].1|
    ensures SelectWalk(grouped, keep, Walk(m, i, j + 1)) == SelectStep(grouped, keep, SelectWalk(grouped, keep, Walk(m, i, j)), m[i].1[j])
  {
    EntryOccurrencesStep(m[i].0, m[i].1, j);
    var w := Walk(m, i, j + 1);
    assert w == Walk(m, i, j) + [(m[i].0, m[i].1[j])];
    assert w[..|w| - 1] == Walk(m, i, j);
  }

  lemma WalkEntry(m: OrderedMap<Matcher, Filter>, i: nat)
    requires i < |m|
    ensures Walk(m, i, 0) == Occurrences(m[..i])
    ensures Walk(m, i, |m[i].1|) == Occurrences(m[..i + 1])
  {
    assert m[i].1[..|m[i].1|] == m[i].1;
    assert EntryOccurrences((m[i].0, m[i].1[..0])) == [];
    OccurrencesStep(m, i);
  }

  lemma WalkIsPrefix(m: OrderedMap<Matcher, Filter>, i: nat, j: nat)
    requires i < |m| && j <= |m[i].1|
    ensures Walk(m, i, j) <= Occurrences(m)
  {
    WalkEntry(m, i);
    assert EntryOccurrences((m[i].0, m[i].1[..j])) <= EntryOccurrences(m[i]);
    OccurrencesPrefix(m, i + 1);
  }

  lemma {:induction false} OccurrencesPrefix<K, V>(m: OrderedMap<K, V>, n: nat)
    requires n <= |m|
    ensures Occurrences(m[..n]) <= Occurrences(m)
    decreases |m| - n
  {
    if n < |m| {
      OccurrencesPrefix(m, n + 1);
      OccurrencesStep(m, n);
    } else {
      assert m[..n] == m;
    }
  }

  /** Once the walk fails, the rest of the walk keeps that failure. */
  lemma FailureSticks(grouped: Grouped, keep: seq<string>, occ: seq<(Matcher, Filter)>, pre: seq<(Matcher, Filter)>)
    requires pre <= occ && SelectWalk(grouped, keep, pre).Failure?
    ensures SelectWalk(grouped, keep, occ) == SelectWalk(grouped, keep, pre)
  {
    assert occ[..|pre|] == pre;
    FailureSticksFrom(grouped, keep, occ, |pre|);
  }

  lemma {:induction false} FailureSticksFrom(grouped: Grouped, keep: seq<string>, occ: seq<(Matcher, Filter)>, n: nat)
    requires n <= |occ| && SelectWalk(grouped, keep, occ[..n]).Failure?
    ensures SelectWalk(grouped, keep, occ) == SelectWalk(grouped, keep, occ[..n])
    decreases |occ| - n
  {
    if n < |occ| {
      assert occ[..n + 1][..n] == occ[..n];
      FailureSticksFrom(grouped, keep, occ, n + 1);
    } else {
      assert occ[..n] == occ;
    }
  }

  /** The filters walked whose class is allow-listed, in walk order. */
  function KeptFilters(occ: seq<(Matcher, Filter)>, keep: seq<string>): seq<Filter> {
    if occ == [] then []
    else KeptFilters(occ[..|occ| - 1], keep) + (if occ[|occ| - 1].1.className in keep then [occ[|occ| - 1].1] else [])
  }

  /** When every walked filter is a grouped key, the walk never fails and yields,
      for each kept walked filter, the first grouped entry of its class. */
  lemma {:induction false} SelectWalkSpec(grouped: Grouped, keep: seq<string>, occ: seq<(Matcher, Filter)>)
    requires forall i :: 0 <= i < |occ| ==> occ[i].1 in Keys(grouped)
    ensures var r := SelectWalk(grouped, keep, occ);
            && r.Success?
            && |r.value| == |KeptFilters(occ, keep)|
            && forall t :: 0 <= t < |r.value| ==>
                 FirstOfClass(grouped, KeptFilters(occ, keep)[t].className) == Some(r.value[t])
  {
    if occ != [] {
      var init, last := occ[..|occ| - 1], occ[|occ| - 1];
      SelectWalkSpec(grouped, keep, init);
      var k := IndexOfKey(grouped, last.1);
      assert Keys(grouped)[k] == last.1;
      assert grouped[k].0.className == last.1.className;
      var _ := FirstOfClassSpec(grouped, last.1.className);
    }
  }

  /** `prepareFilters` never throws "Cannot find filter": every walked filter is a
      key of the grouped list, so a filter of its class is always found. Unknown
      allow-list names select nothing. */
  lemma PrepareFiltersNeverFails(filtersToKeep: seq<string>, allFilters: seq<Filter>)
    ensures PrepareFiltersResult(filtersToKeep, allFilters).Success?
    ensures !KeepsAll(filtersToKeep) ==>
              var flat := FlatFilters(allFilters);
              var sel := PrepareFiltersResult(filtersToKeep, allFilters).value;
              && |sel| == |KeptFilters(Occurrences(flat), filtersToKeep)|
              && forall t :: 0 <= t < |sel| ==>
                   FirstOfClass(Regroup(flat), KeptFilters(Occurrences(flat), filtersToKeep)[t].className) == Some(sel[t])
  {
    var flat := FlatFilters(allFilters);
    var occ := Occurrences(flat);
    RegroupSpec(flat);
    DedupSpec(Walked(occ));
    forall i | 0 <= i < |occ| ensures occ[i].1 in Keys(Regroup(flat)) {
      assert Walked(occ)[i] == occ[i].1;
    }
    SelectWalkSpec(Regroup(flat), filtersToKeep, occ);
  }

  /** Two instances of one allow-listed class: the first instance's entry is
      selected twice and the second instance is not selected at all. */
  lemma SameClassIsSelectedTwice(a1: Filter, a2: Filter)
    requires a1 == PlainFilter(1, "A") && a2 == PlainFilter(2, "A")
    ensures var r := PrepareFiltersResult(["A"], [a1, a2]);
            r.Success? && |r.value| == 2 && r.value[0] == r.value[1] && r.value[0].0 == a1
  {
    var fs := [a1, a2];
    var flat := FlatFilters(fs);
    TwoPlainFilters(a1, a2);
    var occ := Occurrences(flat);
    TwoOccurrences(a1, a2);
    KeptExample(a1, a2);
    PrepareFiltersNeverFails(["A"], fs);
    var grouped := Regroup(flat);
    RegroupSpec(flat);
    assert Walked(occ) == [a1, a2];
    DedupPair(a1, a2);
    assert Keys(grouped) == [a1, a2];
    assert grouped[0].0 == a1;
    var i := FirstOfClassSpec(grouped, "A");
    assert FirstOfClass(grouped, "A") == Some(grouped[0]);
  }

  lemma TwoOccurrences(a1: Filter, a2: Filter)
    ensures Occurrences([(AnyRequest, [a1, a2])]) == [(AnyRequest, a1), (AnyRequest, a2)]
  {
    var m := [(AnyRequest, [a1, a2])];
    assert m[..0] == [];
    assert EntryOccurrences(m[0]) == [(AnyRequest, a1), (AnyRequest, a2)];
  }

  lemma KeptExample(a1: Filter, a2: Filter)
    requires a1.className == "A" && a2.className == "A"
    ensures KeptFilters([(AnyRequest, a1), (AnyRequest, a2)], ["A"]) == [a1, a2]
  {
    var occ := [(AnyRequest, a1), (AnyRequest, a2)];
    assert occ[..1] == [(AnyRequest, a1)] && occ[..1][..0] == [];
    assert KeptFilters(occ[..1], ["A"]) == [a1];
  }

  lemma DedupPair<T>(x: T, y: T)
    requires x != y
    ensures Dedup([x, y]) == [x, y]
  {
    assert [x, y][..1] == [x] && [x][..0] == [];
    assert Dedup([x]) == [x];
  }

  lemma TwoPlainFilters(a1: Filter, a2: Filter)
    requires a1.PlainFilter? && a2.PlainFilter?
    ensures FlatFilters([a1, a2]) == [(AnyRequest, [a1, a2])]
  {
    TwoPlainContributions(a1, a2);
    BuildSameKey(AnyRequest, [a1], [a2]);
    assert [a1] + [a2] == [a1, a2];
  }

  lemma TwoPlainContributions(a1: Filter, a2: Filter)
    requires a1.PlainFilter? && a2.PlainFilter?
    ensures AllContributions([a1, a2]) == [(AnyRequest, [a1]), (AnyRequest, [a2])]
  {
    var fs := [a1, a2];
    assert fs[..1] == [a1] && [a1][..0] == [];
    assert AllContributions([a1]) == [(AnyRequest, [a1])];
  }

  lemma BuildSameKey<K, V>(k: K, xs: seq<V>, ys: seq<V>)
    ensures Build([(k, xs), (k, ys)]) == [(k, xs + ys)]
  {
    var c1, c2 := (k, xs), (k, ys);
    assert [c1, c2][..1] == [c1] && [c1][..0] == [];
    assert Build([c1]) == [c1];
    assert IndexOfKey([c1], k) == 0;
  }
}
