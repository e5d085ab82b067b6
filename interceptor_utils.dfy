/** Flattening the MVC handler interceptors into matcher -> interceptors, regrouping
    them into interceptor -> matchers in first-seen order, per-request selection and
    the allow-list selection. */
module InterceptorUtils {
  import opened Common
  import opened OrderedMaps

  /** A `HandlerInterceptor` instance; `id` stands for its identity. */
  datatype Interceptor = Interceptor(id: nat, className: string)

  /** A registered interceptor: a plain one, or a `MappedInterceptor` with its
      include patterns (possibly null), its exclude patterns and the interceptor it
      wraps. */
  datatype Registered =
    | Plain(interceptor: Interceptor)
    | Mapped(includes: Option<seq<string>>, excludes: Option<seq<string>>, inner: Interceptor)

  /** An `InterceptorRequestMatcher`. It does not override `equals`, so only the
      shared `MATCH_ALL` instance is ever equal to another key; every matcher that
      the flattener creates with `new` is told apart by where it was created: the
      position of the registered interceptor and of the include pattern. */
  datatype InterceptorMatcher =
    | MatchAll
    | PatternMatcher(registration: nat, patternIndex: nat, pattern: string)

  /** The pattern of `MATCH_ALL`. */
  const MatchAllPattern: string := "/**"

  function Pattern(m: InterceptorMatcher): string {
    match m
    case MatchAll => MatchAllPattern
    case PatternMatcher(_, _, p) => p
  }

  /** `AntPathMatcher.match(pattern, path)`, a library call taken as a parameter. */
  type AntMatch = (string, string) -> bool

  /** `InterceptorRequestMatcher.matches`: the Ant match of its pattern against the request URI. */
  predicate MatcherMatches(ant: AntMatch, requestUri: string, m: InterceptorMatcher) {
    ant(Pattern(m), requestUri)
  }

  type Flat = OrderedMap<InterceptorMatcher, Interceptor>
  type Grouped = OrderedMap<Interceptor, InterceptorMatcher>

  // ---------------------------------------------------------------------------
  // mapInterceptorsByMatcher

  /** A `MappedInterceptor` with a non-null, non-empty include list. */
  predicate HasIncludes(r: Registered) {
    r.Mapped? && r.includes.Some? && |r.includes.value| > 0
  }

  /** The interceptor that ends up in the map. */
  function Target(r: Registered): Interceptor {
    match r
    case Plain(x) => x
    case Mapped(_, _, x) => x
  }

  /** One fresh matcher per include pattern of the interceptor at position `i`. */
  function PatternPairs(i: nat, x: Interceptor, ps: seq<string>): (r: seq<(InterceptorMatcher, seq<Interceptor>)>)
    ensures |r| == |ps|
    ensures forall j :: 0 <= j < |ps| ==> r[j] == (PatternMatcher(i, j, ps[j]), [x])
  {
    seq(|ps|, j requires 0 <= j < |ps| => (PatternMatcher(i, j, ps[j]), [x]))
  }

  /** The (matcher, interceptors) additions of the interceptor at position `i`. */
  function Contributions(i: nat, r: Registered): seq<(InterceptorMatcher, seq<Interceptor>)> {
    if HasIncludes(r) then PatternPairs(i, r.inner, r.includes.value) else [(MatchAll, [Target(r)])]
  }

  function AllContributions(rs: seq<Registered>): seq<(InterceptorMatcher, seq<Interceptor>)> {
    if rs == [] then [] else AllContributions(rs[..|rs| - 1]) + Contributions(|rs| - 1, rs[|rs| - 1])
  }

  /** The map `mapInterceptorsByMatcher` returns. */
  function FlatInterceptors(rs: seq<Registered>): Flat {
    Build(AllContributions(rs))
  }

  /** `InterceptorUtils.mapInterceptorsByMatcher`. */
  method MapInterceptorsByMatcher(interceptors: seq<Registered>) returns (flat: Flat)
    ensures flat == FlatInterceptors(interceptors)
  {
    flat := [];
    for i := 0 to |interceptors|
      invariant flat == Build(AllContributions(interceptors[..i]))
    {
      ContributionsStep(interceptors, i);
      flat := AddInterceptor(flat, AllContributions(interceptors[..i]), i, interceptors[i]);
    }
    assert interceptors[..|interceptors|] == interceptors;
  }

  lemma ContributionsStep(rs: seq<Registered>, i: nat)
    requires i < |rs|
    ensures AllContributions(rs[..i + 1]) == AllContributions(rs[..i]) + Contributions(i, rs[i])
  {
    assert rs[..i + 1][..i] == rs[..i];
  }

  /** One pass of the loop: the interceptor at position `i` files its target under
      a fresh matcher per include pattern, or under `MATCH_ALL`. */
  method AddInterceptor(flat: Flat, base: seq<(InterceptorMatcher, seq<Interceptor>)>, i: nat, hi: Registered)
    returns (flat': Flat)
    requires flat == Build(base)
    ensures flat' == Build(base + Contributions(i, hi))
  {
    flat' := flat;
    if hi.Mapped? && hi.includes.Some? && |hi.includes.value| > 0 {
      var patterns := hi.includes.value;
      assert base + PatternPairs(i, hi.inner, patterns[..0]) == base;
      for j := 0 to |patterns|
        invariant flat' == Build(base + PatternPairs(i, hi.inner, patterns[..j]))
      {
        PatternPairsStep(base, i, hi.inner, patterns, j);
        flat' := AppendAll(flat', PatternMatcher(i, j, patterns[j]), [hi.inner]);
      }
      assert patterns[..|patterns|] == patterns;
    } else {
      BuildAppendOne(base, (MatchAll, [Target(hi)]));
      flat' := AppendAll(flat', MatchAll, [Target(hi)]);
    }
  }

  lemma PatternPairsStep(base: seq<(InterceptorMatcher, seq<Interceptor>)>, i: nat, x: Interceptor, ps: seq<string>, j: nat)
    requires j < |ps|
    ensures Build(base + PatternPairs(i, x, ps[..j + 1]))
         == AppendAll(Build(base + PatternPairs(i, x, ps[..j])), PatternMatcher(i, j, ps[j]), [x])
  {
    assert base + PatternPairs(i, x, ps[..j + 1]) == (base + PatternPairs(i, x, ps[..j])) + [(PatternMatcher(i, j, ps[j]), [x])];
    BuildAppendOne(base + PatternPairs(i, x, ps[..j]), (PatternMatcher(i, j, ps[j]), [x]));
  }

  /** Reference definition: the interceptors that go under the shared `MATCH_ALL`
      key, in registration order: plain ones, and mapped ones without include patterns. */
  function MatchAllInterceptors(rs: seq<Registered>): seq<Interceptor> {
    if rs == [] then []
    else
      var r := rs[|rs| - 1];
      MatchAllInterceptors(rs[..|rs| - 1]) + (if HasIncludes(r) then [] else [Target(r)])
  }

  /** `p` is include pattern number `j` of the registered interceptor at position `i`. */
  predicate IsInclude(rs: seq<Registered>, i: nat, j: nat, p: string) {
    i < |rs| && HasIncludes(rs[i]) && j < |rs[i].includes.value| && rs[i].includes.value[j] == p
  }

  /** The flattened map has distinct keys; `MATCH_ALL` holds every interceptor that
      has no include pattern, in registration order; every include pattern has a key
      of its own holding just the interceptor it belongs to (so equal pattern strings
      give separate keys); nothing else is a key. */
  lemma FlatInterceptorsSpec(rs: seq<Registered>)
    ensures Distinct(Keys(FlatInterceptors(rs)))
    ensures Lookup(FlatInterceptors(rs), MatchAll) == MatchAllInterceptors(rs)
    ensures forall i: nat, j: nat, p :: Lookup(FlatInterceptors(rs), PatternMatcher(i, j, p))
                                       == if IsInclude(rs, i, j, p) then [rs[i].inner] else []
    ensures forall k :: k in Keys(FlatInterceptors(rs)) <==> Lookup(FlatInterceptors(rs), k) != []
  {
    BuildDistinct(AllContributions(rs));
    FlatLookup(rs, MatchAll);
    MatchAllGather(rs);
    forall i: nat, j: nat, p
      ensures Lookup(FlatInterceptors(rs), PatternMatcher(i, j, p)) == if IsInclude(rs, i, j, p) then [rs[i].inner] else []
    {
      FlatLookup(rs, PatternMatcher(i, j, p));
      PatternGather(rs, i, j, p);
    }
    FlatKeys(rs);
  }

  lemma FlatLookup(rs: seq<Registered>, k: InterceptorMatcher)
    ensures Lookup(FlatInterceptors(rs), k) == Gather(AllContributions(rs), k)
  {
    BuildSpec(AllContributions(rs));
  }

  lemma FlatKeys(rs: seq<Registered>)
    ensures forall k :: k in Keys(FlatInterceptors(rs)) <==> Lookup(FlatInterceptors(rs), k) != []
  {
    var pairs := AllContributions(rs);
    BuildSpec(pairs);
    DedupSpec(Keys(pairs));
    NonEmptyContributions(rs);
    forall k ensures k in Keys(pairs) <==> Gather(pairs, k) != [] {
      GatherNonEmpty(pairs, k);
    }
  }

  lemma {:induction false} MatchAllGather(rs: seq<Registered>)
    ensures Gather(AllContributions(rs), MatchAll) == MatchAllInterceptors(rs)
  {
    if rs != [] {
      var init, r := rs[..|rs| - 1], rs[|rs| - 1];
      MatchAllGather(init);
      GatherAppend(AllContributions(init), Contributions(|rs| - 1, r), MatchAll);
      if HasIncludes(r) {
        PairsGatherNothing(|rs| - 1, r.inner, r.includes.value, MatchAll);
      } else {
        assert Contributions(|rs| - 1, r)[..0] == [];
      }
    }
  }

  lemma {:induction false} PatternGather(rs: seq<Registered>, i: nat, j: nat, p: string)
    ensures Gather(AllContributions(rs), PatternMatcher(i, j, p)) == if IsInclude(rs, i, j, p) then [rs[i].inner] else []
  {
    if rs != [] {
      var n := |rs| - 1;
      var init, r := rs[..n], rs[n];
      var k := PatternMatcher(i, j, p);
      PatternGather(init, i, j, p);
      GatherAppend(AllContributions(init), Contributions(n, r), k);
      if HasIncludes(r) {
        PairsGather(n, r.inner, r.includes.value, i, j, p);
      } else {
        assert Contributions(n, r)[..0] == [];
      }
      if i < n {
        assert rs[i] == init[i];
      }
    }
  }

  lemma {:induction false} PairsGather(n: nat, x: Interceptor, ps: seq<string>, i: nat, j: nat, p: string)
    ensures Gather(PatternPairs(n, x, ps), PatternMatcher(i, j, p))
         == if i == n && j < |ps| && ps[j] == p then [x] else []
  {
    if ps != [] {
      var m := |ps| - 1;
      assert PatternPairs(n, x, ps)[..m] == PatternPairs(n, x, ps[..m]);
      PairsGather(n, x, ps[..m], i, j, p);
    }
  }

  lemma {:induction false} PairsGatherNothing(n: nat, x: Interceptor, ps: seq<string>, k: InterceptorMatcher)
    requires k.MatchAll?
    ensures Gather(PatternPairs(n, x, ps), k) == []
  {
    if ps != [] {
      assert PatternPairs(n, x, ps)[..|ps| - 1] == PatternPairs(n, x, ps[..|ps| - 1]);
      PairsGatherNothing(n, x, ps[..|ps| - 1], k);
    }
  }

  lemma {:induction false} NonEmptyContributions(rs: seq<Registered>)
    ensures forall t :: 0 <= t < |AllContributions(rs)| ==> AllContributions(rs)[t].1 != []
  {
    if rs != [] {
      NonEmptyContributions(rs[..|rs| - 1]);
    }
  }

  // ---------------------------------------------------------------------------
  // groupMatchersByInterceptorOrdered

  /** `InterceptorUtils.groupMatchersByInterceptorOrdered`: a null map gives the empty list. */
  method GroupMatchersByInterceptorOrdered(matcherToInterceptorsMap: Option<Flat>) returns (grouped: Grouped)
    ensures matcherToInterceptorsMap.None? ==> grouped == []
    ensures matcherToInterceptorsMap.Some? ==> grouped == Regroup(matcherToInterceptorsMap.value)
  {
    if matcherToInterceptorsMap.None? {
      return [];
    }
    grouped := RegroupEntries(matcherToInterceptorsMap.value);
  }

  // ---------------------------------------------------------------------------
  // selectInterceptors

  function EntryMatches(ant: AntMatch, requestUri: string): ((InterceptorMatcher, seq<Interceptor>)) -> bool {
    (e: (InterceptorMatcher, seq<Interceptor>)) => MatcherMatches(ant, requestUri, e.0)
  }

  function MatcherFilter(ant: AntMatch, requestUri: string): InterceptorMatcher -> bool {
    m => MatcherMatches(ant, requestUri, m)
  }

  /** What `selectInterceptors` returns: the regrouping of the flattened entries whose
      matcher matches the request. */
  function Selected(ant: AntMatch, requestUri: string, interceptors: seq<Registered>): Grouped {
    Regroup(Filtered(FlatInterceptors(interceptors), EntryMatches(ant, requestUri)))
  }

  /** `InterceptorUtils.selectInterceptors`. */
  method SelectInterceptors(interceptors: seq<Registered>, requestUri: string, ant: AntMatch) returns (selected: Grouped)
    ensures selected == Selected(ant, requestUri, interceptors)
  {
    var flatMap := MapInterceptorsByMatcher(interceptors);
    var keep := EntryMatches(ant, requestUri);
    selected := [];
    for i := 0 to |flatMap|
      invariant selected == Build(Swapped(Occurrences(Filtered(flatMap[..i], keep))))
    {
      var before := Occurrences(Filtered(flatMap[..i], keep));
      FilteredOccurrencesStep(flatMap, keep, i);
      if keep(flatMap[i]) {
        var matcher, his := flatMap[i].0, flatMap[i].1;
        assert (matcher, his) == flatMap[i];
        selected := RegroupEntry(selected, before, matcher, his);
      } else {
        assert before + [] == before;
      }
    }
    assert flatMap[..|flatMap|] == flatMap;
  }

  lemma FilteredOccurrencesStep(m: Flat, keep: ((InterceptorMatcher, seq<Interceptor>)) -> bool, i: nat)
    requires i < |m|
    ensures Occurrences(Filtered(m[..i + 1], keep))
         == Occurrences(Filtered(m[..i], keep)) + (if keep(m[i]) then EntryOccurrences(m[i]) else [])
  {
    var f := Filtered(m[..i], keep);
    assert m[..i + 1][..i] == m[..i];
    if keep(m[i]) {
      assert Filtered(m[..i + 1], keep) == f + [m[i]];
      assert (f + [m[i]])[..|f|] == f;
    } else {
      assert Filtered(m[..i + 1], keep) == f;
      assert Occurrences(f) + [] == Occurrences(f);
    }
  }

  /** `selectInterceptors` lists an interceptor exactly when one of its matchers
      matches the request, and lists under it exactly its matching matchers, in the
      order of the full grouping. */
  lemma SelectedSpec(ant: AntMatch, requestUri: string, interceptors: seq<Registered>)
    ensures var sel := Selected(ant, requestUri, interceptors);
            var all := Regroup(FlatInterceptors(interceptors));
            && Distinct(Keys(sel))
            && (forall v :: Lookup(sel, v) == Filtered(Lookup(all, v), MatcherFilter(ant, requestUri)))
            && (forall v :: v in Keys(sel) <==> Lookup(sel, v) != [])
  {
    var flat := FlatInterceptors(interceptors);
    var kept := Filtered(flat, EntryMatches(ant, requestUri));
    RegroupSpec(flat);
    RegroupSpec(kept);
    RegroupKeys(kept);
    forall v ensures KeysOf(Occurrences(kept), v) == Filtered(KeysOf(Occurrences(flat), v), MatcherFilter(ant, requestUri)) {
      KeysOfFiltered(ant, requestUri, flat, v);
    }
  }

  lemma {:induction false} KeysOfFiltered(ant: AntMatch, requestUri: string, m: Flat, v: Interceptor)
    ensures KeysOf(Occurrences(Filtered(m, EntryMatches(ant, requestUri))), v)
         == Filtered(KeysOf(Occurrences(m), v), MatcherFilter(ant, requestUri))
  {
    if m != [] {
      var init, e := m[..|m| - 1], m[|m| - 1];
      var keepE, keepM := EntryMatches(ant, requestUri), MatcherFilter(ant, requestUri);
      KeysOfFiltered(ant, requestUri, init, v);
      var fi := Filtered(init, keepE);
      KeysOfAppend(Occurrences(init), EntryOccurrences(e), v);
      FilteredAppend(KeysOf(Occurrences(init), v), KeysOf(EntryOccurrences(e), v), keepM);
      EntryKeysOf(e, v);
      FilteredSame(KeysOf(EntryOccurrences(e), v), e.0, keepM);
      if keepE(e) {
        assert Filtered(m, keepE) == fi + [e];
        assert (fi + [e])[..|fi|] == fi;
        KeysOfAppend(Occurrences(fi), EntryOccurrences(e), v);
      } else {
        assert Filtered(m, keepE) == fi;
      }
    }
  }

  /** Every key walked in one entry is that entry's key. */
  lemma {:induction false} EntryKeysOf(e: (InterceptorMatcher, seq<Interceptor>), v: Interceptor)
    ensures forall t :: 0 <= t < |KeysOf(EntryOccurrences(e), v)| ==> KeysOf(EntryOccurrences(e), v)[t] == e.0
  {
    KeysOfSameKey(EntryOccurrences(e), e.0, v);
  }

  lemma {:induction false} KeysOfSameKey(occ: seq<(InterceptorMatcher, Interceptor)>, k: InterceptorMatcher, v: Interceptor)
    requires forall t :: 0 <= t < |occ| ==> occ[t].0 == k
    ensures forall t :: 0 <= t < |KeysOf(occ, v)| ==> KeysOf(occ, v)[t] == k
  {
    if occ != [] {
      KeysOfSameKey(occ[..|occ| - 1], k, v);
    }
  }

  lemma {:induction false} FilteredSame<T>(s: seq<T>, x: T, keep: T -> bool)
    requires forall t :: 0 <= t < |s| ==> s[t] == x
    ensures Filtered(s, keep) == if keep(x) then s else []
  {
    if s != [] {
      FilteredSame(s[..|s| - 1], x, keep);
    }
  }

  // ---------------------------------------------------------------------------
  // prepareInterceptors

  function NamedIn(namesToKeep: seq<string>): ((Interceptor, seq<InterceptorMatcher>)) -> bool {
    (e: (Interceptor, seq<InterceptorMatcher>)) => e.0.className in namesToKeep
  }

  /** What `prepareInterceptors` returns. */
  function PrepareInterceptorsResult(namesToKeep: seq<string>, allInterceptors: seq<Registered>): Grouped {
    var allOrdered := Regroup(FlatInterceptors(allInterceptors));
    if KeepsAll(namesToKeep) then allOrdered else Filtered(allOrdered, NamedIn(namesToKeep))
  }

  /** `InterceptorUtils.prepareInterceptors`. */
  method PrepareInterceptors(namesToKeep: seq<string>, allInterceptors: seq<Registered>) returns (selectedOrdered: Grouped)
    ensures selectedOrdered == PrepareInterceptorsResult(namesToKeep, allInterceptors)
  {
    var flat := MapInterceptorsByMatcher(allInterceptors);
    var allOrdered := GroupMatchersByInterceptorOrdered(Some(flat));
    if |namesToKeep| == 1 && namesToKeep[0] == "*" {
      return allOrdered;
    }
    selectedOrdered := SelectNamed(namesToKeep, allOrdered);
  }

  /** The loop that keeps the grouped entries whose interceptor class is listed. */
  method SelectNamed(namesToKeep: seq<string>, allOrdered: Grouped) returns (selectedOrdered: Grouped)
    ensures selectedOrdered == Filtered(allOrdered, NamedIn(namesToKeep))
  {
    selectedOrdered := [];
    for i := 0 to |allOrdered|
      invariant selectedOrdered == Filtered(allOrdered[..i], NamedIn(namesToKeep))
    {
      NamedStep(namesToKeep, allOrdered, i);
      if allOrdered[i].0.className in namesToKeep {
        selectedOrdered := selectedOrdered + [allOrdered[i]];
      }
    }
    assert allOrdered[..|allOrdered|] == allOrdered;
  }

  lemma NamedStep(namesToKeep: seq<string>, s: Grouped, i: nat)
    requires i < |s|
    ensures Filtered(s[..i + 1], NamedIn(namesToKeep))
         == Filtered(s[..i], NamedIn(namesToKeep)) + if s[i].0.className in namesToKeep then [s[i]] else []
  {
    assert s[..i + 1] == s[..i] + [s[i]];
    FilteredAppend(s[..i], [s[i]], NamedIn(namesToKeep));
  }

  /** With an explicit allow-list, `prepareInterceptors` keeps exactly the grouped
      entries whose interceptor class is listed, each once and in grouped order; names
      that match nothing are ignored. */
  lemma PrepareInterceptorsSpec(namesToKeep: seq<string>, allInterceptors: seq<Registered>)
    requires !KeepsAll(namesToKeep)
    ensures var all := Regroup(FlatInterceptors(allInterceptors));
            var r := PrepareInterceptorsResult(namesToKeep, allInterceptors);
            && (forall e :: e in r <==> e in all && e.0.className in namesToKeep)
            && Distinct(Keys(r))
            && forall i, j :: 0 <= i < j < |r| ==> Position(all, r[i]) < Position(all, r[j])
  {
    var all := Regroup(FlatInterceptors(allInterceptors));
    var keep := NamedIn(namesToKeep);
    BuildDistinct(Swapped(Occurrences(FlatInterceptors(allInterceptors))));
    FilteredKeysDistinct(all, keep);
    DistinctEntries(all);
    FilteredSpec(all, keep);
    forall e ensures keep(e) == (e.0.className in namesToKeep) {
    }
  }

  /** Two include patterns with equal text still give two separate keys. */
  lemma EqualPatternsGiveSeparateKeys(x: Interceptor, p: string)
    ensures var flat := FlatInterceptors([Mapped(Some([p, p]), None, x)]);
            && PatternMatcher(0, 0, p) in Keys(flat)
            && PatternMatcher(0, 1, p) in Keys(flat)
            && Lookup(flat, PatternMatcher(0, 0, p)) == [x]
            && Lookup(flat, PatternMatcher(0, 1, p)) == [x]
            && Lookup(flat, MatchAll) == []
  {
    var rs := [Mapped(Some([p, p]), None, x)];
    FlatInterceptorsSpec(rs);
    assert IsInclude(rs, 0, 0, p) && IsInclude(rs, 0, 1, p);
    assert rs[..0] == [];
    assert MatchAllInterceptors(rs) == [];
  }

  /** Exclude patterns are never read: changing them changes nothing. */
  lemma {:induction false} ExcludesAreIgnored(rs: seq<Registered>, i: nat, ex: Option<seq<string>>)
    requires i < |rs| && rs[i].Mapped?
    ensures FlatInterceptors(rs[i := rs[i].(excludes := ex)]) == FlatInterceptors(rs)
  {
    SameContributions(rs, rs[i := rs[i].(excludes := ex)]);
  }

  lemma {:induction false} SameContributions(rs: seq<Registered>, rs': seq<Registered>)
    requires |rs| == |rs'|
    requires forall t :: 0 <= t < |rs| ==> rs'[t].Mapped? == rs[t].Mapped?
    requires forall t :: 0 <= t < |rs| ==> Target(rs'[t]) == Target(rs[t])
    requires forall t :: 0 <= t < |rs| ==> rs[t].Mapped? ==> rs'[t].includes == rs[t].includes
    ensures AllContributions(rs') == AllContributions(rs)
  {
    if rs != [] {
      SameContributions(rs[..|rs| - 1], rs'[..|rs| - 1]);
      var r, r' := rs[|rs| - 1], rs'[|rs| - 1];
      assert HasIncludes(r') == HasIncludes(r);
    }
  }
}
