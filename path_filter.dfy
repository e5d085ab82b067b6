/** `MvcAcceleratorPathFilter`: the servlet filter that, for a handler the mode
    accepts, runs the applicable selected filters and interceptors in a
    `VirtualFilterChain` instead of the full servlet chain, remembering per handler
    which filters and interceptors apply. */
module PathFilter {
  import opened Common
  import opened Modes
  import opened Servlet
  import opened OrderedMaps
  import FilterUtils
  import InterceptorUtils
  import opened VirtualChain

  /** The lists remembered for one handler. */
  datatype CachedResult = CachedResult(filters: seq<FilterUtils.Filter>, interceptors: seq<InterceptorUtils.Interceptor>)

  /** One call of `doFilter`: whether request and response are HTTP ones, the request
      line, what the accelerator's handler mapping returned for it (`None` for null),
      and what the outer servlet chain does if the request is handed to it. */
  datatype Exchange = Exchange(isHttp: bool, request: RequestLine, found: Option<Handler>, outer: Outcome)

  /** What the filter cannot see into: `System.identityHashCode`, which may give two
      handlers the same value; the security chains' request matchers; the Ant path
      matcher of the interceptor matchers; and how each filter and interceptor
      behaves on the request. */
  datatype Environment = Environment(
    identity: Handler -> int,
    chainMatches: (nat, RequestLine) -> bool,
    ant: InterceptorUtils.AntMatch,
    filterAction: FilterUtils.Filter -> FilterAction,
    behaviour: InterceptorUtils.Interceptor -> InterceptorBehaviour)

  /** How a call ends: handed to the outer chain, or run on a virtual chain. */
  datatype FilterResult = PassedOn(outcome: Outcome) | Accelerated(run: Run)

  // ---------------------------------------------------------------------------
  // Pure parts

  /** `shouldUseMvcAccelerator`. */
  predicate ShouldUseMvcAccelerator(mode: Mode, handler: Handler) {
    mode == ALL || (mode == ANNOTATED && handler.MethodHandler? && handler.handlerMethod.accelerator.Some?)
  }

  /** ALL takes every handler, NONE none, ANNOTATED exactly the annotated handler methods. */
  lemma ShouldUseMvcAcceleratorSpec(mode: Mode, handler: Handler)
    ensures mode == ALL ==> ShouldUseMvcAccelerator(mode, handler)
    ensures mode == NONE ==> !ShouldUseMvcAccelerator(mode, handler)
    ensures mode == ANNOTATED ==>
              (ShouldUseMvcAccelerator(mode, handler) <==> exists hm :: handler == MethodHandler(hm) && hm.accelerator.Some?)
  {
    if mode == ANNOTATED && handler.MethodHandler? {
      assert handler == MethodHandler(handler.handlerMethod);
    }
  }

  /** `matchers.stream().anyMatch(matches)`. */
  function AnyMatch<M>(matchers: seq<M>, matches: M -> bool): (r: bool)
    ensures r <==> exists i :: 0 <= i < |matchers| && matches(matchers[i])
  {
    if matchers == [] then false
    else if matches(matchers[0]) then true
    else
      var r := AnyMatch(matchers[1..], matches);
      assert forall i :: 1 <= i < |matchers| ==> matchers[i] == matchers[1..][i - 1];
      r
  }

  function HasMatch<K, M>(matches: M -> bool): ((K, seq<M>)) -> bool {
    (e: (K, seq<M>)) => AnyMatch(e.1, matches)
  }

  /** The stream pipeline on a selection: the entries with at least one matching
      matcher, mapped to their keys. */
  function Applicable<K, M>(selected: OrderedMap<K, M>, matches: M -> bool): seq<K> {
    Keys(Filtered(selected, HasMatch(matches)))
  }

  /** A security matcher: `AnyRequestMatcher` matches every request. */
  predicate FilterMatcherMatches(chainMatches: (nat, RequestLine) -> bool, request: RequestLine, m: FilterUtils.Matcher) {
    m.AnyRequest? || chainMatches(m.id, request)
  }

  function FilterMatches(chainMatches: (nat, RequestLine) -> bool, request: RequestLine): FilterUtils.Matcher -> bool {
    (m: FilterUtils.Matcher) => FilterMatcherMatches(chainMatches, request, m)
  }

  function InterceptorMatches(ant: InterceptorUtils.AntMatch, request: RequestLine): InterceptorUtils.InterceptorMatcher -> bool {
    (m: InterceptorUtils.InterceptorMatcher) => InterceptorUtils.MatcherMatches(ant, request.requestUri, m)
  }

  /** The lists computed on a cache miss. */
  function Computed(selectedFilters: FilterUtils.Grouped, selectedInterceptors: InterceptorUtils.Grouped,
                    request: RequestLine, env: Environment): CachedResult {
    CachedResult(Applicable(selectedFilters, FilterMatches(env.chainMatches, request)),
                 Applicable(selectedInterceptors, InterceptorMatches(env.ant, request)))
  }

  /** A fresh virtual chain over the given lists, run from its first filter. */
  function ChainRun(lists: CachedResult, handler: Handler, adapters: seq<Adapter>, env: Environment): Run {
    ChainFrom(Behaviours(lists.filters, env.filterAction), 0, Behaviours(lists.interceptors, env.behaviour), adapters, handler).0
  }

  /** The result of `doHandle`, before `doFilter`'s rethrow, and the cache afterwards. */
  function Handled(cache: map<int, CachedResult>, mode: Mode, selectedFilters: FilterUtils.Grouped,
                   selectedInterceptors: InterceptorUtils.Grouped, adapters: seq<Adapter>,
                   ex: Exchange, env: Environment): (FilterResult, map<int, CachedResult>)
  {
    if ex.found.None? || !ShouldUseMvcAccelerator(mode, ex.found.value) then (PassedOn(ex.outer), cache)
    else
      var handler := ex.found.value;
      var id := env.identity(handler);
      var lists := if id in cache then cache[id] else Computed(selectedFilters, selectedInterceptors, ex.request, env);
      (Accelerated(ChainRun(lists, handler, adapters, env)), cache[id := lists])
  }

  /** `doFilter`'s `catch` clauses applied to a result. */
  function RethrownResult(r: FilterResult): FilterResult {
    match r
    case PassedOn(o) => PassedOn(if o.Thrown? then Thrown(Rethrown(o.e)) else o)
    case Accelerated(run) => Accelerated(Run(run.events, if run.outcome.Thrown? then Thrown(Rethrown(run.outcome.e)) else run.outcome))
  }

  /** The result of `doFilter` and the cache afterwards. */
  function Filtering(cache: map<int, CachedResult>, mode: Mode, selectedFilters: FilterUtils.Grouped,
                     selectedInterceptors: InterceptorUtils.Grouped, adapters: seq<Adapter>,
                     ex: Exchange, env: Environment): (FilterResult, map<int, CachedResult>)
  {
    if !ex.isHttp then (PassedOn(ex.outer), cache)
    else
      var (r, cache') := Handled(cache, mode, selectedFilters, selectedInterceptors, adapters, ex, env);
      (RethrownResult(r), cache')
  }

  // ---------------------------------------------------------------------------
  // The filter object

  class MvcAcceleratorPathFilter {
    const handlerAdapters: seq<Adapter>
    const selectedInterceptors: InterceptorUtils.Grouped
    const selectedFilters: FilterUtils.Grouped
    const mode: Mode
    /** Handler identity -> the lists that apply to it; only ever added to. */
    var handlerCache: map<int, CachedResult>

    constructor (handlerAdapters: seq<Adapter>, selectedInterceptors: InterceptorUtils.Grouped,
                 selectedFilters: FilterUtils.Grouped, mode: Mode)
      ensures this.handlerAdapters == handlerAdapters && this.selectedInterceptors == selectedInterceptors
      ensures this.selectedFilters == selectedFilters && this.mode == mode && handlerCache == map[]
    {
      this.handlerAdapters := handlerAdapters;
      this.selectedInterceptors := selectedInterceptors;
      this.selectedFilters := selectedFilters;
      this.mode := mode;
      handlerCache := map[];
    }

    /** `doFilter`. */
    method DoFilter(ex: Exchange, env: Environment) returns (result: FilterResult)
      modifies this
      ensures (result, handlerCache) == Filtering(old(handlerCache), mode, selectedFilters, selectedInterceptors, handlerAdapters, ex, env)
    {
      if !ex.isHttp {
        return PassedOn(ex.outer);
      }
      var r := DoHandle(ex, env);
      match r {
        case PassedOn(o) =>
          result := PassedOn(if o.Thrown? then Thrown(Rethrown(o.e)) else o);
        case Accelerated(run) =>
          result := Accelerated(Run(run.events, if run.outcome.Thrown? then Thrown(Rethrown(run.outcome.e)) else run.outcome));
      }
    }

    /** `doHandle`. */
    method DoHandle(ex: Exchange, env: Environment) returns (result: FilterResult)
      modifies this
      ensures (result, handlerCache) == Handled(old(handlerCache), mode, selectedFilters, selectedInterceptors, handlerAdapters, ex, env)
    {
      if ex.found.None? {
        return PassedOn(ex.outer);
      }
      var handler := ex.found.value;
      if !ShouldUseMvcAccelerator(mode, handler) {
        return PassedOn(ex.outer);
      }
      var handlerId := env.identity(handler);
      var lists: CachedResult;
      if handlerId in handlerCache {
        lists := handlerCache[handlerId];
        assert handlerCache[handlerId := lists] == handlerCache;
      } else {
        var applicableFilters := Applicable(selectedFilters, FilterMatches(env.chainMatches, ex.request));
        var applicableInterceptors := Applicable(selectedInterceptors, InterceptorMatches(env.ant, ex.request));
        lists := CachedResult(applicableFilters, applicableInterceptors);
        handlerCache := handlerCache[handlerId := lists];
      }
      var chain := new VirtualFilterChain(lists.filters, lists.interceptors, handler, handlerAdapters, env.filterAction, env.behaviour);
      var outcome := chain.DoFilter();
      assert chain.trace == [] + ChainRun(lists, handler, handlerAdapters, env).events;
      result := Accelerated(Run(chain.trace, outcome));
      assert result == Handled(old(handlerCache), mode, selectedFilters, selectedInterceptors, handlerAdapters, ex, env).0;
      assert handlerCache == Handled(old(handlerCache), mode, selectedFilters, selectedInterceptors, handlerAdapters, ex, env).1;
    }
  }

  // ---------------------------------------------------------------------------
  // Properties

  /** The applicable list holds the key of every selected entry with a matching
      matcher and nothing else; over a selection with distinct keys it lists each
      key once, in selection order. */
  lemma ApplicableSpec<K, M>(selected: OrderedMap<K, M>, matches: M -> bool)
    ensures forall k :: k in Applicable(selected, matches) <==>
              exists i :: 0 <= i < |selected| && selected[i].0 == k && AnyMatch(selected[i].1, matches)
    ensures Distinct(Keys(selected)) ==>
              && Distinct(Applicable(selected, matches))
              && forall i, j :: 0 <= i < j < |Applicable(selected, matches)| ==>
                   Position(Keys(selected), Applicable(selected, matches)[i]) < Position(Keys(selected), Applicable(selected, matches)[j])
  {
    ApplicableMember(selected, matches);
    if Distinct(Keys(selected)) {
      ApplicableOrder(selected, matches);
    }
  }

  lemma ApplicableMember<K, M>(selected: OrderedMap<K, M>, matches: M -> bool)
    ensures forall k :: k in Applicable(selected, matches) <==>
              exists i :: 0 <= i < |selected| && selected[i].0 == k && AnyMatch(selected[i].1, matches)
  {
    var keep := HasMatch<K, M>(matches);
    var f := Filtered(selected, keep);
    FilteredMember(selected, keep);
    forall e ensures keep(e) == AnyMatch(e.1, matches) {
    }
    forall k ensures k in Keys(f) <==> exists i :: 0 <= i < |selected| && selected[i].0 == k && AnyMatch(selected[i].1, matches) {
      if k in Keys(f) {
        var t :| 0 <= t < |f| && Keys(f)[t] == k;
        assert f[t] in f;
        var i :| 0 <= i < |selected| && selected[i] == f[t];
      }
      if exists i :: 0 <= i < |selected| && selected[i].0 == k && AnyMatch(selected[i].1, matches) {
        var i :| 0 <= i < |selected| && selected[i].0 == k && AnyMatch(selected[i].1, matches);
        assert selected[i] in f;
        var t :| 0 <= t < |f| && f[t] == selected[i];
        assert Keys(f)[t] == k;
      }
    }
  }

  lemma ApplicableOrder<K, M>(selected: OrderedMap<K, M>, matches: M -> bool)
    requires Distinct(Keys(selected))
    ensures Distinct(Applicable(selected, matches))
    ensures forall i, j :: 0 <= i < j < |Applicable(selected, matches)| ==>
              Position(Keys(selected), Applicable(selected, matches)[i]) < Position(Keys(selected), Applicable(selected, matches)[j])
  {
    var keep := HasMatch<K, M>(matches);
    var f := Filtered(selected, keep);
    FilteredKeysDistinct(selected, keep);
    DistinctEntries(selected);
    FilteredOrder(selected, keep);
    forall i, j | 0 <= i < j < |Keys(f)| ensures Position(Keys(selected), Keys(f)[i]) < Position(Keys(selected), Keys(f)[j]) {
      FilteredElement(selected, keep, i);
      FilteredElement(selected, keep, j);
      EntryKeyPosition(selected, f[i]);
      EntryKeyPosition(selected, f[j]);
    }
  }

  /** With distinct keys, a key stands where its entry stands. */
  lemma EntryKeyPosition<K, V>(m: seq<(K, V)>, e: (K, V))
    requires Distinct(Keys(m)) && e in m
    ensures Position(Keys(m), e.0) == Position(m, e)
  {
    var t := Position(m, e);
    PositionMember(m, e);
    var u := Position(Keys(m), e.0);
    assert Keys(m)[t] == e.0;
    assert e.0 in Keys(m);
    PositionMember(Keys(m), e.0);
  }

  /** A request that is not an HTTP exchange goes to the outer chain untouched, and
      the cache does not change. */
  lemma NonHttpPassesThrough(cache: map<int, CachedResult>, mode: Mode, selectedFilters: FilterUtils.Grouped,
                             selectedInterceptors: InterceptorUtils.Grouped, adapters: seq<Adapter>, ex: Exchange, env: Environment)
    requires !ex.isHttp
    ensures Filtering(cache, mode, selectedFilters, selectedInterceptors, adapters, ex, env) == (PassedOn(ex.outer), cache)
  {
  }

  /** A request with no fast-path handler, or with a handler the mode rejects, goes
      to the outer chain, whose checked exceptions come back wrapped; the cache does
      not change. */
  lemma UnacceleratedFallsThrough(cache: map<int, CachedResult>, mode: Mode, selectedFilters: FilterUtils.Grouped,
                                  selectedInterceptors: InterceptorUtils.Grouped, adapters: seq<Adapter>, ex: Exchange, env: Environment)
    requires ex.isHttp
    requires ex.found.None? || !ShouldUseMvcAccelerator(mode, ex.found.value)
    ensures var (r, cache') := Filtering(cache, mode, selectedFilters, selectedInterceptors, adapters, ex, env);
            && cache' == cache
            && r.PassedOn?
            && (ex.outer.Done? ==> r.outcome.Done?)
            && (ex.outer.Thrown? ==> r.outcome == Thrown(Rethrown(ex.outer.e)))
  {
  }

  /** The cache is write-once: an existing entry is never changed or removed, and
      at most the served handler's identity is added. */
  lemma CacheIsWriteOnce(cache: map<int, CachedResult>, mode: Mode, selectedFilters: FilterUtils.Grouped,
                         selectedInterceptors: InterceptorUtils.Grouped, adapters: seq<Adapter>, ex: Exchange, env: Environment)
    ensures var cache' := Filtering(cache, mode, selectedFilters, selectedInterceptors, adapters, ex, env).1;
            && (forall id :: id in cache ==> id in cache' && cache'[id] == cache[id])
            && (forall id :: id in cache' && id !in cache ==> ex.found.Some? && id == env.identity(ex.found.value))
  {
  }

  /** On a miss the lists are computed from this request and stored; on a hit the
      stored lists are run and no matcher is consulted, so a later request to the
      same handler runs the lists the first one chose, whatever its path. */
  lemma FirstRequestDecides(cache: map<int, CachedResult>, mode: Mode, selectedFilters: FilterUtils.Grouped,
                            selectedInterceptors: InterceptorUtils.Grouped, adapters: seq<Adapter>,
                            first: Exchange, later: Exchange, env: Environment, env': Environment)
    requires first.isHttp && later.isHttp && first.found.Some? && later.found == first.found
    requires ShouldUseMvcAccelerator(mode, first.found.value)
    requires env.identity(first.found.value) !in cache
    requires env'.identity == env.identity
    ensures var h := first.found.value;
            var lists := Computed(selectedFilters, selectedInterceptors, first.request, env);
            var (r1, cache1) := Filtering(cache, mode, selectedFilters, selectedInterceptors, adapters, first, env);
            var (r2, cache2) := Filtering(cache1, mode, selectedFilters, selectedInterceptors, adapters, later, env');
            && cache1 == cache[env.identity(h) := lists]
            && cache2 == cache1
            && r2 == RethrownResult(Accelerated(ChainRun(lists, h, adapters, env')))
  {
  }

  /** Two handlers with the same identity hash share one cache entry: the second
      runs the lists computed for the first. */
  lemma CollidingIdentitiesShareLists(cache: map<int, CachedResult>, mode: Mode, selectedFilters: FilterUtils.Grouped,
                                      selectedInterceptors: InterceptorUtils.Grouped, adapters: seq<Adapter>,
                                      first: Exchange, second: Exchange, env: Environment)
    requires first.isHttp && second.isHttp && first.found.Some? && second.found.Some?
    requires ShouldUseMvcAccelerator(mode, first.found.value) && ShouldUseMvcAccelerator(mode, second.found.value)
    requires env.identity(first.found.value) == env.identity(second.found.value)
    requires env.identity(first.found.value) !in cache
    ensures var lists := Computed(selectedFilters, selectedInterceptors, first.request, env);
            var cache1 := Filtering(cache, mode, selectedFilters, selectedInterceptors, adapters, first, env).1;
            Filtering(cache1, mode, selectedFilters, selectedInterceptors, adapters, second, env).0
              == RethrownResult(Accelerated(ChainRun(lists, second.found.value, adapters, env)))
  {
  }

  /** An accelerated request ends normally, with a runtime exception, or with a
      `ServletException`: nothing checked escapes unwrapped. */
  lemma AcceleratedOutcomes(cache: map<int, CachedResult>, mode: Mode, selectedFilters: FilterUtils.Grouped,
                            selectedInterceptors: InterceptorUtils.Grouped, adapters: seq<Adapter>, ex: Exchange, env: Environment)
    requires ex.isHttp
    ensures var r := Filtering(cache, mode, selectedFilters, selectedInterceptors, adapters, ex, env).0;
            var o := if r.PassedOn? then r.outcome else r.run.outcome;
            o.Thrown? ==> o.e.Runtime? || o.e.ServletWrapping?
  {
  }
}
