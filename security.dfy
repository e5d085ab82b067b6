/** The security helpers: three authorization managers that either grant or abstain,
    an HTTP-method request matcher, and the post-processor that wraps the request
    matchers of Spring Security's authorization manager in a path-caching layer. */
module Security {
  import opened Common
  import opened Servlet

  /** An `AuthorizationDecision`. */
  datatype Decision = Decision(granted: bool)

  /** The `Supplier<Authentication>` handed to `check`; none of the managers here read it. */
  type Authentication = nat

  /** An `AuthorizationManager.check`; `None` stands for a null decision (abstain). */
  type Manager = (Authentication, RequestLine) -> Option<Decision>

  predicate Grants(d: Option<Decision>) {
    d.Some? && d.value.granted
  }

  // ---------------------------------------------------------------------------
  // DelegatingAuthorizationManager

  /** `DelegatingAuthorizationManager.check`: the first granted decision of the
      delegates, consulted in order, or null. */
  function DelegatingCheck(delegates: seq<Manager>, authentication: Authentication, request: RequestLine): Option<Decision> {
    if delegates == [] then None
    else
      var decision := delegates[0](authentication, request);
      if decision.Some? && decision.value.granted then decision
      else DelegatingCheck(delegates[1..], authentication, request)
  }

  /** The delegating manager returns null exactly when no delegate grants; otherwise
      it returns the decision of the first delegate that grants, which is a grant:
      denials and nulls before it are skipped. */
  lemma {:induction false} DelegatingCheckSpec(delegates: seq<Manager>, authentication: Authentication, request: RequestLine)
    returns (k: nat)
    ensures var r := DelegatingCheck(delegates, authentication, request);
            && (r.None? <==> forall i :: 0 <= i < |delegates| ==> !Grants(delegates[i](authentication, request)))
            && (r.Some? ==>
                  && k < |delegates|
                  && r == delegates[k](authentication, request)
                  && Grants(r)
                  && forall i :: 0 <= i < k ==> !Grants(delegates[i](authentication, request)))
  {
    if delegates == [] {
      return 0;
    }
    var d := delegates[0](authentication, request);
    if Grants(d) {
      return 0;
    }
    var k' := DelegatingCheckSpec(delegates[1..], authentication, request);
    k := k' + 1;
    forall i | 1 <= i < |delegates| ensures delegates[i] == delegates[1..][i - 1] {
    }
  }

  /** Delegates after the first grant are never consulted: appending any delegates
      after a granting one leaves the decision unchanged. */
  lemma {:induction false} LaterDelegatesNotConsulted(delegates: seq<Manager>, rest: seq<Manager>, authentication: Authentication, request: RequestLine)
    requires exists i :: 0 <= i < |delegates| && Grants(delegates[i](authentication, request))
    ensures DelegatingCheck(delegates + rest, authentication, request) == DelegatingCheck(delegates, authentication, request)
  {
    var d := delegates[0](authentication, request);
    assert (delegates + rest)[0] == delegates[0];
    if !Grants(d) {
      var i :| 0 <= i < |delegates| && Grants(delegates[i](authentication, request));
      assert delegates[1..][i - 1] == delegates[i];
      assert (delegates + rest)[1..] == delegates[1..] + rest;
      LaterDelegatesNotConsulted(delegates[1..], rest, authentication, request);
    }
  }

  // ---------------------------------------------------------------------------
  // ExactMatchAuthorizationManager

  /** The manager holds the allowed paths as a set. */
  datatype ExactMatchManager = ExactMatchManager(allowed: set<string>)

  /** The constructor: `new HashSet<>(allowed)`. */
  function NewExactMatch(allowed: seq<string>): (m: ExactMatchManager)
    ensures forall p :: p in m.allowed <==> p in allowed
  {
    ExactMatchManager(set p | p in allowed)
  }

  /** `ExactMatchAuthorizationManager.check`. */
  function ExactCheck(m: ExactMatchManager, request: RequestLine): Option<Decision> {
    if request.servletPath in m.allowed then Some(Decision(true)) else None
  }

  /** A manager built from a list grants exactly the listed servlet paths and
      abstains on every other one; it never denies. */
  lemma ExactMatchGrantsListedPaths(allowed: seq<string>, request: RequestLine)
    ensures Grants(ExactCheck(NewExactMatch(allowed), request)) <==> request.servletPath in allowed
    ensures !Grants(ExactCheck(NewExactMatch(allowed), request)) ==> ExactCheck(NewExactMatch(allowed), request) == None
  {
  }

  /** Only the set of listed paths matters, not their order or repeats. */
  lemma ExactMatchIgnoresOrderAndRepeats(a: seq<string>, b: seq<string>)
    requires forall p :: p in a <==> p in b
    ensures NewExactMatch(a) == NewExactMatch(b)
  {
  }

  /** The comparison is exact text: `/a/` is not `/a`. */
  lemma ExactMatchDoesNotNormalise(request: RequestLine)
    requires request.servletPath == "/a/"
    ensures ExactCheck(NewExactMatch(["/a"]), request) == None
  {
    assert request.servletPath != "/a" by {
      assert |request.servletPath| == 3;
    }
  }

  // ---------------------------------------------------------------------------
  // SimplePrefixAuthorizationManager

  datatype SimplePrefixManager = SimplePrefixManager(allowed: seq<string>)

  /** `allowed.stream().anyMatch(path::startsWith)`. */
  function AnyPrefix(allowed: seq<string>, path: string): (r: bool)
    ensures r <==> exists i :: 0 <= i < |allowed| && StartsWith(path, allowed[i])
  {
    if allowed == [] then false
    else if StartsWith(path, allowed[0]) then true
    else
      var r := AnyPrefix(allowed[1..], path);
      assert forall i :: 1 <= i < |allowed| ==> allowed[i] == allowed[1..][i - 1];
      r
  }

  /** `SimplePrefixAuthorizationManager.check`. */
  function PrefixCheck(m: SimplePrefixManager, request: RequestLine): Option<Decision> {
    if AnyPrefix(m.allowed, request.servletPath) then Some(Decision(true)) else None
  }

  /** The manager grants exactly when some allowed string is a prefix of the servlet
      path, and abstains otherwise; it never denies. */
  lemma PrefixCheckSpec(m: SimplePrefixManager, request: RequestLine)
    ensures Grants(PrefixCheck(m, request)) <==>
              exists i :: 0 <= i < |m.allowed| && m.allowed[i] <= request.servletPath
    ensures !Grants(PrefixCheck(m, request)) ==> PrefixCheck(m, request) == None
  {
  }

  /** An empty allowed string grants every path; an empty list grants none. */
  lemma EmptyPrefixGrantsEverything(m: SimplePrefixManager, request: RequestLine)
    ensures "" in m.allowed ==> PrefixCheck(m, request) == Some(Decision(true))
    ensures m.allowed == [] ==> PrefixCheck(m, request) == None
  {
    if "" in m.allowed {
      var i :| 0 <= i < |m.allowed| && m.allowed[i] == "";
      assert StartsWith(request.servletPath, m.allowed[i]);
    }
  }

  /** The prefix is raw text, not whole path segments: `/api` grants `/apix`. */
  lemma PrefixIsNotSegmentAware(request: RequestLine)
    requires request.servletPath == "/apix"
    ensures PrefixCheck(SimplePrefixManager(["/api"]), request) == Some(Decision(true))
  {
    assert StartsWith(request.servletPath, ["/api"][0]);
  }

  // ---------------------------------------------------------------------------
  // HttpMethodRequestMatcher

  /** The matcher holds an `HttpMethod`, here its name. */
  datatype HttpMethodMatcher = HttpMethodMatcher(methodName: string)

  /** `HttpMethodRequestMatcher.matches`: `method.name().equals(request.getMethod())`. */
  function MethodMatches(m: HttpMethodMatcher, request: RequestLine): bool {
    request.httpMethod == Some(m.methodName)
  }

  /** The matcher matches exactly when the request method is present and equal to the
      configured name, character for character; nothing else of the request is read. */
  lemma MethodMatchesSpec(m: HttpMethodMatcher, request: RequestLine, other: RequestLine)
    ensures MethodMatches(m, request) <==> request.httpMethod.Some? && request.httpMethod.value == m.methodName
    ensures request.httpMethod.None? ==> !MethodMatches(m, request)
    ensures other.httpMethod == request.httpMethod ==> MethodMatches(m, other) == MethodMatches(m, request)
  {
  }

  /** The comparison is case-sensitive: a `get` request does not match `GET`. */
  lemma MethodMatchIsCaseSensitive(request: RequestLine)
    requires request.httpMethod == Some("get")
    ensures !MethodMatches(HttpMethodMatcher("GET"), request)
  {
    assert "get"[0] != "GET"[0];
  }

  // ---------------------------------------------------------------------------
  // CachedMatcherPostProcessor

  /** A security request matcher: some matcher, or one wrapped in the path-caching
      `CachedPathPatternRequestMatcher`. */
  datatype RequestMatcher = PlainMatcher(id: nat) | CachedMatcher(inner: RequestMatcher)

  /** A `RequestMatcherEntry`: a matcher and the payload it guards. */
  datatype MatcherEntry = MatcherEntry(matcher: RequestMatcher, entry: nat)

  /** The mutable mappings list held by a `RequestMatcherDelegatingAuthorizationManager`. */
  class MappingList {
    var items: seq<MatcherEntry>

    constructor (items: seq<MatcherEntry>)
      ensures this.items == items
    {
      this.items := items;
    }

    /** `List.clear`. */
    method Clear()
      modifies this
      ensures items == []
    {
      items := [];
    }

    /** `List.addAll`. */
    method AddAll(xs: seq<MatcherEntry>)
      modifies this
      ensures items == old(items) + xs
    {
      items := items + xs;
    }
  }

  /** An object handed to the post-processor: the authorization manager, reached
      through its mappings list, or any other object. */
  datatype Processed = RequestMatcherDelegating(mappings: MappingList) | OtherObject(id: nat)

  /** The replacement of one entry: an already-cached matcher is kept, any other is
      wrapped, and the payload is carried over. */
  function Wrap(e: MatcherEntry): MatcherEntry {
    if e.matcher.CachedMatcher? then e else MatcherEntry(CachedMatcher(e.matcher), e.entry)
  }

  /** The `stream().map(...).toList()` replacement list. */
  function Replacement(mappings: seq<MatcherEntry>): (r: seq<MatcherEntry>)
    ensures |r| == |mappings| && forall i :: 0 <= i < |r| ==> r[i] == Wrap(mappings[i])
  {
    seq(|mappings|, i requires 0 <= i < |mappings| => Wrap(mappings[i]))
  }

  /** `CachedMatcherPostProcessor.postProcess`: returns the very object it was given;
      for the authorization manager it rewrites the shared mappings list in place. */
  method PostProcess(bean: Processed) returns (r: Processed)
    modifies if bean.RequestMatcherDelegating? then {bean.mappings} else {}
    ensures r == bean
    ensures bean.RequestMatcherDelegating? ==> bean.mappings.items == Replacement(old(bean.mappings.items))
  {
    if bean.RequestMatcherDelegating? {
      var mappings := bean.mappings;
      var replacement := Replacement(mappings.items);
      mappings.Clear();
      mappings.AddAll(replacement);
    }
    return bean;
  }

  /** The rewrite keeps the length, the order and every payload; a matcher that was
      already cached is kept as it was, every other one is wrapped exactly once, and
      afterwards every matcher is cached. */
  lemma ReplacementSpec(mappings: seq<MatcherEntry>)
    ensures var r := Replacement(mappings);
            && |r| == |mappings|
            && forall i :: 0 <= i < |r| ==>
                 && r[i].entry == mappings[i].entry
                 && r[i].matcher.CachedMatcher?
                 && (mappings[i].matcher.CachedMatcher? ==> r[i] == mappings[i])
                 && (!mappings[i].matcher.CachedMatcher? ==> r[i].matcher.inner == mappings[i].matcher)
  {
  }

  /** Running the post-processor again changes nothing. */
  lemma ReplacementIdempotent(mappings: seq<MatcherEntry>)
    ensures Replacement(Replacement(mappings)) == Replacement(mappings)
  {
  }

  /** The number of cache layers around a matcher. */
  function CacheDepth(m: RequestMatcher): nat {
    match m
    case PlainMatcher(_) => 0
    case CachedMatcher(inner) => 1 + CacheDepth(inner)
  }

  /** No double cache layer is introduced: a matcher ends with one layer, or with
      the layers it already had. */
  lemma NoDoubleCacheLayer(mappings: seq<MatcherEntry>)
    ensures forall i :: 0 <= i < |mappings| ==>
              CacheDepth(Replacement(mappings)[i].matcher) == if CacheDepth(mappings[i].matcher) == 0 then 1 else CacheDepth(mappings[i].matcher)
  {
  }
}
