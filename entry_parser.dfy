/** The route-table builder for one mapping (fastpath/EntryParser.java): the
    Cartesian product pattern x method x media type, and for each pattern its
    static prefix and the names matched by `\{([^/]+?)\}`. */
module EntryParser {
  import opened Common
  import opened FastEntries

  /** `EnumSet.allOf(RequestMethod.class)`. */
  const AllMethods: seq<RequestMethod> := [GET, HEAD, POST, PUT, PATCH, DELETE, OPTIONS, TRACE]

  /** `getRequestMethods`: the declared methods, or every method when none is declared. */
  function RequestMethods(info: RequestMappingInfo): (r: seq<RequestMethod>)
    ensures info.methods == [] ==> forall m: RequestMethod :: m in r
    ensures info.methods != [] ==> r == info.methods
  {
    if info.methods == [] then AllMethodsComplete(); AllMethods else info.methods
  }

  lemma AllMethodsComplete()
    ensures forall m: RequestMethod :: m in AllMethods
  {
    forall m: RequestMethod ensures m in AllMethods {
      match m
      case GET => assert AllMethods[0] == m;
      case HEAD => assert AllMethods[1] == m;
      case POST => assert AllMethods[2] == m;
      case PUT => assert AllMethods[3] == m;
      case PATCH => assert AllMethods[4] == m;
      case DELETE => assert AllMethods[5] == m;
      case OPTIONS => assert AllMethods[6] == m;
      case TRACE => assert AllMethods[7] == m;
    }
  }

  /** The producible media types, or the single "any" (`null`) when there are none. */
  function MediaTypes(info: RequestMappingInfo): (r: seq<Option<MediaType>>)
    ensures r != []
    ensures info.produces.None? || info.produces.value == [] ==> r == [None]
    ensures info.produces.Some? && info.produces.value != [] ==>
              |r| == |info.produces.value| && forall k :: 0 <= k < |r| ==> r[k] == Some(info.produces.value[k])
  {
    if info.produces.Some? && info.produces.value != [] then
      seq(|info.produces.value|, k requires 0 <= k < |info.produces.value| => Some(info.produces.value[k]))
    else
      [None]
  }

  /** `determineOrder`: the annotation's order, else 1. */
  function DetermineOrder(a: Option<Accelerator>): int32 {
    if a.Some? then a.value.order else 1
  }

  /** `determineShortCircuit`: the annotation's flag, else false. */
  function DetermineShortCircuit(a: Option<Accelerator>): bool {
    if a.Some? then a.value.shortCircuit else false
  }

  // ---------------------------------------------------------------------------
  // The path-variable regular expression \{([^/]+?)\}

  /** From position `j`, the lazy group `[^/]+?` looks for the first '}' that ends
      it; a '/' before that '}' makes the attempt fail. */
  function CloseFrom(s: string, j: nat): (r: Option<nat>)
    ensures r.Some? ==> j <= r.value < |s| && s[r.value] == '}'
    ensures r.Some? ==> forall k :: j <= k < r.value ==> s[k] != '/' && s[k] != '}'
    decreases |s| - j
  {
    if j >= |s| then None
    else if s[j] == '}' then Some(j)
    else if s[j] == '/' then None
    else CloseFrom(s, j + 1)
  }

  /** A match attempt starting at `i`: a '{', at least one non-'/' character, then
      the first '}' reached without crossing a '/'. Gives the index of that '}'. */
  function MatchAt(s: string, i: nat): (r: Option<nat>)
    ensures r.Some? ==> i + 2 <= r.value < |s|
  {
    if i + 1 < |s| && s[i] == '{' && s[i + 1] != '/' then CloseFrom(s, i + 2) else None
  }

  /** The groups of successive `matcher.find()` calls from position `p`: the
      leftmost match is taken and the search resumes after its '}'. */
  function VariablesFrom(s: string, p: nat): seq<string>
    decreases |s| - p
  {
    if p >= |s| then []
    else
      match MatchAt(s, p)
      case Some(e) => [s[p + 1..e]] + VariablesFrom(s, e + 1)
      case None => VariablesFrom(s, p + 1)
  }

  function PathVariables(pattern: string): seq<string> {
    VariablesFrom(pattern, 0)
  }

  /** The `while (matcher.find())` loop that collects the group of every match. */
  method ExtractVariableNames(pattern: string) returns (names: seq<string>)
    ensures names == PathVariables(pattern)
  {
    names := [];
    var p := 0;
    while p < |pattern|
      invariant 0 <= p <= |pattern| + 1
      invariant names + VariablesFrom(pattern, p) == PathVariables(pattern)
      decreases |pattern| - p
    {
      var m := MatchAt(pattern, p);
      if m.Some? {
        names := names + [pattern[p + 1..m.value]];
        p := m.value + 1;
      } else {
        p := p + 1;
      }
    }
  }

  /** Every name is non-empty, has no '/', and is the shortest run before a '}':
      no '}' after its first character. */
  lemma {:induction false} VariablesWellFormed(s: string, p: nat)
    ensures forall n :: n in VariablesFrom(s, p) ==>
              n != [] && '/' !in n && '}' !in n[1..]
    decreases |s| - p
  {
    if p < |s| {
      var m := MatchAt(s, p);
      if m.Some? {
        var e := m.value;
        var n := s[p + 1..e];
        assert VariablesFrom(s, p) == [n] + VariablesFrom(s, e + 1);
        assert forall k :: p + 2 <= k < e ==> s[k] != '/' && s[k] != '}';
        assert n[1..] == s[p + 2..e];
        VariablesWellFormed(s, e + 1);
      } else {
        assert VariablesFrom(s, p) == VariablesFrom(s, p + 1);
        VariablesWellFormed(s, p + 1);
      }
    }
  }

  /** `n` stands in `s` between braces. */
  predicate OccursBraced(s: string, n: string) {
    exists i, j :: 0 <= i <= j <= |s| && s[i..j] == "{" + n + "}"
  }

  /** Every name stands in the pattern between braces. */
  lemma {:induction false} VariablesOccur(s: string, p: nat)
    ensures forall n :: n in VariablesFrom(s, p) ==> OccursBraced(s, n)
    decreases |s| - p
  {
    if p < |s| {
      var m := MatchAt(s, p);
      if m.Some? {
        var e := m.value;
        VariablesOccur(s, e + 1);
        assert VariablesFrom(s, p) == [s[p + 1..e]] + VariablesFrom(s, e + 1);
        BracedSlice(s, p, e);
      } else {
        assert VariablesFrom(s, p) == VariablesFrom(s, p + 1);
        VariablesOccur(s, p + 1);
      }
    }
  }

  /** The text strictly between a '{' and a later '}' stands between braces. */
  lemma BracedSlice(s: string, p: nat, e: nat)
    requires p < e < |s| && s[p] == '{' && s[e] == '}'
    ensures OccursBraced(s, s[p + 1..e])
  {
    var n := s[p + 1..e];
    assert s[p..e + 1] == [s[p]] + n + [s[e]];
    assert s[p..e + 1] == "{" + n + "}";
  }

  // ---------------------------------------------------------------------------
  // Round trip: a pattern rendered from literals and names gives the names back

  /** `lits[0] + "{" + names[0] + "}" + lits[1] + ... + lits[n]`. */
  function Render(lits: seq<string>, names: seq<string>): string
    requires |lits| == |names| + 1
    decreases names
  {
    if names == [] then lits[0]
    else lits[0] + "{" + names[0] + "}" + Render(lits[1..], names[1..])
  }

  /** What a well-formed template looks like: literals without '{', names that are
      non-empty and hold none of '/', '{', '}'. */
  predicate WellFormedTemplate(lits: seq<string>, names: seq<string>) {
    && |lits| == |names| + 1
    && (forall k :: 0 <= k < |lits| ==> '{' !in lits[k])
    && (forall k :: 0 <= k < |names| ==> names[k] != [] && '/' !in names[k] && '{' !in names[k] && '}' !in names[k])
  }

  lemma {:induction false} CloseFromSuffix(a: string, b: string, j: nat)
    ensures CloseFrom(a + b, |a| + j) == (if CloseFrom(b, j).Some? then Some(|a| + CloseFrom(b, j).value) else None)
    decreases |b| - j
  {
    if j < |b| {
      assert (a + b)[|a| + j] == b[j];
      if b[j] != '}' && b[j] != '/' {
        CloseFromSuffix(a, b, j + 1);
      }
    }
  }

  lemma MatchAtSuffix(a: string, b: string, p: nat)
    requires p < |b|
    ensures MatchAt(a + b, |a| + p) == (if MatchAt(b, p).Some? then Some(|a| + MatchAt(b, p).value) else None)
  {
    assert (a + b)[|a| + p] == b[p];
    if p + 1 < |b| {
      assert (a + b)[|a| + p + 1] == b[p + 1];
      CloseFromSuffix(a, b, p + 2);
    }
  }

  /** Scanning depends only on the text from the scan position on. */
  lemma {:induction false} VariablesFromSuffix(a: string, b: string, p: nat)
    requires p <= |b|
    ensures VariablesFrom(a + b, |a| + p) == VariablesFrom(b, p)
    decreases |b| - p
  {
    if p < |b| {
      MatchAtSuffix(a, b, p);
      var m := MatchAt(b, p);
      if m.Some? {
        VariablesFromSuffix(a, b, m.value + 1);
        SuffixMatchStep(a, b, p, m.value);
      } else {
        VariablesFromSuffix(a, b, p + 1);
      }
    }
  }

  lemma SuffixMatchStep(a: string, b: string, p: nat, e: nat)
    requires p < |b| && MatchAt(b, p) == Some(e)
    requires MatchAt(a + b, |a| + p) == Some(|a| + e)
    ensures VariablesFrom(a + b, |a| + p) == [b[p + 1..e]] + VariablesFrom(a + b, |a| + e + 1)
  {
    var ab := a + b;
    assert ab[|a| + p + 1..|a| + e] == b[p + 1..e];
  }

  /** A literal without '{' produces no match. */
  lemma {:induction false} SkipLiteral(lit: string, rest: string, p: nat)
    requires '{' !in lit && p <= |lit|
    ensures VariablesFrom(lit + rest, p) == VariablesFrom(lit + rest, |lit|)
    decreases |lit| - p
  {
    if p < |lit| {
      assert (lit + rest)[p] == lit[p];
      assert MatchAt(lit + rest, p) == None;
      SkipLiteral(lit, rest, p + 1);
    }
  }

  lemma {:induction false} CloseAtBrace(s: string, j: nat, e: nat)
    requires j <= e < |s| && s[e] == '}'
    requires forall k :: j <= k < e ==> s[k] != '/' && s[k] != '}'
    ensures CloseFrom(s, j) == Some(e)
    decreases e - j
  {
    if j < e {
      CloseAtBrace(s, j + 1, e);
    }
  }

  /** A braced name at the start of the text is the first variable found. */
  lemma BracedNameFirst(n: string, rest: string)
    requires n != [] && '/' !in n && '}' !in n
    ensures VariablesFrom("{" + n + "}" + rest, 0) == [n] + VariablesFrom(rest, 0)
  {
    var pre := "{" + n + "}";
    var t := pre + rest;
    assert t[0] == '{' && t[1] == n[0];
    assert t[|n| + 1] == '}';
    assert forall k :: 2 <= k < |n| + 1 ==> t[k] == n[k - 1];
    CloseAtBrace(t, 2, |n| + 1);
    assert MatchAt(t, 0) == Some(|n| + 1);
    assert t[1..|n| + 1] == n;
    VariablesFromSuffix(pre, rest, 0);
  }

  /** Extracting the variables of a rendered well-formed template gives its names. */
  lemma {:induction false} RenderRoundTrip(lits: seq<string>, names: seq<string>)
    requires WellFormedTemplate(lits, names)
    ensures PathVariables(Render(lits, names)) == names
    decreases names
  {
    var lit := lits[0];
    if names == [] {
      SkipLiteral(lit, "", 0);
      assert lit + "" == lit;
    } else {
      var n := names[0];
      var rest := Render(lits[1..], names[1..]);
      var tail := "{" + n + "}" + rest;
      assert Render(lits, names) == lit + tail;
      SkipLiteral(lit, tail, 0);
      VariablesFromSuffix(lit, tail, 0);
      BracedNameFirst(n, rest);
      assert WellFormedTemplate(lits[1..], names[1..]);
      RenderRoundTrip(lits[1..], names[1..]);
    }
  }

  /** A '/' inside braces is not a variable: "/a/{b/c}" has none. */
  lemma SlashInsideBracesIsNoVariable()
    ensures PathVariables("/a/{b/c}") == []
  {
    var s := "/a/{b/c}";
    assert MatchAt(s, 3) == None;
    assert VariablesFrom(s, 3) == VariablesFrom(s, 4);
  }

  /** `{}` is not a variable: the group needs at least one character. */
  lemma EmptyBracesAreNoVariable()
    ensures PathVariables("/a/{}") == []
  {
  }

  // ---------------------------------------------------------------------------
  // parseEntry

  /** The entry for one combination; everything but the three coordinates comes from
      the mapping and its handler. */
  function MakeEntry(hm: HandlerMethod, info: RequestMappingInfo, pattern: string,
                     rm: RequestMethod, mediaType: Option<MediaType>): FastEntry
  {
    FastEntry(info, pattern, rm, Before(pattern, '{'), PathVariables(pattern), mediaType,
              hm, DetermineOrder(hm.accelerator), DetermineShortCircuit(hm.accelerator), hm.accelerator)
  }

  function ForMediaTypes(hm: HandlerMethod, info: RequestMappingInfo, pattern: string,
                         rm: RequestMethod, ts: seq<Option<MediaType>>): (r: seq<FastEntry>)
    ensures |r| == |ts|
    ensures forall k :: 0 <= k < |ts| ==> r[k] == MakeEntry(hm, info, pattern, rm, ts[k])
  {
    seq(|ts|, k requires 0 <= k < |ts| => MakeEntry(hm, info, pattern, rm, ts[k]))
  }

  function ForMethods(hm: HandlerMethod, info: RequestMappingInfo, pattern: string,
                      ms: seq<RequestMethod>, ts: seq<Option<MediaType>>): seq<FastEntry>
  {
    if ms == [] then []
    else ForMediaTypes(hm, info, pattern, ms[0], ts) + ForMethods(hm, info, pattern, ms[1..], ts)
  }

  function ForPatterns(hm: HandlerMethod, info: RequestMappingInfo, ps: seq<string>,
                       ms: seq<RequestMethod>, ts: seq<Option<MediaType>>): seq<FastEntry>
  {
    if ps == [] then []
    else ForMethods(hm, info, ps[0], ms, ts) + ForPatterns(hm, info, ps[1..], ms, ts)
  }

  /** `EntryParser.parseEntry`. */
  function ParseEntry(hm: HandlerMethod, info: RequestMappingInfo): seq<FastEntry> {
    if info.patterns.None? || info.patterns.value == [] then []
    else ForPatterns(hm, info, info.patterns.value, RequestMethods(info), MediaTypes(info))
  }

  /** A mapping without patterns yields no entry. */
  lemma NoPatternsNoEntries(hm: HandlerMethod, info: RequestMappingInfo)
    requires info.patterns.None? || info.patterns.value == []
    ensures ParseEntry(hm, info) == []
  {
  }

  lemma {:induction false} ForMethodsSpec(hm: HandlerMethod, info: RequestMappingInfo, p: string,
                                          ms: seq<RequestMethod>, ts: seq<Option<MediaType>>)
    ensures |ForMethods(hm, info, p, ms, ts)| == |ms| * |ts|
    ensures forall e :: e in ForMethods(hm, info, p, ms, ts) <==>
              exists m, t :: m in ms && t in ts && e == MakeEntry(hm, info, p, m, t)
  {
    if ms != [] {
      ForMethodsSpec(hm, info, p, ms[1..], ts);
      var r := ForMethods(hm, info, p, ms, ts);
      var head := ForMediaTypes(hm, info, p, ms[0], ts);
      assert r == head + ForMethods(hm, info, p, ms[1..], ts);
      forall e | e in r ensures exists m, t :: m in ms && t in ts && e == MakeEntry(hm, info, p, m, t) {
        if e in head {
          var k :| 0 <= k < |head| && head[k] == e;
          assert ms[0] in ms && ts[k] in ts;
        } else {
          var m, t :| m in ms[1..] && t in ts && e == MakeEntry(hm, info, p, m, t);
          assert m in ms;
        }
      }
      forall e | exists m, t :: m in ms && t in ts && e == MakeEntry(hm, info, p, m, t) ensures e in r {
        var m, t :| m in ms && t in ts && e == MakeEntry(hm, info, p, m, t);
        if m == ms[0] {
          var k :| 0 <= k < |ts| && ts[k] == t;
          assert head[k] == e;
        } else {
          assert m in ms[1..];
        }
      }
      assert |ms| * |ts| == |ts| + (|ms| - 1) * |ts|;
    }
  }

  lemma {:induction false} ForPatternsSpec(hm: HandlerMethod, info: RequestMappingInfo, ps: seq<string>,
                                           ms: seq<RequestMethod>, ts: seq<Option<MediaType>>)
    ensures |ForPatterns(hm, info, ps, ms, ts)| == |ps| * (|ms| * |ts|)
    ensures forall e :: e in ForPatterns(hm, info, ps, ms, ts) <==>
              exists p, m, t :: p in ps && m in ms && t in ts && e == MakeEntry(hm, info, p, m, t)
  {
    if ps != [] {
      ForPatternsSpec(hm, info, ps[1..], ms, ts);
      ForMethodsSpec(hm, info, ps[0], ms, ts);
      var r := ForPatterns(hm, info, ps, ms, ts);
      var head := ForMethods(hm, info, ps[0], ms, ts);
      forall e | e in r ensures exists p, m, t :: p in ps && m in ms && t in ts && e == MakeEntry(hm, info, p, m, t) {
        if e in head {
          var m, t :| m in ms && t in ts && e == MakeEntry(hm, info, ps[0], m, t);
          assert ps[0] in ps;
        } else {
          var p, m, t :| p in ps[1..] && m in ms && t in ts && e == MakeEntry(hm, info, p, m, t);
          assert p in ps;
        }
      }
      forall e | exists p, m, t :: p in ps && m in ms && t in ts && e == MakeEntry(hm, info, p, m, t) ensures e in r {
        var p, m, t :| p in ps && m in ms && t in ts && e == MakeEntry(hm, info, p, m, t);
        if p != ps[0] {
          assert p in ps[1..];
        }
      }
      assert |ps| * (|ms| * |ts|) == |ms| * |ts| + (|ps| - 1) * (|ms| * |ts|);
    }
  }

  /** The result has one entry per (pattern, method, media type) triple: its size is
      the product of the three sizes, and an entry is in it exactly when it is the
      entry of some triple. */
  lemma ParseEntryProduct(hm: HandlerMethod, info: RequestMappingInfo)
    requires info.patterns.Some?
    ensures |ParseEntry(hm, info)| == |info.patterns.value| * (|RequestMethods(info)| * |MediaTypes(info)|)
    ensures forall e :: e in ParseEntry(hm, info) <==>
              exists p, m, t :: p in info.patterns.value && m in RequestMethods(info) && t in MediaTypes(info)
                                && e == MakeEntry(hm, info, p, m, t)
  {
    ForPatternsSpec(hm, info, info.patterns.value, RequestMethods(info), MediaTypes(info));
  }

  /** Every produced entry carries the mapping, the handler, the annotation-derived
      order and flag, a prefix that is the pattern text before the first '{', and the
      pattern's variable names. */
  lemma ParseEntryFields(hm: HandlerMethod, info: RequestMappingInfo, e: FastEntry)
    requires e in ParseEntry(hm, info)
    ensures e.requestMappingInfo == info && e.handlerMethod == hm
    ensures e.order == (if hm.accelerator.Some? then hm.accelerator.value.order else 1)
    ensures e.shortCircuit == (hm.accelerator.Some? && hm.accelerator.value.shortCircuit)
    ensures e.accelerator == hm.accelerator
    ensures e.pattern in info.patterns.value && e.requestMethod in RequestMethods(info)
    ensures e.pathPrefix <= e.pattern && '{' !in e.pathPrefix
    ensures '{' in e.pattern ==> e.pattern[|e.pathPrefix|] == '{'
    ensures e.variableNames == PathVariables(e.pattern)
  {
    ParseEntryProduct(hm, info);
  }

  /** A mapping without declared methods yields entries for every request method. */
  lemma EmptyMethodsMeansAll(hm: HandlerMethod, info: RequestMappingInfo, p: string, m: RequestMethod)
    requires info.patterns.Some? && p in info.patterns.value && info.methods == []
    ensures MakeEntry(hm, info, p, m, MediaTypes(info)[0]) in ParseEntry(hm, info)
  {
    ParseEntryProduct(hm, info);
    assert m in RequestMethods(info);
    assert MediaTypes(info)[0] in MediaTypes(info);
  }

  /** Without producible media types every entry is for "any" media type. */
  lemma NoProducesMeansAny(hm: HandlerMethod, info: RequestMappingInfo, e: FastEntry)
    requires info.produces.None? || info.produces.value == []
    requires e in ParseEntry(hm, info)
    ensures e.produces.None?
  {
    ParseEntryProduct(hm, info);
  }

  /** With duplicate-free inputs (the framework hands over sets) no entry is
      produced twice: together with `ParseEntryProduct`, exactly one per triple. */
  lemma {:induction false} ForPatternsDistinct(hm: HandlerMethod, info: RequestMappingInfo, ps: seq<string>,
                                               ms: seq<RequestMethod>, ts: seq<Option<MediaType>>)
    requires forall i, j :: 0 <= i < j < |ps| ==> ps[i] != ps[j]
    requires forall i, j :: 0 <= i < j < |ms| ==> ms[i] != ms[j]
    requires forall i, j :: 0 <= i < j < |ts| ==> ts[i] != ts[j]
    ensures forall i, j :: 0 <= i < j < |ForPatterns(hm, info, ps, ms, ts)| ==>
              ForPatterns(hm, info, ps, ms, ts)[i] != ForPatterns(hm, info, ps, ms, ts)[j]
  {
    if ps != [] {
      ForPatternsDistinct(hm, info, ps[1..], ms, ts);
      ForMethodsDistinct(hm, info, ps[0], ms, ts);
      ForPatternsSpec(hm, info, ps[1..], ms, ts);
      var head := ForMethods(hm, info, ps[0], ms, ts);
      var tail := ForPatterns(hm, info, ps[1..], ms, ts);
      ForMethodsSpec(hm, info, ps[0], ms, ts);
      forall i, j | 0 <= i < |head| && 0 <= j < |tail| ensures head[i] != tail[j] {
        assert head[i] in head && tail[j] in tail;
        assert head[i].pattern == ps[0];
        assert tail[j].pattern in ps[1..];
      }
      DistinctConcat(head, tail);
    }
  }

  lemma {:induction false} ForMethodsDistinct(hm: HandlerMethod, info: RequestMappingInfo, p: string,
                                              ms: seq<RequestMethod>, ts: seq<Option<MediaType>>)
    requires forall i, j :: 0 <= i < j < |ms| ==> ms[i] != ms[j]
    requires forall i, j :: 0 <= i < j < |ts| ==> ts[i] != ts[j]
    ensures forall i, j :: 0 <= i < j < |ForMethods(hm, info, p, ms, ts)| ==>
              ForMethods(hm, info, p, ms, ts)[i] != ForMethods(hm, info, p, ms, ts)[j]
  {
    if ms != [] {
      ForMethodsDistinct(hm, info, p, ms[1..], ts);
      ForMethodsSpec(hm, info, p, ms[1..], ts);
      var head := ForMediaTypes(hm, info, p, ms[0], ts);
      var tail := ForMethods(hm, info, p, ms[1..], ts);
      forall i, j | 0 <= i < |head| && 0 <= j < |tail| ensures head[i] != tail[j] {
        assert tail[j] in tail;
        assert tail[j].requestMethod in ms[1..];
      }
      DistinctConcat(head, tail);
    }
  }

  lemma DistinctConcat<T>(a: seq<T>, b: seq<T>)
    requires forall i, j :: 0 <= i < j < |a| ==> a[i] != a[j]
    requires forall i, j :: 0 <= i < j < |b| ==> b[i] != b[j]
    requires forall i, j :: 0 <= i < |a| && 0 <= j < |b| ==> a[i] != b[j]
    ensures forall i, j :: 0 <= i < j < |a + b| ==> (a + b)[i] != (a + b)[j]
  {
    forall i, j | 0 <= i < j < |a + b| ensures (a + b)[i] != (a + b)[j] {
      if j < |a| {
      } else if i >= |a| {
        assert (a + b)[i] == b[i - |a|] && (a + b)[j] == b[j - |a|];
      } else {
        assert (a + b)[j] == b[j - |a|];
      }
    }
  }
}
