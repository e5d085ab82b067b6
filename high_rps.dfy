/** The older `@HighRps` fast path (spring/fastpath): entries built from each
    annotated controller method's paths with a hand-written brace scanner, and a
    handler mapping that takes the first entry whose prefix and part count fit,
    binding the variables positionally from a split on '/'. */
module HighRps {
  import opened Common
  import opened Servlet

  /** `@HighRps.produces`' default, `MediaType.APPLICATION_JSON_VALUE`. */
  const DefaultProduces: string := "application/json"

  /** A controller method bound to its bean (`new HandlerMethod(bean, method)`). */
  datatype HandlerRef = HandlerRef(bean: nat, javaMethod: nat)

  /** What the scan reads of one public method: `produces` of its `@HighRps` (None
      when the annotation is absent) and the paths of its merged `@RequestMapping`
      (None when there is no such annotation). */
  datatype ControllerMethod = ControllerMethod(id: nat, highRps: Option<string>, paths: Option<seq<string>>)

  /** A controller bean: its identity, the paths of its class-level `@RequestMapping`
      (None when absent), and its public methods in reflection order. */
  datatype Controller = Controller(bean: nat, classPaths: Option<seq<string>>, methods: seq<ControllerMethod>)

  /** spring/fastpath/FastEntry.java. */
  datatype HighRpsEntry = HighRpsEntry(pathPrefix: string, variableNames: seq<string>, produces: string, handler: HandlerRef)

  type InterceptorId = nat

  /** The returned `HandlerExecutionChain`: the entry's method and every configured interceptor. */
  datatype Chain = Chain(handler: HandlerRef, interceptors: seq<InterceptorId>)

  // ---------------------------------------------------------------------------
  // The brace scanner

  /** From `idx` on: the next '{', then the next '}' at or after it; the text in
      between is a name and the scan resumes after the '}'. A '{' without a later
      '}' ends the scan. */
  function ScanFrom(s: string, idx: nat): seq<string>
    decreases |s| - idx
  {
    var open := IndexOfFrom(s, '{', idx);
    if open < 0 then []
    else
      var close := IndexOfFrom(s, '}', open);
      if close < 0 then [] else [s[open + 1..close]] + ScanFrom(s, close + 1)
  }

  /** The `while ((idx = fullPath.indexOf('{', idx)) >= 0)` loop. */
  method ScanVariables(fullPath: string) returns (varNames: seq<string>)
    ensures varNames == ScanFrom(fullPath, 0)
  {
    varNames := [];
    var idx := 0;
    while true
      invariant 0 <= idx <= |fullPath|
      invariant varNames + ScanFrom(fullPath, idx) == ScanFrom(fullPath, 0)
      decreases |fullPath| - idx
    {
      var open := IndexOfFrom(fullPath, '{', idx);
      if open < 0 {
        break;
      }
      var end := IndexOfFrom(fullPath, '}', open);
      if end < 0 {
        break;
      }
      varNames := varNames + [fullPath[open + 1..end]];
      idx := end + 1;
    }
  }

  /** A template rendered from literals without braces and names without '}' scans
      back to its names, whatever text precedes it; unlike the entry parser's
      expression, a name may be empty or hold '/' or '{'. */
  lemma {:induction false} ScanRoundTrip(pre: string, lits: seq<string>, names: seq<string>)
    requires |lits| == |names| + 1
    requires forall k :: 0 <= k < |lits| ==> '{' !in lits[k] && '}' !in lits[k]
    requires forall k :: 0 <= k < |names| ==> '}' !in names[k]
    ensures ScanFrom(pre + Template(lits, names), |pre|) == names
    decreases names
  {
    if names == [] {
      NoOpenNoName(pre, lits[0]);
    } else {
      var lit, n, rest := lits[0], names[0], Template(lits[1..], names[1..]);
      var pre' := pre + lit + "{" + n + "}";
      ScanRoundTrip(pre', lits[1..], names[1..]);
      BracedStep(pre, lit, n, rest, names[1..]);
      TemplateUnfold(pre, lits, names);
    }
  }

  lemma TemplateUnfold(pre: string, lits: seq<string>, names: seq<string>)
    requires |lits| == |names| + 1 && names != []
    ensures pre + Template(lits, names) == pre + lits[0] + "{" + names[0] + "}" + Template(lits[1..], names[1..])
  {
  }

  /** One braced name, then whatever the rest scans to. */
  lemma BracedStep(pre: string, lit: string, n: string, rest: string, tail: seq<string>)
    requires '{' !in lit && '}' !in n
    requires ScanFrom(pre + lit + "{" + n + "}" + rest, |pre + lit + "{" + n + "}"|) == tail
    ensures ScanFrom(pre + lit + "{" + n + "}" + rest, |pre|) == [n] + tail
  {
    var pre' := pre + lit + "{" + n + "}";
    BracedLayout(pre, lit, n, rest);
    BracedAt(pre' + rest, |pre|, |pre| + |lit|, |pre'| - 1);
  }

  lemma NoOpenNoName(pre: string, s: string)
    requires '{' !in s
    ensures ScanFrom(pre + s, |pre|) == []
  {
    assert (pre + s)[|pre|..] == s;
    ScanEnd(pre + s, |pre|);
  }

  /** Where the braces of `lit{n}` sit in `pre + lit{n} + rest`. */
  lemma BracedLayout(pre: string, lit: string, n: string, rest: string)
    requires '{' !in lit && '}' !in n
    ensures var s, open := pre + lit + "{" + n + "}" + rest, |pre| + |lit|;
            && s == (pre + lit + "{" + n + "}") + rest
            && open + |n| + 1 < |s| && s[open] == '{' && s[open + |n| + 1] == '}'
            && '{' !in s[|pre|..open] && '}' !in s[open..open + |n| + 1]
            && s[open + 1..open + |n| + 1] == n
  {
    var s, open := pre + lit + "{" + n + "}" + rest, |pre| + |lit|;
    assert s[|pre|..open] == lit;
    assert s[open..open + |n| + 1] == "{" + n;
    assert s[open + 1..open + |n| + 1] == n;
  }

  /** The scan from `from` takes the name between the first '{' and the next '}'. */
  lemma BracedAt(s: string, from: nat, open: nat, close: nat)
    requires from <= open < close < |s| && s[open] == '{' && s[close] == '}'
    requires '{' !in s[from..open] && '}' !in s[open..close]
    ensures ScanFrom(s, from) == [s[open + 1..close]] + ScanFrom(s, close + 1)
  {
    FirstAt(s, '{', from, open);
    FirstAt(s, '}', open, close);
    ScanStep(s, from, open, close);
  }

  /** `IndexOfFrom` finds x at k when nothing from `from` up to k is x. */
  lemma FirstAt(s: string, x: char, from: nat, k: nat)
    requires from <= k < |s| && s[k] == x
    requires x !in s[from..k]
    ensures IndexOfFrom(s, x, from) == k
  {
  }

  /** One round of the scan. */
  lemma ScanStep(s: string, idx: nat, open: nat, close: nat)
    requires IndexOfFrom(s, '{', idx) == open && IndexOfFrom(s, '}', open) == close
    ensures ScanFrom(s, idx) == [s[open + 1..close]] + ScanFrom(s, close + 1)
  {
  }

  /** The last round of the scan: no '{', or no '}' after it. */
  lemma ScanEnd(s: string, idx: nat)
    requires var open := IndexOfFrom(s, '{', idx); open < 0 || IndexOfFrom(s, '}', open) < 0
    ensures ScanFrom(s, idx) == []
  {
  }

  /** `lits[0] + "{" + names[0] + "}" + lits[1] + ...`. */
  function Template(lits: seq<string>, names: seq<string>): string
    requires |lits| == |names| + 1
    decreases names
  {
    if names == [] then lits[0] else lits[0] + "{" + names[0] + "}" + Template(lits[1..], names[1..])
  }

  /** `{}` contributes an empty name. */
  lemma EmptyBracesGiveEmptyName()
    ensures ScanFrom("/a/{}", 0) == [""]
  {
    ScanRoundTrip("", ["/a/", ""], [""]);
    assert "" + Template(["/a/", ""], [""]) == "/a/{}";
  }

  /** A '/' inside the braces is kept: `{a/b}` names `a/b`. */
  lemma SlashInsideBracesIsKept()
    ensures ScanFrom("/x/{a/b}", 0) == ["a/b"]
  {
    ScanRoundTrip("", ["/x/", ""], ["a/b"]);
    assert "" + Template(["/x/", ""], ["a/b"]) == "/x/{a/b}";
  }

  /** An unterminated '{' ends the scan without a name. */
  lemma UnterminatedBraceStopsScan(lit: string, rest: string)
    requires '{' !in lit && '}' !in rest
    ensures ScanFrom(lit + "{" + rest, 0) == []
  {
    var s := lit + "{" + rest;
    assert s[|lit|] == '{';
    assert forall i :: 0 <= i < |lit| ==> s[i] == lit[i];
    assert IndexOfFrom(s, '{', 0) == |lit|;
    assert forall i :: |lit| <= i < |s| ==> s[i] != '}' by {
      forall i | |lit| <= i < |s| ensures s[i] != '}' {
        if i > |lit| { assert s[i] == rest[i - |lit| - 1]; }
      }
    }
  }

  // ---------------------------------------------------------------------------
  // Building the entries

  /** The first class-level path, or "". */
  function ClassPath(c: Controller): string {
    if c.classPaths.Some? && |c.classPaths.value| > 0 then c.classPaths.value[0] else ""
  }

  /** The entry for one full path: the prefix is the text before its first '{'
      and the names are the scanner's. */
  function EntryFor(fullPath: string, produces: string, handler: HandlerRef): (e: HighRpsEntry)
    ensures e.pathPrefix <= fullPath && '{' !in e.pathPrefix
    ensures '{' in fullPath ==> fullPath[|e.pathPrefix|] == '{'
    ensures e.variableNames == ScanFrom(fullPath, 0) && e.produces == produces && e.handler == handler
  {
    HighRpsEntry(Before(fullPath, '{'), ScanFrom(fullPath, 0), produces, handler)
  }

  /** One entry per path of an annotated method with paths, in path order. */
  function PathEntries(c: Controller, m: ControllerMethod, ps: seq<string>): (r: seq<HighRpsEntry>)
    requires m.highRps.Some?
    ensures |r| == |ps|
  {
    if ps == [] then []
    else PathEntries(c, m, ps[..|ps| - 1]) + [EntryFor(ClassPath(c) + ps[|ps| - 1], m.highRps.value, HandlerRef(c.bean, m.id))]
  }

  function MethodEntries(c: Controller, m: ControllerMethod): seq<HighRpsEntry> {
    if m.highRps.Some? && m.paths.Some? && |m.paths.value| > 0 then PathEntries(c, m, m.paths.value) else []
  }

  function MethodsEntries(c: Controller, ms: seq<ControllerMethod>): seq<HighRpsEntry> {
    if ms == [] then [] else MethodsEntries(c, ms[..|ms| - 1]) + MethodEntries(c, ms[|ms| - 1])
  }

  function ControllersEntries(cs: seq<Controller>): seq<HighRpsEntry> {
    if cs == [] then [] else ControllersEntries(cs[..|cs| - 1]) + MethodsEntries(cs[|cs| - 1], cs[|cs| - 1].methods)
  }

  /** The nested loops of `highRpsHandlerMapping`: controllers in bean order. */
  method BuildEntries(controllers: seq<Controller>) returns (entries: seq<HighRpsEntry>)
    ensures entries == ControllersEntries(controllers)
  {
    entries := [];
    for b := 0 to |controllers|
      invariant entries == ControllersEntries(controllers[..b])
    {
      assert controllers[..b + 1][..b] == controllers[..b];
      var more := ControllerEntries(controllers[b]);
      entries := entries + more;
    }
    assert controllers[..|controllers|] == controllers;
  }

  /** The loop over one controller's methods. */
  method ControllerEntries(c: Controller) returns (entries: seq<HighRpsEntry>)
    ensures entries == MethodsEntries(c, c.methods)
  {
    var classPath := if c.classPaths.Some? && |c.classPaths.value| > 0 then c.classPaths.value[0] else "";
    entries := [];
    for j := 0 to |c.methods|
      invariant entries == MethodsEntries(c, c.methods[..j])
    {
      var m := c.methods[j];
      assert c.methods[..j + 1][..j] == c.methods[..j];
      if m.highRps.Some? && m.paths.Some? && |m.paths.value| > 0 {
        var more := MethodPathEntries(c, m, classPath);
        entries := entries + more;
      }
    }
    assert c.methods[..|c.methods|] == c.methods;
  }

  /** The loop over one annotated method's paths. */
  method MethodPathEntries(c: Controller, m: ControllerMethod, classPath: string) returns (entries: seq<HighRpsEntry>)
    requires m.highRps.Some? && m.paths.Some?
    requires classPath == ClassPath(c)
    ensures entries == PathEntries(c, m, m.paths.value)
  {
    var ps := m.paths.value;
    entries := [];
    for k := 0 to |ps|
      invariant entries == PathEntries(c, m, ps[..k])
    {
      var fullPath := classPath + ps[k];
      var prefix := Before(fullPath, '{');
      var varNames := ScanVariables(fullPath);
      assert ps[..k + 1][..k] == ps[..k];
      entries := entries + [HighRpsEntry(prefix, varNames, m.highRps.value, HandlerRef(c.bean, m.id))];
    }
    assert ps[..|ps|] == ps;
  }

  /** An entry comes from exactly one (controller, annotated method, path); a method
      without `@HighRps`, or without paths, contributes nothing. */
  lemma {:induction false} MethodsEntriesMember(c: Controller, ms: seq<ControllerMethod>, e: HighRpsEntry)
    ensures e in MethodsEntries(c, ms) <==> exists j :: 0 <= j < |ms| && FromMethod(c, ms[j], e)
  {
    if ms != [] {
      var init, m := ms[..|ms| - 1], ms[|ms| - 1];
      MethodsEntriesMember(c, init, e);
      MethodEntriesMember(c, m, e);
      if e in MethodsEntries(c, ms) && e !in MethodsEntries(c, init) {
        assert FromMethod(c, ms[|ms| - 1], e);
      }
      if exists j :: 0 <= j < |ms| && FromMethod(c, ms[j], e) {
        var j :| 0 <= j < |ms| && FromMethod(c, ms[j], e);
        if j < |ms| - 1 {
          assert init[j] == ms[j];
        }
      }
    }
  }

  /** Entry e is made from one of the paths of the annotated method m. */
  ghost predicate FromMethod(c: Controller, m: ControllerMethod, e: HighRpsEntry) {
    && m.highRps.Some? && m.paths.Some?
    && exists p :: p in m.paths.value && e == EntryFor(ClassPath(c) + p, m.highRps.value, HandlerRef(c.bean, m.id))
  }

  lemma MethodEntriesMember(c: Controller, m: ControllerMethod, e: HighRpsEntry)
    ensures e in MethodEntries(c, m) <==> FromMethod(c, m, e)
  {
    if m.highRps.Some? && m.paths.Some? {
      PathEntriesMember(c, m, m.paths.value, e);
    }
  }

  lemma {:induction false} PathEntriesMember(c: Controller, m: ControllerMethod, ps: seq<string>, e: HighRpsEntry)
    requires m.highRps.Some?
    ensures e in PathEntries(c, m, ps) <==>
              exists p :: p in ps && e == EntryFor(ClassPath(c) + p, m.highRps.value, HandlerRef(c.bean, m.id))
  {
    if ps != [] {
      PathEntriesMember(c, m, ps[..|ps| - 1], e);
      assert ps == ps[..|ps| - 1] + [ps[|ps| - 1]];
    }
  }

  /** Every entry comes from some controller's annotated method and one of its paths,
      and every such path gives an entry. */
  lemma {:induction false} ControllersEntriesMember(cs: seq<Controller>, e: HighRpsEntry)
    ensures e in ControllersEntries(cs) <==>
              exists i, j :: 0 <= i < |cs| && 0 <= j < |cs[i].methods| && FromMethod(cs[i], cs[i].methods[j], e)
  {
    if cs != [] {
      var init, c := cs[..|cs| - 1], cs[|cs| - 1];
      ControllersEntriesMember(init, e);
      MethodsEntriesMember(c, c.methods, e);
      if exists i, j :: 0 <= i < |cs| && 0 <= j < |cs[i].methods| && FromMethod(cs[i], cs[i].methods[j], e) {
        var i, j :| 0 <= i < |cs| && 0 <= j < |cs[i].methods| && FromMethod(cs[i], cs[i].methods[j], e);
        if i < |cs| - 1 {
          assert init[i] == cs[i];
        }
      }
    }
  }

  // ---------------------------------------------------------------------------
  // Matching a request

  /** `vars.put(names[i], parts[i])` for i in order: a later duplicate name wins. */
  function Bind(names: seq<string>, parts: seq<string>): map<string, string>
    requires |names| == |parts|
  {
    if names == [] then map[]
    else Bind(names[..|names| - 1], parts[..|parts| - 1])[names[|names| - 1] := parts[|parts| - 1]]
  }

  /** Every name is bound, to the part at its last position. */
  lemma {:induction false} BindSpec(names: seq<string>, parts: seq<string>, i: nat)
    requires |names| == |parts| && i < |names|
    requires forall j :: i < j < |names| ==> names[j] != names[i]
    ensures names[i] in Bind(names, parts) && Bind(names, parts)[names[i]] == parts[i]
  {
    if i < |names| - 1 {
      BindSpec(names[..|names| - 1], parts[..|parts| - 1], i);
    }
  }

  lemma {:induction false} BindKeys(names: seq<string>, parts: seq<string>)
    requires |names| == |parts|
    ensures Bind(names, parts).Keys == set n | n in names
  {
    if names != [] {
      BindKeys(names[..|names| - 1], parts[..|parts| - 1]);
      assert names == names[..|names| - 1] + [names[|names| - 1]];
    }
  }

  /** The variables an entry binds for a path, or None when the entry does not fit. */
  function EntryMatch(path: string, e: HighRpsEntry): Option<map<string, string>> {
    if !StartsWith(path, e.pathPrefix) then None
    else if e.variableNames == [] then Some(map[])
    else
      var parts := JavaSplit(path[|e.pathPrefix|..]);
      if |parts| != |e.variableNames| then None else Some(Bind(e.variableNames, parts))
  }

  /** The first fitting entry, with its variables. */
  function FirstMatch(path: string, es: seq<HighRpsEntry>): Option<(HighRpsEntry, map<string, string>)> {
    if es == [] then None
    else
      match EntryMatch(path, es[0])
      case Some(vars) => Some((es[0], vars))
      case None => FirstMatch(path, es[1..])
  }

  /** `HighRpsHandlerMapping.getHandlerInternal`. */
  method GetHandlerInternal(request: Request, entries: seq<HighRpsEntry>, interceptors: seq<InterceptorId>)
    returns (chain: Option<Chain>)
    modifies request
    ensures var r := FirstMatch(request.ServletPath(), entries);
            && chain == (if r.Some? then Some(Chain(r.value.0.handler, interceptors)) else None)
            && request.attributes == if r.None? then old(request.attributes) else old(request.attributes)
                 [UriTemplateVariablesAttribute := Variables(r.value.1)]
                 [ProducibleMediaTypesAttribute := MediaTypeSet({r.value.0.produces})]
  {
    var requestPath := request.ServletPath();
    var i := 0;
    while i < |entries|
      invariant 0 <= i <= |entries|
      invariant FirstMatch(requestPath, entries) == FirstMatch(requestPath, entries[i..])
      invariant request.attributes == old(request.attributes)
    {
      var entry := entries[i];
      assert entries[i..][0] == entry && entries[i..][1..] == entries[i + 1..];
      if !StartsWith(requestPath, entry.pathPrefix) {
        i := i + 1;
        continue;
      }
      var vars: map<string, string> := map[];
      var remainder := requestPath[|entry.pathPrefix|..];
      if entry.variableNames != [] {
        var parts := JavaSplit(remainder);
        if |parts| != |entry.variableNames| {
          i := i + 1;
          continue;
        }
        for k := 0 to |parts|
          invariant vars == Bind(entry.variableNames[..k], parts[..k])
        {
          assert entry.variableNames[..k + 1][..k] == entry.variableNames[..k];
          assert parts[..k + 1][..k] == parts[..k];
          vars := vars[entry.variableNames[k] := parts[k]];
        }
        assert entry.variableNames[..|parts|] == entry.variableNames;
        assert parts[..|parts|] == parts;
      }
      request.SetAttribute(UriTemplateVariablesAttribute, Variables(vars));
      request.SetAttribute(ProducibleMediaTypesAttribute, MediaTypeSet({entry.produces}));
      return Some(Chain(entry.handler, interceptors));
    }
    return None;
  }

  /** Entries are tried in list order: the result is the first entry that fits,
      every earlier one does not, and there is no ranking among fitting entries. */
  lemma {:induction false} FirstMatchIsFirst(path: string, es: seq<HighRpsEntry>) returns (i: nat)
    requires FirstMatch(path, es).Some?
    ensures i < |es| && EntryMatch(path, es[i]).Some?
    ensures FirstMatch(path, es) == Some((es[i], EntryMatch(path, es[i]).value))
    ensures forall j :: 0 <= j < i ==> EntryMatch(path, es[j]).None?
  {
    if EntryMatch(path, es[0]).Some? {
      i := 0;
    } else {
      var k := FirstMatchIsFirst(path, es[1..]);
      i := k + 1;
      forall j | 0 <= j < i ensures EntryMatch(path, es[j]).None? {
        if j > 0 { assert es[j] == es[1..][j - 1]; }
      }
    }
  }

  /** No fitting entry gives null (and, by `GetHandlerInternal`, no attribute). */
  lemma {:induction false} NoFitNoHandler(path: string, es: seq<HighRpsEntry>)
    requires forall j :: 0 <= j < |es| ==> EntryMatch(path, es[j]).None?
    ensures FirstMatch(path, es) == None
  {
    if es != [] {
      assert forall j :: 0 <= j < |es| - 1 ==> es[1..][j] == es[j + 1];
      NoFitNoHandler(path, es[1..]);
    }
  }

  /** An entry with variables fits the path built from its prefix and separator-free
      values whose last one is non-empty, binding each name to its value (for
      distinct names). */
  lemma BindRoundTrip(e: HighRpsEntry, values: seq<string>)
    requires e.variableNames != [] && |values| == |e.variableNames|
    requires forall k :: 0 <= k < |values| ==> '/' !in values[k]
    requires values[|values| - 1] != ""
    requires forall i, j :: 0 <= i < j < |e.variableNames| ==> e.variableNames[i] != e.variableNames[j]
    ensures var r := EntryMatch(e.pathPrefix + JoinSlash(values), e);
            && r.Some?
            && forall k :: 0 <= k < |values| ==> e.variableNames[k] in r.value && r.value[e.variableNames[k]] == values[k]
  {
    var path := e.pathPrefix + JoinSlash(values);
    assert path[|e.pathPrefix|..] == JoinSlash(values);
    JavaSplitJoin(values);
    assert EntryMatch(path, e) == Some(Bind(e.variableNames, values));
    forall k | 0 <= k < |values|
      ensures e.variableNames[k] in Bind(e.variableNames, values) && Bind(e.variableNames, values)[e.variableNames[k]] == values[k]
    {
      BindSpec(e.variableNames, values, k);
    }
  }

  /** With no variables the raw prefix decides: "/health" also serves "/healthz". */
  lemma PrefixOnlyEntryMatchesLongerPath(h: HandlerRef)
    ensures EntryMatch("/healthz", HighRpsEntry("/health", [], DefaultProduces, h)) == Some(map[])
  {
    assert "/health" <= "/healthz";
  }

  lemma BindOne(n: string, v: string)
    ensures Bind([n], [v]) == map[n := v]
  {
    assert [n][..0] == [] && [v][..0] == [];
  }

  /** The part count must equal the variable count: "/orders/{id}" does not serve
      "/orders/42/extra". */
  lemma ExtraSegmentDoesNotFit(h: HandlerRef)
    ensures EntryMatch("/orders/42/extra", HighRpsEntry("/orders/", ["id"], DefaultProduces, h)).None?
  {
    var p := "/orders/42/extra";
    assert "/orders/" <= p;
    assert p[|"/orders/"|..] == "42/extra";
    assert JavaSplit("42/extra") == ["42", "extra"] by {
      JavaSplitJoin(["42", "extra"]);
      assert JoinSlash(["42", "extra"]) == "42/extra";
    }
  }

  /** "/orders/{id}" serves "/orders/42" with `id` bound to "42". */
  lemma OneSegmentFits(h: HandlerRef)
    ensures EntryMatch("/orders/42", HighRpsEntry("/orders/", ["id"], DefaultProduces, h)) == Some(map["id" := "42"])
  {
    var q := "/orders/42";
    assert "/orders/" <= q;
    assert q[|"/orders/"|..] == "42";
    assert JavaSplit("42") == ["42"];
    BindOne("id", "42");
  }

  /** Splitting drops trailing empty parts: "/users/" binds `id` to "" and
      "/orders/42/" still fits one variable. */
  lemma TrailingSlashEdgeCases(h: HandlerRef)
    ensures EntryMatch("/users/", HighRpsEntry("/users/", ["id"], DefaultProduces, h)) == Some(map["id" := ""])
    ensures EntryMatch("/orders/42/", HighRpsEntry("/orders/", ["id"], DefaultProduces, h)) == Some(map["id" := "42"])
  {
    var u := "/users/";
    assert u[|"/users/"|..] == "";
    assert JavaSplit("") == [""];
    BindOne("id", "");
    var p := "/orders/42/";
    assert "/orders/" <= p;
    assert p[|"/orders/"|..] == "42/";
    assert Pieces("42/") == ["42", ""] by {
      assert IndexOf("42/", '/') == 2;
      assert "42/"[..2] == "42";
      assert "42/"[3..] == "";
      assert Pieces("") == [""];
    }
    assert DropTrailingEmpty(["42", ""]) == ["42"] by {
      assert ["42", ""][..1] == ["42"];
    }
    assert JavaSplit("42/") == ["42"];
    BindOne("id", "42");
  }
}
