/** Dispatch over the route table (fastpath/RequestHandlerMatcherUtil.java). The
    framework's `RequestMappingInfo.getMatchingCondition(request)`, its
    `compareTo(other, request)` and `PathMatcher.extractUriTemplateVariables` are
    parameters: functions of the mapping (and of the fixed request). */
module RequestMatching {
  import opened Common
  import opened FastEntries
  import opened Modes
  import opened Servlet

  type MatchingCondition = RequestMappingInfo -> Option<RequestMappingInfo>
  type MappingComparator = (RequestMappingInfo, RequestMappingInfo) -> int
  type VariableExtractor = (string, string) -> map<string, string>

  /** A successful match: the narrowed mapping, the handler and the entry's pattern. */
  datatype Match = Match(info: RequestMappingInfo, handler: HandlerMethod, pattern: string)

  /** The mode/annotation gate and the prefix pre-filter. */
  predicate Considered(mode: Mode, path: string, e: FastEntry) {
    (mode == ALL || e.accelerator.Some?) && StartsWith(path, e.pathPrefix)
  }

  /** An entry that passes the gate and whose mapping matches the request. */
  predicate Hit(mode: Mode, path: string, matching: MatchingCondition, e: FastEntry) {
    Considered(mode, path, e) && matching(e.requestMappingInfo).Some?
  }

  function MatchOf(matching: MatchingCondition, e: FastEntry): Match
    requires matching(e.requestMappingInfo).Some?
  {
    Match(matching(e.requestMappingInfo).value, e.handlerMethod, e.pattern)
  }

  /** How the scan over the table ends: at a short-circuit entry, or with the
      collected candidates. */
  datatype Scan = ShortCircuit(first: Match) | Collected(candidates: seq<Match>)

  function Prepend(ms: seq<Match>, s: Scan): Scan {
    match s
    case ShortCircuit(m) => ShortCircuit(m)
    case Collected(ns) => Collected(ms + ns)
  }

  /** The candidate loop, entry by entry. */
  function ScanEntries(mode: Mode, path: string, matching: MatchingCondition, es: seq<FastEntry>): Scan {
    if es == [] then Collected([])
    else if Hit(mode, path, matching, es[0]) then
      if es[0].shortCircuit then ShortCircuit(MatchOf(matching, es[0]))
      else Prepend([MatchOf(matching, es[0])], ScanEntries(mode, path, matching, es[1..]))
    else ScanEntries(mode, path, matching, es[1..])
  }

  /** Reference definition of the candidates: the match of every hit, in table order. */
  function Candidates(mode: Mode, path: string, matching: MatchingCondition, es: seq<FastEntry>): seq<Match> {
    if es == [] then []
    else (if Hit(mode, path, matching, es[0]) then [MatchOf(matching, es[0])] else [])
         + Candidates(mode, path, matching, es[1..])
  }

  /** The first element of the stable sort under `compare`: the earliest candidate
      that no other candidate sorts strictly before. */
  function Best(compare: MappingComparator, ms: seq<Match>): (r: Match)
    requires ms != []
    ensures r in ms
  {
    if |ms| == 1 then ms[0]
    else
      var b := Best(compare, ms[1..]);
      if compare(b.info, ms[0].info) < 0 then b else ms[0]
  }

  /** `getHandlerInternal`'s choice, before the attributes are written. */
  function Dispatch(mode: Mode, path: string, matching: MatchingCondition, compare: MappingComparator,
                    es: seq<FastEntry>): Option<Match>
  {
    match ScanEntries(mode, path, matching, es)
    case ShortCircuit(m) => Some(m)
    case Collected(ms) => if ms == [] then None else Some(Best(compare, ms))
  }

  /** `handleBestMatch`: records the pattern and the extracted variables and returns the handler. */
  method HandleBestMatch(request: Request, extract: VariableExtractor, m: Match) returns (handler: HandlerMethod)
    modifies request
    ensures handler == m.handler
    ensures request.attributes == old(request.attributes)
              [BestMatchingPatternAttribute := Text(m.pattern)]
              [UriTemplateVariablesAttribute := Variables(extract(m.pattern, request.ServletPath()))]
  {
    handler := m.handler;
    request.SetAttribute(BestMatchingPatternAttribute, Text(m.pattern));
    request.SetAttribute(UriTemplateVariablesAttribute, Variables(extract(m.pattern, request.ServletPath())));
  }

  /** `RequestHandlerMatcherUtil.getHandlerInternal`: the handler of the chosen match
      (the returned chain wraps exactly it), with the attributes written only when
      there is one. */
  method GetHandlerInternal(mode: Mode, request: Request, entries: seq<FastEntry>, matching: MatchingCondition,
                            compare: MappingComparator, extract: VariableExtractor)
    returns (handler: Option<HandlerMethod>)
    modifies request
    ensures var d := Dispatch(mode, request.ServletPath(), matching, compare, entries);
            && handler == (if d.Some? then Some(d.value.handler) else None)
            && request.attributes == if d.None? then old(request.attributes) else old(request.attributes)
                 [BestMatchingPatternAttribute := Text(d.value.pattern)]
                 [UriTemplateVariablesAttribute := Variables(extract(d.value.pattern, request.ServletPath()))]
  {
    var path := request.ServletPath();
    var potentialMatches: seq<Match> := [];
    var i := 0;
    while i < |entries|
      invariant 0 <= i <= |entries|
      invariant ScanEntries(mode, path, matching, entries) == Prepend(potentialMatches, ScanEntries(mode, path, matching, entries[i..]))
      invariant request.attributes == old(request.attributes)
    {
      var entry := entries[i];
      ScanUnfold(mode, path, matching, entries, i);
      if (mode == ALL || entry.accelerator.Some?) && StartsWith(path, entry.pathPrefix) {
        var matchingCondition := matching(entry.requestMappingInfo);
        if matchingCondition.Some? {
          var m := Match(matchingCondition.value, entry.handlerMethod, entry.pattern);
          if entry.shortCircuit {
            assert ScanEntries(mode, path, matching, entries) == ShortCircuit(m);
            var h := HandleBestMatch(request, extract, m);
            return Some(h);
          }
          PrependPrepend(potentialMatches, [m], ScanEntries(mode, path, matching, entries[i + 1..]));
          potentialMatches := potentialMatches + [m];
        }
      }
      i := i + 1;
    }
    assert entries[i..] == [];
    assert potentialMatches + [] == potentialMatches;
    if potentialMatches == [] {
      return None;
    }
    var best := Best(compare, potentialMatches);
    var h := HandleBestMatch(request, extract, best);
    handler := Some(h);
  }

  /** One step of the scan. */
  lemma ScanUnfold(mode: Mode, path: string, matching: MatchingCondition, es: seq<FastEntry>, i: nat)
    requires i < |es|
    ensures ScanEntries(mode, path, matching, es[i..]) ==
              if !Hit(mode, path, matching, es[i]) then ScanEntries(mode, path, matching, es[i + 1..])
              else if es[i].shortCircuit then ShortCircuit(MatchOf(matching, es[i]))
              else Prepend([MatchOf(matching, es[i])], ScanEntries(mode, path, matching, es[i + 1..]))
  {
    assert es[i..][0] == es[i];
    assert es[i..][1..] == es[i + 1..];
  }

  lemma PrependPrepend(ms: seq<Match>, ns: seq<Match>, s: Scan)
    ensures Prepend(ms, Prepend(ns, s)) == Prepend(ms + ns, s)
  {
    if s.Collected? {
      assert ms + (ns + s.candidates) == (ms + ns) + s.candidates;
    }
  }

  // ---------------------------------------------------------------------------
  // What the choice is

  /** Without a short-circuit hit the scan collects exactly the candidates, in
      table order. */
  lemma {:induction false} ScanCollectsCandidates(mode: Mode, path: string, matching: MatchingCondition, es: seq<FastEntry>)
    requires forall i :: 0 <= i < |es| && Hit(mode, path, matching, es[i]) ==> !es[i].shortCircuit
    ensures ScanEntries(mode, path, matching, es) == Collected(Candidates(mode, path, matching, es))
  {
    if es != [] {
      ScanCollectsCandidates(mode, path, matching, es[1..]);
    }
  }

  /** The first hit whose entry is short-circuit wins: whatever was collected
      before it and whatever follows it is ignored. */
  lemma {:induction false} FirstShortCircuitWins(mode: Mode, path: string, matching: MatchingCondition,
                                                 compare: MappingComparator, es: seq<FastEntry>, i: nat)
    requires i < |es| && Hit(mode, path, matching, es[i]) && es[i].shortCircuit
    requires forall j :: 0 <= j < i && Hit(mode, path, matching, es[j]) ==> !es[j].shortCircuit
    ensures Dispatch(mode, path, matching, compare, es) == Some(MatchOf(matching, es[i]))
  {
    ScanShortCircuit(mode, path, matching, es, i);
  }

  lemma {:induction false} ScanShortCircuit(mode: Mode, path: string, matching: MatchingCondition, es: seq<FastEntry>, i: nat)
    requires i < |es| && Hit(mode, path, matching, es[i]) && es[i].shortCircuit
    requires forall j :: 0 <= j < i && Hit(mode, path, matching, es[j]) ==> !es[j].shortCircuit
    ensures ScanEntries(mode, path, matching, es) == ShortCircuit(MatchOf(matching, es[i]))
  {
    if i > 0 {
      ScanShortCircuit(mode, path, matching, es[1..], i - 1);
    }
  }

  /** With no hit the result is null (and, by `GetHandlerInternal`, no attribute is written). */
  lemma NoHitNoHandler(mode: Mode, path: string, matching: MatchingCondition, compare: MappingComparator, es: seq<FastEntry>)
    requires forall i :: 0 <= i < |es| ==> !Hit(mode, path, matching, es[i])
    ensures Dispatch(mode, path, matching, compare, es) == None
  {
    ScanCollectsCandidates(mode, path, matching, es);
    NoHitNoCandidates(mode, path, matching, es);
  }

  lemma {:induction false} NoHitNoCandidates(mode: Mode, path: string, matching: MatchingCondition, es: seq<FastEntry>)
    requires forall i :: 0 <= i < |es| ==> !Hit(mode, path, matching, es[i])
    ensures Candidates(mode, path, matching, es) == []
  {
    if es != [] {
      NoHitNoCandidates(mode, path, matching, es[1..]);
    }
  }

  /** Every candidate is the match of a hit. */
  lemma {:induction false} CandidateIsHit(mode: Mode, path: string, matching: MatchingCondition, es: seq<FastEntry>, m: Match)
    returns (i: nat)
    requires m in Candidates(mode, path, matching, es)
    ensures i < |es| && Hit(mode, path, matching, es[i]) && m == MatchOf(matching, es[i])
  {
    if Hit(mode, path, matching, es[0]) && m == MatchOf(matching, es[0]) {
      i := 0;
    } else {
      var j := CandidateIsHit(mode, path, matching, es[1..], m);
      i := j + 1;
    }
  }

  /** Whatever is dispatched to comes from an entry that passed the gate (mode ALL,
      or an annotated handler), whose prefix starts the servlet path, and whose
      mapping matched. */
  lemma DispatchedEntryPassedGate(mode: Mode, path: string, matching: MatchingCondition,
                                  compare: MappingComparator, es: seq<FastEntry>) returns (i: nat)
    requires Dispatch(mode, path, matching, compare, es).Some?
    ensures i < |es| && matching(es[i].requestMappingInfo).Some?
    ensures Dispatch(mode, path, matching, compare, es) == Some(MatchOf(matching, es[i]))
    ensures mode == ALL || es[i].accelerator.Some?
    ensures es[i].pathPrefix <= path
  {
    i := ScanResultIsHit(mode, path, matching, compare, es);
  }

  lemma {:induction false} ScanResultIsHit(mode: Mode, path: string, matching: MatchingCondition,
                                           compare: MappingComparator, es: seq<FastEntry>) returns (i: nat)
    requires Dispatch(mode, path, matching, compare, es).Some?
    ensures i < |es| && Hit(mode, path, matching, es[i])
    ensures Dispatch(mode, path, matching, compare, es) == Some(MatchOf(matching, es[i]))
  {
    var d := Dispatch(mode, path, matching, compare, es).value;
    if exists j :: 0 <= j < |es| && Hit(mode, path, matching, es[j]) && es[j].shortCircuit {
      i := FirstShortCircuit(mode, path, matching, es);
      FirstShortCircuitWins(mode, path, matching, compare, es, i);
    } else {
      ScanCollectsCandidates(mode, path, matching, es);
      var ms := Candidates(mode, path, matching, es);
      assert d == Best(compare, ms);
      i := CandidateIsHit(mode, path, matching, es, d);
    }
  }

  /** The earliest short-circuit hit, when there is one. */
  lemma {:induction false} FirstShortCircuit(mode: Mode, path: string, matching: MatchingCondition, es: seq<FastEntry>)
    returns (i: nat)
    requires exists j :: 0 <= j < |es| && Hit(mode, path, matching, es[j]) && es[j].shortCircuit
    ensures i < |es| && Hit(mode, path, matching, es[i]) && es[i].shortCircuit
    ensures forall j :: 0 <= j < i && Hit(mode, path, matching, es[j]) ==> !es[j].shortCircuit
  {
    if Hit(mode, path, matching, es[0]) && es[0].shortCircuit {
      i := 0;
    } else {
      var j :| 0 <= j < |es| && Hit(mode, path, matching, es[j]) && es[j].shortCircuit;
      assert es[1..][j - 1] == es[j];
      var k := FirstShortCircuit(mode, path, matching, es[1..]);
      i := k + 1;
      forall j | 0 <= j < i && Hit(mode, path, matching, es[j]) ensures !es[j].shortCircuit {
        if j > 0 {
          assert es[1..][j - 1] == es[j];
        }
      }
    }
  }

  // ---------------------------------------------------------------------------
  // The best match

  /** What `List.sort` asks of its comparator: a total preorder whose sign flips
      when the arguments are swapped. */
  ghost predicate TotalPreorder(compare: MappingComparator) {
    && (forall a, b {:trigger NotAfter(compare, a, b)} :: compare(a, b) < 0 <==> compare(b, a) > 0)
    && (forall a, b :: NotAfter(compare, a, b) || NotAfter(compare, b, a))
    && (forall a, b, c :: NotAfter(compare, a, b) && NotAfter(compare, b, c) ==> NotAfter(compare, a, c))
  }

  /** `a` does not sort after `b`. */
  predicate NotAfter(compare: MappingComparator, a: RequestMappingInfo, b: RequestMappingInfo) {
    compare(a, b) <= 0
  }

  /** Under a comparator that keeps `List.sort`'s contract, `Best` is what the
      stable sort puts first: a minimum of all candidates, with every earlier
      candidate strictly greater. */
  lemma {:induction false} BestIsEarliestMinimum(compare: MappingComparator, ms: seq<Match>) returns (k: nat)
    requires ms != [] && TotalPreorder(compare)
    ensures k < |ms| && Best(compare, ms) == ms[k]
    ensures forall j :: 0 <= j < |ms| ==> compare(ms[k].info, ms[j].info) <= 0
    ensures forall j :: 0 <= j < k ==> compare(ms[j].info, ms[k].info) > 0
  {
    if |ms| == 1 {
      k := 0;
      assert NotAfter(compare, ms[0].info, ms[0].info);
    } else {
      var k1 := BestIsEarliestMinimum(compare, ms[1..]);
      Reindex(compare, ms, k1);
      if compare(ms[k1 + 1].info, ms[0].info) < 0 {
        k := k1 + 1;
        LaterMinimum(compare, ms, k);
      } else {
        k := 0;
        FirstMinimum(compare, ms, k1 + 1);
      }
    }
  }

  /** The tail's earliest minimum, stated on the whole sequence. */
  lemma Reindex(compare: MappingComparator, ms: seq<Match>, k1: nat)
    requires |ms| > 1
    requires k1 < |ms| - 1 && Best(compare, ms[1..]) == ms[1..][k1]
    requires forall j :: 0 <= j < |ms| - 1 ==> compare(ms[1..][k1].info, ms[1..][j].info) <= 0
    requires forall j :: 0 <= j < k1 ==> compare(ms[1..][j].info, ms[1..][k1].info) > 0
    ensures Best(compare, ms) == if compare(ms[k1 + 1].info, ms[0].info) < 0 then ms[k1 + 1] else ms[0]
    ensures forall j :: 1 <= j < |ms| ==> compare(ms[k1 + 1].info, ms[j].info) <= 0
    ensures forall j :: 1 <= j < k1 + 1 ==> compare(ms[j].info, ms[k1 + 1].info) > 0
  {
    var rest := ms[1..];
    forall j | 1 <= j < |ms| ensures compare(ms[k1 + 1].info, ms[j].info) <= 0 {
      assert ms[j] == rest[j - 1];
    }
    forall j | 1 <= j < k1 + 1 ensures compare(ms[j].info, ms[k1 + 1].info) > 0 {
      assert ms[j] == rest[j - 1];
    }
  }

  /** A minimum of the tail that is strictly below the head is an earliest minimum. */
  lemma LaterMinimum(compare: MappingComparator, ms: seq<Match>, k: nat)
    requires TotalPreorder(compare)
    requires 1 <= k < |ms| && compare(ms[k].info, ms[0].info) < 0
    requires forall j :: 1 <= j < |ms| ==> compare(ms[k].info, ms[j].info) <= 0
    requires forall j :: 1 <= j < k ==> compare(ms[j].info, ms[k].info) > 0
    ensures forall j :: 0 <= j < |ms| ==> compare(ms[k].info, ms[j].info) <= 0
    ensures forall j :: 0 <= j < k ==> compare(ms[j].info, ms[k].info) > 0
  {
    assert NotAfter(compare, ms[k].info, ms[0].info);
  }

  /** A head that is not above the tail's minimum is below everything. */
  lemma FirstMinimum(compare: MappingComparator, ms: seq<Match>, k: nat)
    requires TotalPreorder(compare)
    requires 1 <= k < |ms| && !(compare(ms[k].info, ms[0].info) < 0)
    requires forall j :: 1 <= j < |ms| ==> compare(ms[k].info, ms[j].info) <= 0
    ensures forall j :: 0 <= j < |ms| ==> compare(ms[0].info, ms[j].info) <= 0
  {
    var h, m := ms[0].info, ms[k].info;
    assert NotAfter(compare, h, m) by {
      assert NotAfter(compare, m, h) || NotAfter(compare, h, m);
      assert NotAfter(compare, h, m) || !(compare(m, h) < 0);
    }
    forall j | 0 <= j < |ms| ensures compare(h, ms[j].info) <= 0 {
      if j == 0 {
        assert NotAfter(compare, h, h);
      } else {
        assert NotAfter(compare, m, ms[j].info);
        assert NotAfter(compare, h, ms[j].info);
      }
    }
  }

  /** With several hits and none short-circuit, the handler is that of the earliest
      hit whose narrowed mapping is least under the comparator. */
  lemma DispatchPicksEarliestMinimum(mode: Mode, path: string, matching: MatchingCondition,
                                     compare: MappingComparator, es: seq<FastEntry>) returns (k: nat)
    requires TotalPreorder(compare)
    requires forall i :: 0 <= i < |es| && Hit(mode, path, matching, es[i]) ==> !es[i].shortCircuit
    requires Candidates(mode, path, matching, es) != []
    ensures var ms := Candidates(mode, path, matching, es);
            && k < |ms| && Dispatch(mode, path, matching, compare, es) == Some(ms[k])
            && (forall j :: 0 <= j < |ms| ==> compare(ms[k].info, ms[j].info) <= 0)
            && (forall j :: 0 <= j < k ==> compare(ms[j].info, ms[k].info) > 0)
  {
    ScanCollectsCandidates(mode, path, matching, es);
    k := BestIsEarliestMinimum(compare, Candidates(mode, path, matching, es));
  }

  /** The mode gate: in ANNOTATED mode an entry without the annotation is never the result. */
  lemma AnnotatedModeSkipsPlainEntries(path: string, matching: MatchingCondition, compare: MappingComparator,
                                       es: seq<FastEntry>)
    requires forall i :: 0 <= i < |es| ==> es[i].accelerator.None?
    ensures Dispatch(ANNOTATED, path, matching, compare, es) == None
  {
    NoHitNoHandler(ANNOTATED, path, matching, compare, es);
  }
}
