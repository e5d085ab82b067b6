/** `VirtualFilterChain`: a cursor over the applicable filters, followed by the
    handler invocation wrapped in the interceptors' preHandle / postHandle /
    afterCompletion protocol. Filters, interceptors and handler adapters are given
    as values together with the behaviour they show for the current request, and
    every call the chain makes is recorded in a trace. */
module VirtualChain {
  import opened Common
  import FastEntries
  import FilterUtils
  import InterceptorUtils

  // ---------------------------------------------------------------------------
  // Values

  /** The handler found by the handler mapping: a `HandlerMethod` or any other object. */
  datatype Handler = MethodHandler(handlerMethod: FastEntries.HandlerMethod) | OtherHandler(id: nat)

  /** Why the chain itself raises a `ServletException`. */
  datatype ServletReason = NoAdapterFor(handler: Handler) | ViewRenderingUnsupported

  /** The exceptions that cross the chain: unchecked ones, checked ones from user
      code, the chain's own `ServletException`s, and a `ServletException` wrapping a
      cause. */
  datatype Exception =
    | Runtime(code: nat)
    | Checked(code: nat)
    | ServletError(reason: ServletReason)
    | ServletWrapping(cause: Exception)

  /** How a call ends: normally, or by throwing. */
  datatype Outcome = Done | Thrown(e: Exception)

  /** `catch (RuntimeException) { throw ex; } catch (Exception) { throw new ServletException(ex); }` */
  function Rethrown(e: Exception): Exception {
    if e.Runtime? then e else ServletWrapping(e)
  }

  /** What a filter's `doFilter` does with the chain it is handed: call it once and
      let its outcome through, return without calling it, or throw without calling it. */
  datatype FilterAction = CallsChain | Blocks | FilterThrows(e: Exception)

  /** What `preHandle` does: return true, return false, or throw. */
  datatype PreResult = Proceed | Refuse | PreThrows(e: Exception)

  /** An interceptor's behaviour on this request; `None` means the call returns normally. */
  datatype InterceptorBehaviour = InterceptorBehaviour(pre: PreResult, postThrows: Option<Exception>, afterThrows: Option<Exception>)

  /** `ModelAndView`, reduced to whether it was cleared. */
  datatype ModelAndView = ModelAndView(cleared: bool)

  /** What `HandlerAdapter.handle` does: return a possibly null view, or throw. */
  datatype HandleResult = Returned(view: Option<ModelAndView>) | HandlerThrew(e: Exception)

  /** A `HandlerAdapter`: `supports` and `handle`. */
  datatype Adapter = Adapter(supports: Handler -> bool, handle: Handler -> HandleResult)

  /** One call made by the chain. */
  datatype Event =
    | FilterCalled(index: nat)
    | PreHandle(index: nat)
    | Handle(adapter: nat)
    | PostHandle(index: nat)
    | AfterCompletion(index: nat, failure: Option<Exception>)

  /** The calls a run makes and how it ends. */
  datatype Run = Run(events: seq<Event>, outcome: Outcome)

  /** The calls made after the interceptors were consulted, and the failure they end with. */
  datatype BodyResult = BodyResult(events: seq<Event>, failure: Option<Exception>)

  /** The behaviour the environment assigns to each filter or interceptor, position for position. */
  function Behaviours<T, B>(xs: seq<T>, behaviour: T -> B): (r: seq<B>)
    ensures |r| == |xs| && forall i :: 0 <= i < |r| ==> r[i] == behaviour(xs[i])
  {
    seq(|xs|, i requires 0 <= i < |xs| => behaviour(xs[i]))
  }

  // ---------------------------------------------------------------------------
  // Specification of the handler invocation

  /** Where the preHandle pass stops. */
  datatype PreStatus = AllProceeded | RefusedAt(index: nat) | ThrewAt(index: nat, e: Exception)

  /** The preHandle pass from interceptor `i` on. */
  function PreFrom(bs: seq<InterceptorBehaviour>, i: nat): PreStatus
    requires i <= |bs|
    decreases |bs| - i
  {
    if i == |bs| then AllProceeded
    else match bs[i].pre
      case Proceed => PreFrom(bs, i + 1)
      case Refuse => RefusedAt(i)
      case PreThrows(e) => ThrewAt(i, e)
  }

  /** The value `lastPreHandled` holds once the preHandle pass is over. */
  function LastPreHandled(bs: seq<InterceptorBehaviour>, status: PreStatus): int {
    match status
    case AllProceeded => |bs| - 1
    case RefusedAt(k) => k - 1
    case ThrewAt(k, _) => k - 1
  }

  /** How many preHandle calls the pass makes. */
  function PreCount(bs: seq<InterceptorBehaviour>, status: PreStatus): nat {
    match status
    case AllProceeded => |bs|
    case RefusedAt(k) => k + 1
    case ThrewAt(k, _) => k + 1
  }

  function PreHandles(n: nat): (r: seq<Event>)
    ensures |r| == n && forall k :: 0 <= k < n ==> r[k] == PreHandle(k)
  {
    seq(n, k requires 0 <= k < n => PreHandle(k))
  }

  /** `handlerAdapters.stream().filter(supports).findFirst()`, from position `j` on. */
  function FirstSupporting(adapters: seq<Adapter>, handler: Handler, j: nat): (r: Option<nat>)
    requires j <= |adapters|
    ensures r.Some? ==> (j <= r.value < |adapters| && adapters[r.value].supports(handler)
                         && forall k :: j <= k < r.value ==> !adapters[k].supports(handler))
    ensures r.None? ==> forall k :: j <= k < |adapters| ==> !adapters[k].supports(handler)
    decreases |adapters| - j
  {
    if j == |adapters| then None
    else if adapters[j].supports(handler) then Some(j)
    else FirstSupporting(adapters, handler, j + 1)
  }

  /** The postHandle pass from index `k` down to 0, stopping at the first throw. */
  function PostFrom(bs: seq<InterceptorBehaviour>, k: int): BodyResult
    requires -1 <= k < |bs|
    decreases k + 1
  {
    if k < 0 then BodyResult([], None)
    else if bs[k].postThrows.Some? then BodyResult([PostHandle(k)], bs[k].postThrows)
    else
      var rest := PostFrom(bs, k - 1);
      BodyResult([PostHandle(k)] + rest.events, rest.failure)
  }

  /** Adapter lookup, `handle`, the view check and the postHandle pass, once every
      preHandle returned true. */
  function HandleAndPost(bs: seq<InterceptorBehaviour>, adapters: seq<Adapter>, handler: Handler): BodyResult {
    match FirstSupporting(adapters, handler, 0)
    case None => BodyResult([], Some(ServletError(NoAdapterFor(handler))))
    case Some(j) =>
      match adapters[j].handle(handler)
      case HandlerThrew(e) => BodyResult([Handle(j)], Some(e))
      case Returned(view) =>
        if view.Some? && !view.value.cleared then BodyResult([Handle(j)], Some(ServletError(ViewRenderingUnsupported)))
        else
          var post := PostFrom(bs, |bs| - 1);
          BodyResult([Handle(j)] + post.events, post.failure)
  }

  /** The afterCompletion calls from index `k` down to 0, each handed `failure`. */
  function Cleanup(k: int, failure: Option<Exception>): (r: seq<Event>)
    decreases k + 1
  {
    if k < 0 then [] else [AfterCompletion(k, failure)] + Cleanup(k - 1, failure)
  }

  /** The failure caught by the invocation's `catch` clauses, if any. */
  function RawFailure(bs: seq<InterceptorBehaviour>, adapters: seq<Adapter>, handler: Handler): BodyResult {
    match PreFrom(bs, 0)
    case AllProceeded => HandleAndPost(bs, adapters, handler)
    case RefusedAt(_) => BodyResult([], None)
    case ThrewAt(_, e) => BodyResult([], Some(e))
  }

  /** `invokeHandlerWithInterceptors`: the whole protocol with its `finally` cleanup. */
  function Invocation(bs: seq<InterceptorBehaviour>, adapters: seq<Adapter>, handler: Handler): Run {
    var status := PreFrom(bs, 0);
    var body := RawFailure(bs, adapters, handler);
    var cleanup := Cleanup(LastPreHandled(bs, status), body.failure);
    Run(PreHandles(PreCount(bs, status)) + body.events + cleanup,
        if body.failure.None? then Done else Thrown(Rethrown(body.failure.value)))
  }

  // ---------------------------------------------------------------------------
  // Specification of the filter cursor

  function FilterCalls(from: nat, to: nat): (r: seq<Event>)
    requires from <= to
    ensures |r| == to - from && forall k :: 0 <= k < |r| ==> r[k] == FilterCalled(from + k)
  {
    seq(to - from, k requires 0 <= k < to - from => FilterCalled(from + k))
  }

  /** `doFilter` with the cursor at `pos`: the run and the final cursor position. */
  function ChainFrom(actions: seq<FilterAction>, pos: nat, bs: seq<InterceptorBehaviour>, adapters: seq<Adapter>, handler: Handler): (Run, nat)
    requires pos <= |actions|
    decreases |actions| - pos
  {
    if pos == |actions| then (Invocation(bs, adapters, handler), pos)
    else match actions[pos]
      case CallsChain =>
        var (run, end) := ChainFrom(actions, pos + 1, bs, adapters, handler);
        (Run([FilterCalled(pos)] + run.events, run.outcome), end)
      case Blocks => (Run([FilterCalled(pos)], Done), pos + 1)
      case FilterThrows(e) => (Run([FilterCalled(pos)], Thrown(e)), pos + 1)
  }

  // ---------------------------------------------------------------------------
  // The chain object

  class VirtualFilterChain {
    const filters: seq<FilterUtils.Filter>
    const interceptors: seq<InterceptorUtils.Interceptor>
    const handler: Handler
    const handlerAdapters: seq<Adapter>
    /** How each filter and interceptor behaves on the request being served. */
    const filterAction: FilterUtils.Filter -> FilterAction
    const behaviour: InterceptorUtils.Interceptor -> InterceptorBehaviour
    var pos: nat
    /** Every call the chain has made so far. */
    var trace: seq<Event>

    constructor (filters: seq<FilterUtils.Filter>, interceptors: seq<InterceptorUtils.Interceptor>, handler: Handler,
                 handlerAdapters: seq<Adapter>, filterAction: FilterUtils.Filter -> FilterAction,
                 behaviour: InterceptorUtils.Interceptor -> InterceptorBehaviour)
      ensures this.filters == filters && this.interceptors == interceptors && this.handler == handler
      ensures this.handlerAdapters == handlerAdapters && this.filterAction == filterAction && this.behaviour == behaviour
      ensures pos == 0 && trace == []
    {
      this.filters := filters;
      this.interceptors := interceptors;
      this.handler := handler;
      this.handlerAdapters := handlerAdapters;
      this.filterAction := filterAction;
      this.behaviour := behaviour;
      pos := 0;
      trace := [];
    }

    /** `doFilter`: invoke the filter under the cursor and advance it, or, past the
        last filter, invoke the handler. */
    method DoFilter() returns (outcome: Outcome)
      requires pos <= |filters|
      modifies this
      decreases |filters| - pos
      ensures var (run, end) := ChainFrom(Behaviours(filters, filterAction), old(pos), Behaviours(interceptors, behaviour), handlerAdapters, handler);
              trace == old(trace) + run.events && outcome == run.outcome && pos == end
    {
      if pos < |filters| {
        var next := filters[pos];
        trace := trace + [FilterCalled(pos)];
        pos := pos + 1;
        match filterAction(next)
        case CallsChain =>
          outcome := DoFilter();
        case Blocks =>
          outcome := Done;
        case FilterThrows(e) =>
          outcome := Thrown(e);
      } else {
        outcome := InvokeHandlerWithInterceptors();
      }
    }

    /** `invokeHandlerWithInterceptors`: the preHandle pass, then (if every
        preHandle returned true) the handler and the postHandle pass, then the
        afterCompletion pass of the `finally` block, then the rethrow. */
    method InvokeHandlerWithInterceptors() returns (outcome: Outcome)
      modifies this
      ensures pos == old(pos)
      ensures var run := Invocation(Behaviours(interceptors, behaviour), handlerAdapters, handler);
              trace == old(trace) + run.events && outcome == run.outcome
    {
      ghost var bs := Behaviours(interceptors, behaviour);
      var lastPreHandled, proceeded, failure := PreHandlePass(bs);
      ghost var t0 := trace;
      if proceeded {
        failure := HandleAndPostHandle(bs);
      }
      assert trace == t0 + RawFailure(bs, handlerAdapters, handler).events;
      AfterCompletionPass(lastPreHandled, failure);
      outcome := if failure.None? then Done else Thrown(Rethrown(failure.value));
    }

    /** The `for` loop over preHandle: it stops at the first false or exception. */
    method PreHandlePass(ghost bs: seq<InterceptorBehaviour>) returns (lastPreHandled: int, proceeded: bool, failure: Option<Exception>)
      requires bs == Behaviours(interceptors, behaviour)
      modifies this
      ensures pos == old(pos)
      ensures var status := PreFrom(bs, 0);
              && trace == old(trace) + PreHandles(PreCount(bs, status))
              && lastPreHandled == LastPreHandled(bs, status)
              && proceeded == status.AllProceeded?
              && failure == (if status.ThrewAt? then Some(status.e) else None)
    {
      lastPreHandled := -1;
      failure := None;
      var refused := false;
      var i := 0;
      while i < |interceptors| && !refused && failure.None?
        invariant 0 <= i <= |interceptors|
        invariant trace == old(trace) + PreHandles(i) && pos == old(pos)
        invariant !refused && failure.None? ==> lastPreHandled == i - 1 && PreFrom(bs, 0) == PreFrom(bs, i)
        invariant refused ==> failure.None? && 0 < i && lastPreHandled == i - 2 && PreFrom(bs, 0) == RefusedAt(i - 1)
        invariant failure.Some? ==> !refused && 0 < i && lastPreHandled == i - 2 && PreFrom(bs, 0) == ThrewAt(i - 1, failure.value)
        decreases |interceptors| - i
      {
        trace := trace + [PreHandle(i)];
        assert PreHandles(i) + [PreHandle(i)] == PreHandles(i + 1);
        match behaviour(interceptors[i]).pre {
          case Proceed =>
            lastPreHandled := i;
          case Refuse =>
            lastPreHandled := i - 1;
            refused := true;
          case PreThrows(e) =>
            failure := Some(e);
        }
        i := i + 1;
      }
      proceeded := !refused && failure.None?;
    }

    /** The reverse loop of the `finally` block: every afterCompletion from
        `lastPreHandled` down to 0 is called with the caught failure; whatever one of
        them throws is absorbed, so the loop always completes. */
    method AfterCompletionPass(lastPreHandled: int, failure: Option<Exception>)
      modifies this
      ensures pos == old(pos)
      ensures trace == old(trace) + Cleanup(lastPreHandled, failure)
    {
      var j := lastPreHandled;
      while j >= 0
        invariant trace + Cleanup(j, failure) == old(trace) + Cleanup(lastPreHandled, failure) && pos == old(pos)
        decreases j + 1
      {
        assert trace + Cleanup(j, failure) == (trace + [AfterCompletion(j, failure)]) + Cleanup(j - 1, failure);
        trace := trace + [AfterCompletion(j, failure)];
        j := j - 1;
      }
    }

    /** The part of the `try` block after the preHandle pass. */
    method HandleAndPostHandle(ghost bs: seq<InterceptorBehaviour>) returns (failure: Option<Exception>)
      requires bs == Behaviours(interceptors, behaviour)
      modifies this
      ensures pos == old(pos)
      ensures trace == old(trace) + HandleAndPost(bs, handlerAdapters, handler).events
      ensures failure == HandleAndPost(bs, handlerAdapters, handler).failure
    {
      var found := FirstSupporting(handlerAdapters, handler, 0);
      if found.None? {
        return Some(ServletError(NoAdapterFor(handler)));
      }
      var adapter := found.value;
      trace := trace + [Handle(adapter)];
      var result := handlerAdapters[adapter].handle(handler);
      match result
      case HandlerThrew(e) =>
        failure := Some(e);
      case Returned(view) =>
        if view.Some? && !view.value.cleared {
          failure := Some(ServletError(ViewRenderingUnsupported));
        } else {
          ghost var t0 := trace;
          failure := None;
          var k := |interceptors| - 1;
          while k >= 0 && failure.None?
            invariant -1 <= k < |interceptors| && pos == old(pos)
            invariant failure.None? ==> (trace + PostFrom(bs, k).events == t0 + PostFrom(bs, |bs| - 1).events
                                         && PostFrom(bs, k).failure == PostFrom(bs, |bs| - 1).failure)
            invariant failure.Some? ==> trace == t0 + PostFrom(bs, |bs| - 1).events && failure == PostFrom(bs, |bs| - 1).failure
          {
            assert trace + PostFrom(bs, k).events == (trace + [PostHandle(k)]) + PostFrom(bs, k).events[1..];
            trace := trace + [PostHandle(k)];
            failure := behaviour(interceptors[k]).postThrows;
            k := k - 1;
          }
          assert PostFrom(bs, -1).events == [];
          assert trace == t0 + PostFrom(bs, |bs| - 1).events;
          assert trace == old(trace) + ([Handle(adapter)] + PostFrom(bs, |bs| - 1).events);
        }
    }
  }

  // ---------------------------------------------------------------------------
  // Properties

  /** The preHandle pass: it gets through exactly when every preHandle returns true,
      and it stops at the first interceptor that does not. */
  lemma {:induction false} PreFromSpec(bs: seq<InterceptorBehaviour>, i: nat)
    requires i <= |bs|
    ensures PreFrom(bs, i).AllProceeded? <==> forall k :: i <= k < |bs| ==> bs[k].pre.Proceed?
    ensures !PreFrom(bs, i).AllProceeded? ==>
              var k := PreFrom(bs, i).index;
              && i <= k < |bs|
              && !bs[k].pre.Proceed?
              && (forall m :: i <= m < k ==> bs[m].pre.Proceed?)
              && (PreFrom(bs, i).RefusedAt? <==> bs[k].pre.Refuse?)
              && (PreFrom(bs, i).ThrewAt? ==> bs[k].pre == PreThrows(PreFrom(bs, i).e))
    decreases |bs| - i
  {
    if i < |bs| && bs[i].pre.Proceed? {
      PreFromSpec(bs, i + 1);
    }
  }

  /** afterCompletion is called from index `k` down to 0, each time with the same failure. */
  lemma {:induction false} CleanupSpec(k: int, failure: Option<Exception>)
    ensures |Cleanup(k, failure)| == if k < 0 then 0 else k + 1
    ensures forall m :: 0 <= m < |Cleanup(k, failure)| ==> Cleanup(k, failure)[m] == AfterCompletion(k - m, failure)
    decreases k + 1
  {
    if k >= 0 {
      CleanupSpec(k - 1, failure);
    }
  }

  /** The postHandle pass makes only postHandle calls. */
  lemma {:induction false} PostFromOnlyPostHandles(bs: seq<InterceptorBehaviour>, k: int)
    requires -1 <= k < |bs|
    ensures forall e :: e in PostFrom(bs, k).events ==> e.PostHandle? && 0 <= e.index <= k
    decreases k + 1
  {
    if k >= 0 && bs[k].postThrows.None? {
      PostFromOnlyPostHandles(bs, k - 1);
    }
  }

  /** afterCompletion runs for exactly the interceptors whose preHandle returned
      true, in reverse order, each handed the failure the chain caught (unwrapped)
      or null; an interceptor whose preHandle returned false or threw, and every
      later one, gets no afterCompletion call. */
  lemma AfterCompletionExactlyForProceeded(bs: seq<InterceptorBehaviour>, adapters: seq<Adapter>, handler: Handler, i: nat, f: Option<Exception>)
    ensures AfterCompletion(i, f) in Invocation(bs, adapters, handler).events <==>
              && i < |bs|
              && (forall m :: 0 <= m <= i ==> bs[m].pre.Proceed?)
              && f == RawFailure(bs, adapters, handler).failure
  {
    var status := PreFrom(bs, 0);
    var body := RawFailure(bs, adapters, handler);
    var last := LastPreHandled(bs, status);
    PreFromSpec(bs, 0);
    CleanupSpec(last, body.failure);
    BodyHasNoAfterCompletion(bs, adapters, handler);
    var events := Invocation(bs, adapters, handler).events;
    assert events == PreHandles(PreCount(bs, status)) + body.events + Cleanup(last, body.failure);
    if AfterCompletion(i, f) in events {
      assert AfterCompletion(i, f) in Cleanup(last, body.failure);
    }
    if i < |bs| && (forall m :: 0 <= m <= i ==> bs[m].pre.Proceed?) && f == body.failure {
      assert 0 <= i <= last;
      assert Cleanup(last, body.failure)[last - i] == AfterCompletion(i, f);
    }
  }

  lemma BodyHasNoAfterCompletion(bs: seq<InterceptorBehaviour>, adapters: seq<Adapter>, handler: Handler)
    ensures forall e :: e in RawFailure(bs, adapters, handler).events ==> e.Handle? || e.PostHandle?
  {
    PostFromOnlyPostHandles(bs, |bs| - 1);
  }

  /** A preHandle returning false at index `k` skips the handler and every
      postHandle, ends the request normally, and cleans up indices k-1 down to 0. */
  lemma RefusalSkipsHandler(bs: seq<InterceptorBehaviour>, adapters: seq<Adapter>, handler: Handler, k: nat)
    requires k < |bs| && bs[k].pre.Refuse? && forall m :: 0 <= m < k ==> bs[m].pre.Proceed?
    ensures Invocation(bs, adapters, handler) == Run(PreHandles(k + 1) + Cleanup(k - 1, None), Done)
  {
    PreFromSpec(bs, 0);
    assert PreFrom(bs, 0) == RefusedAt(k);
  }

  /** postHandle is called only when every preHandle returned true and the handler
      returned normally with no view or a cleared one. */
  lemma PostHandleOnlyOnCleanReturn(bs: seq<InterceptorBehaviour>, adapters: seq<Adapter>, handler: Handler, i: nat)
    requires PostHandle(i) in Invocation(bs, adapters, handler).events
    ensures forall m :: 0 <= m < |bs| ==> bs[m].pre.Proceed?
    ensures var j := FirstSupporting(adapters, handler, 0);
            && j.Some?
            && adapters[j.value].handle(handler).Returned?
            && (adapters[j.value].handle(handler).view.None? || adapters[j.value].handle(handler).view.value.cleared)
  {
    var status := PreFrom(bs, 0);
    var body := RawFailure(bs, adapters, handler);
    PreFromSpec(bs, 0);
    CleanupSpec(LastPreHandled(bs, status), body.failure);
    var events := Invocation(bs, adapters, handler).events;
    assert events == PreHandles(PreCount(bs, status)) + body.events + Cleanup(LastPreHandled(bs, status), body.failure);
    assert PostHandle(i) in body.events;
  }

  /** When everything succeeds: every preHandle, the first supporting adapter, every
      postHandle in reverse order, then every afterCompletion in reverse order with
      a null failure. */
  lemma HappyPath(bs: seq<InterceptorBehaviour>, adapters: seq<Adapter>, handler: Handler, j: nat)
    requires forall m :: 0 <= m < |bs| ==> bs[m].pre.Proceed? && bs[m].postThrows.None?
    requires FirstSupporting(adapters, handler, 0) == Some(j)
    requires adapters[j].handle(handler) == Returned(None)
    ensures Invocation(bs, adapters, handler)
            == Run(PreHandles(|bs|) + [Handle(j)] + PostAll(|bs| - 1) + Cleanup(|bs| - 1, None), Done)
  {
    PreFromSpec(bs, 0);
    PostFromClean(bs, |bs| - 1);
  }

  /** postHandle calls from index `k` down to 0. */
  function PostAll(k: int): seq<Event>
    decreases k + 1
  {
    if k < 0 then [] else [PostHandle(k)] + PostAll(k - 1)
  }

  lemma {:induction false} PostFromClean(bs: seq<InterceptorBehaviour>, k: int)
    requires -1 <= k < |bs|
    requires forall m :: 0 <= m <= k ==> bs[m].postThrows.None?
    ensures PostFrom(bs, k) == BodyResult(PostAll(k), None)
    decreases k + 1
  {
    if k >= 0 {
      PostFromClean(bs, k - 1);
    }
  }

  /** How the invocation ends: normally exactly when nothing was caught; an
      unchecked failure is rethrown as it is, any other failure (the chain's own
      `ServletException`s included) is wrapped in one new `ServletException`. */
  lemma InvocationOutcome(bs: seq<InterceptorBehaviour>, adapters: seq<Adapter>, handler: Handler)
    ensures var raw := RawFailure(bs, adapters, handler).failure;
            var outcome := Invocation(bs, adapters, handler).outcome;
            && (outcome.Done? <==> raw.None?)
            && (outcome.Thrown? && outcome.e.Runtime? ==> raw == Some(outcome.e))
            && (outcome.Thrown? && !outcome.e.Runtime? ==> outcome.e.ServletWrapping? && raw == Some(outcome.e.cause) && !outcome.e.cause.Runtime?)
  {
  }

  /** A missing adapter surfaces as a wrapped `ServletException` after the cleanup. */
  lemma NoAdapterIsWrappedServletError(bs: seq<InterceptorBehaviour>, adapters: seq<Adapter>, handler: Handler)
    requires forall m :: 0 <= m < |bs| ==> bs[m].pre.Proceed?
    requires forall k :: 0 <= k < |adapters| ==> !adapters[k].supports(handler)
    ensures Invocation(bs, adapters, handler).outcome == Thrown(ServletWrapping(ServletError(NoAdapterFor(handler))))
  {
    PreFromSpec(bs, 0);
  }

  /** A filter that does not call the chain stops it there: no later filter, no
      interceptor and no handler runs. */
  lemma {:induction false} BlockingFilterStopsChain(actions: seq<FilterAction>, pos: nat, k: nat, bs: seq<InterceptorBehaviour>, adapters: seq<Adapter>, handler: Handler)
    requires pos <= k < |actions|
    requires actions[k] == Blocks && forall m :: pos <= m < k ==> actions[m] == CallsChain
    ensures ChainFrom(actions, pos, bs, adapters, handler) == (Run(FilterCalls(pos, k + 1), Done), k + 1)
    decreases k - pos
  {
    if pos < k {
      BlockingFilterStopsChain(actions, pos + 1, k, bs, adapters, handler);
      assert [FilterCalled(pos)] + FilterCalls(pos + 1, k + 1) == FilterCalls(pos, k + 1);
    } else {
      assert [FilterCalled(pos)] == FilterCalls(pos, k + 1);
    }
  }

  /** When every filter calls the chain, each is invoked once in order, the cursor
      ends past the last filter, and the handler invocation follows. */
  lemma {:induction false} PassingFiltersReachHandler(actions: seq<FilterAction>, pos: nat, bs: seq<InterceptorBehaviour>, adapters: seq<Adapter>, handler: Handler)
    requires pos <= |actions|
    requires forall m :: pos <= m < |actions| ==> actions[m] == CallsChain
    ensures var inv := Invocation(bs, adapters, handler);
            ChainFrom(actions, pos, bs, adapters, handler) == (Run(FilterCalls(pos, |actions|) + inv.events, inv.outcome), |actions|)
    decreases |actions| - pos
  {
    var inv := Invocation(bs, adapters, handler);
    if pos < |actions| {
      PassingFiltersReachHandler(actions, pos + 1, bs, adapters, handler);
      assert [FilterCalled(pos)] + (FilterCalls(pos + 1, |actions|) + inv.events) == FilterCalls(pos, |actions|) + inv.events;
    } else {
      assert FilterCalls(pos, |actions|) + inv.events == inv.events;
    }
  }

  /** A filter's own exception propagates unchanged: the chain does not wrap it. */
  lemma {:induction false} FilterExceptionIsNotWrapped(actions: seq<FilterAction>, pos: nat, k: nat, e: Exception, bs: seq<InterceptorBehaviour>, adapters: seq<Adapter>, handler: Handler)
    requires pos <= k < |actions|
    requires actions[k] == FilterThrows(e) && forall m :: pos <= m < k ==> actions[m] == CallsChain
    ensures ChainFrom(actions, pos, bs, adapters, handler) == (Run(FilterCalls(pos, k + 1), Thrown(e)), k + 1)
    decreases k - pos
  {
    if pos < k {
      FilterExceptionIsNotWrapped(actions, pos + 1, k, e, bs, adapters, handler);
      assert [FilterCalled(pos)] + FilterCalls(pos + 1, k + 1) == FilterCalls(pos, k + 1);
    } else {
      assert [FilterCalled(pos)] == FilterCalls(pos, k + 1);
    }
  }
}
