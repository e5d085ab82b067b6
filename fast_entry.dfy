/** The route entry record of the fast path (fastpath/FastEntry.java) and the
    framework values it refers to. Framework objects are abstract values here:
    a handler method is an identity plus its `@MvcAccelerator` annotation, a
    request mapping is an identity plus the conditions the entry parser reads. */
module FastEntries {
  import opened Common

  /** Java `int`. */
  newtype int32 = x: int | -0x8000_0000 <= x < 0x8000_0000

  /** Spring's `RequestMethod` enum, in declaration order. */
  datatype RequestMethod = GET | HEAD | POST | PUT | PATCH | DELETE | OPTIONS | TRACE

  type MediaType = string

  /** `@MvcAccelerator(order, shortCircuit)`; the annotation's defaults are 0 and false. */
  datatype Accelerator = Accelerator(order: int32, shortCircuit: bool)

  const DefaultAccelerator: Accelerator := Accelerator(0, false)

  /** A controller method bound to its bean, with the annotation found on it. */
  datatype HandlerMethod = HandlerMethod(id: nat, accelerator: Option<Accelerator>)

  /** The parts of a `RequestMappingInfo` the parser reads: the path-patterns
      condition (None when the mapping has none), the declared methods, and the
      producible media types (None when there is no produces condition). The
      framework's sets are given in their iteration order. */
  datatype RequestMappingInfo = RequestMappingInfo(
    id: nat,
    patterns: Option<seq<string>>,
    methods: seq<RequestMethod>,
    produces: Option<seq<MediaType>>)

  /** One (pattern, method, media type) combination bound to a handler. A `None`
      media type stands for "any". `accelerator` is the handler's annotation, which
      the matcher consults through `entry.mvcAccelerator()`. */
  datatype FastEntry = FastEntry(
    requestMappingInfo: RequestMappingInfo,
    pattern: string,
    requestMethod: RequestMethod,
    pathPrefix: string,
    variableNames: seq<string>,
    produces: Option<MediaType>,
    handlerMethod: HandlerMethod,
    order: int32,
    shortCircuit: bool,
    accelerator: Option<Accelerator>)

  /** `FastEntry.compareTo`: `Integer.compare(order, o.order)`. */
  function Compare(a: FastEntry, b: FastEntry): (r: int)
    ensures -1 <= r <= 1
    ensures r < 0 <==> a.order as int - b.order as int < 0
    ensures r == 0 <==> a.order == b.order
  {
    if a.order < b.order then -1 else if a.order == b.order then 0 else 1
  }

  /** `Compare` is a total preorder: reflexive, sign-antisymmetric and transitive. */
  lemma CompareIsTotalPreorder(a: FastEntry, b: FastEntry, c: FastEntry)
    ensures Compare(a, a) == 0
    ensures Compare(a, b) == -Compare(b, a)
    ensures Compare(a, b) <= 0 && Compare(b, c) <= 0 ==> Compare(a, c) <= 0
    ensures Compare(a, b) <= 0 || Compare(b, a) <= 0
  {
  }

  /** Only `order` is consulted: entries differing in every other field but sharing
      an order compare equal. */
  lemma CompareReadsOnlyOrder(a: FastEntry, b: FastEntry)
    requires a.order == b.order
    ensures Compare(a, b) == 0 && Compare(b, a) == 0
  {
  }

  /** 32-bit two's-complement subtraction, as `order - o.order` would compute it. */
  function Sub32(a: int32, b: int32): (r: int32)
    ensures (r as int - (a as int - b as int)) % 0x1_0000_0000 == 0
  {
    var d := a as int - b as int;
    if d >= 0x8000_0000 then (d - 0x1_0000_0000) as int32
    else if d < -0x8000_0000 then (d + 0x1_0000_0000) as int32
    else d as int32
  }

  /** Why the comparison goes through `Integer.compare`: a subtracting comparator
      would put an order of -2^31 after an order of 1. */
  lemma SubtractionWouldOverflow(a: FastEntry, b: FastEntry)
    requires a.order == -0x8000_0000 && b.order == 1
    ensures Compare(a, b) < 0
    ensures Sub32(a.order, b.order) > 0
  {
  }
}
