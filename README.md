# mvc-accelerator fast dispatch core, modelled in Dafny

mvc-accelerator is a Spring MVC add-on. It answers requests for selected controller
methods without the full `DispatcherServlet` machinery. This project models its
fast dispatch core and proves properties of that model. The core has five parts:

- **Route-table building** (`EntryParser`, `FastEntries`, `RouteTable`, and the
  handler-mapping bean in `AutoConfiguration`).
  - Each request mapping expands into one `FastEntry` per (pattern, method,
    media type).
  - Each entry carries its static prefix, its `{var}` names, `order` and
    `shortCircuit`.
  - The table is the concatenation of all entries, stably sorted by `order`.
- **Dispatch matching.**
  - `RequestMatching` is the annotation-driven matcher: a mode gate, a prefix
    pre-filter, short-circuit entries and a best match under a comparator.
  - `HighRps` is the older `@HighRps` pair: a brace scanner that builds the
    entries, and a first-match, split-on-`/` binder.
- **Middleware flattening and selection.**
  - `FilterUtils` and `InterceptorUtils` build insertion-ordered
    matcher→components maps and regroup them into component→matchers lists.
  - They then apply the `"*"`/allow-list selection.
  - `OrderedMaps` is the `LinkedHashMap` semantics both use.
  - `AutoConfiguration.GetFiltersEnabled` is the older allow-list with its
    fail-if-missing check.
- **Virtual chain execution.**
  - `PathFilter` is the servlet filter with its write-once per-handler cache.
  - `VirtualChain` is the cursor over the applicable filters, followed by the
    interceptor preHandle/postHandle/afterCompletion state machine.
- **Small decision functions.**
  - `Modes` is the `@ConditionalOnEnumProperty` condition.
  - `Security` holds the three authorization managers, the HTTP-method matcher
    and the post-processor that wraps security matchers in a cache layer exactly
    once.

**How the model takes the source's form.**
- Pure code (parsers, comparators, selections) becomes datatypes, functions and
  lemmas.
- Code that mutates state becomes methods with loops and loop invariants, each
  proved against a specification function:
  - the brace scanners;
  - the grouping loops;
  - the `computeIfAbsent` walks;
  - the dispatch loops;
  - the request attribute writes;
  - the interceptor passes.
- Objects whose fields change in place become classes with `modifies` clauses:
  - `Servlet.Request` (request attributes);
  - `VirtualChain.VirtualFilterChain` (the `pos` cursor and the trace of calls);
  - `PathFilter.MvcAcceleratorPathFilter` (the handler cache);
  - `Security.MappingList` (the mappings list the post-processor rewrites).

**Framework calls are parameters.** The model takes these as uninterpreted
functions:
- `RequestMappingInfo.getMatchingCondition`;
- the mapping comparator;
- `PathMatcher.extractUriTemplateVariables`;
- the `AntPathMatcher` of interceptor matchers;
- security-chain request matchers;
- filter and interceptor behaviour;
- handler adapters;
- `System.identityHashCode`.

**Exceptions.** They are an `Exception` datatype, and every call a chain makes
is recorded in an event trace.

**Where the code differs from its description, the model follows the code:**
- The checked-exception wrapping happens twice: once in `VirtualFilterChain`
  and once more in `MvcAcceleratorPathFilter`.
- `FilterUtils.prepareFilters` can select one grouped entry several times.
- Its "Cannot find filter" branch cannot fire.
- `InterceptorUtils` never reads `failIfMissing`.

**Two places where the code is mid-refactor:**
- `RequestHandlerMatcherUtil` calls an `mvcAccelerator()` accessor that
  `FastEntry` lacks. The model gives every entry the annotation its handler
  method carries (`accelerator: Option<Accelerator>`).
- The root-package auto-configuration calls a `FilterUtils.flattenFilters`
  that does not exist. The model takes the flat filter list as the input of
  `GetFiltersEnabled`.

Constants carried from the source:
- the default `order` of 1;
- the property names `mvc.accelerator.fast-path.mode` and
  `mvc.accelerator.fast-filter-chain.mode`;
- the accepted modes `[ALL, ANNOTATED]`;
- the registration name `MvcAccelerator`;
- `Ordered.HIGHEST_PRECEDENCE` = -2^31;
- the `"*"` wildcard;
- `@HighRps`' default `application/json`.

## Model

| member | source | states |
|---|---|---|
| Common.IndexOf | src/main/java/com/ethlo/mvc/fastpath/EntryParser.java:60 | `indexOf('{')`: -1 exactly when the character is absent, otherwise the position of its first occurrence |
| Common.IndexOfFrom | src/main/java/com/ethlo/spring/fastpath/HighRpsAutoConfiguration.java:53-54 | `indexOf(c, from)`: -1 when no occurrence at or after `from`, otherwise the first such position |
| Common.Before | src/main/java/com/ethlo/mvc/fastpath/EntryParser.java:60-61 | the text before the first `{` is a prefix free of `{`, followed by `{` in the pattern; the whole pattern when there is no `{` |
| Common.TrimStart | src/main/java/com/ethlo/mvc/config/OnPropertyEnumCondition.java:32 | `trim()` front: a suffix of the input that starts with a non-space, and only characters up to U+0020 are removed |
| Common.TrimEnd | src/main/java/com/ethlo/mvc/config/OnPropertyEnumCondition.java:32 | `trim()` back: a prefix of the input that ends with a non-space, and only characters up to U+0020 are removed |
| Common.Trim | src/main/java/com/ethlo/mvc/config/OnPropertyEnumCondition.java:32 | `trim()`; its contract is `TrimStart` and `TrimEnd`, and `Modes.ParsePadded` shows padding is ignored |
| Common.UpperChar | src/main/java/com/ethlo/mvc/config/OnPropertyEnumCondition.java:32 | ASCII lower-case letters move up by 32, every other character is unchanged |
| Common.ToUpper | src/main/java/com/ethlo/mvc/config/OnPropertyEnumCondition.java:32 | `toUpperCase()` keeps the length and maps every character by `UpperChar` |
| Common.Pieces | src/main/java/com/ethlo/spring/fastpath/HighRpsHandlerMapping.java:34 | splitting on `/` gives at least one piece and no piece contains `/` |
| Common.DropTrailingEmpty | src/main/java/com/ethlo/spring/fastpath/HighRpsHandlerMapping.java:34 | Java `split` drops exactly the trailing empty strings: a prefix, ending in a non-empty piece, with only empty strings removed |
| Common.PiecesJoin | src/main/java/com/ethlo/spring/fastpath/HighRpsHandlerMapping.java:34 | splitting the `/`-join of slash-free parts gives the parts back |
| Common.JavaSplitJoin | src/main/java/com/ethlo/spring/fastpath/HighRpsHandlerMapping.java:34 | Java `split("/")` inverts the join when the last part is non-empty |
| Common.JavaSplit | src/main/java/com/ethlo/spring/fastpath/HighRpsHandlerMapping.java:34 | `split("/")`: the pieces with trailing empties dropped; stated by `Pieces`, `DropTrailingEmpty` and `JavaSplitJoin` |
| Modes.ValueOf | src/main/java/com/ethlo/mvc/config/MvcAcceleratorConfig.java:45-47 | `Mode.valueOf`: Some(m) exactly when the text is m's name, None (the caught `IllegalArgumentException`) otherwise |
| Modes.Matches | src/main/java/com/ethlo/mvc/config/OnPropertyEnumCondition.java:14-37 | true iff the annotation is present, the property is set, and its trimmed, upper-cased value names a mode in `havingValues` |
| Modes.ParseMode | src/main/java/com/ethlo/mvc/config/OnPropertyEnumCondition.java:32 | trim, upper-case, `valueOf`; stated by `ParseName`, `ParsePadded` and `EmptyValueDoesNotMatch` |
| Modes.ParseName | src/main/java/com/ethlo/mvc/config/OnPropertyEnumCondition.java:32 | every mode's own name parses back to that mode |
| Modes.ParsePadded | src/main/java/com/ethlo/mvc/config/OnPropertyEnumCondition.java:32 | leading and trailing white space and lower case do not change the parsed mode |
| Modes.PaddedLowerCaseAll | src/main/java/com/ethlo/mvc/config/OnPropertyEnumCondition.java:32 | `" all "` parses as ALL |
| Modes.TrimAllWhite | src/main/java/com/ethlo/mvc/config/OnPropertyEnumCondition.java:32 | trimming a blank value leaves the empty string |
| Modes.EmptyValueDoesNotMatch | src/main/java/com/ethlo/mvc/config/OnPropertyEnumCondition.java:31-36 | a blank property value parses to no mode, and the condition is false rather than an exception |
| FastEntries.Compare | src/main/java/com/ethlo/mvc/fastpath/FastEntry.java:20-23 | `compareTo` is in {-1, 0, 1}: negative iff `order` is smaller, zero iff the orders are equal |
| FastEntries.CompareIsTotalPreorder | src/main/java/com/ethlo/mvc/fastpath/FastEntry.java:22 | the comparison is reflexive at 0, antisymmetric in sign, transitive and total |
| FastEntries.CompareReadsOnlyOrder | src/main/java/com/ethlo/mvc/fastpath/FastEntry.java:21-23 | entries that share an `order` compare equal however their other fields differ |
| FastEntries.SubtractionWouldOverflow | src/main/java/com/ethlo/mvc/fastpath/FastEntry.java:22 | for orders MIN_VALUE and 1, `Integer.compare` says smaller while a 32-bit `a - b` would be positive |
| EntryParser.RequestMethods | src/main/java/com/ethlo/mvc/fastpath/EntryParser.java:89-95 | an empty declared method set becomes every `RequestMethod`; otherwise the declared methods are kept |
| EntryParser.AllMethodsComplete | src/main/java/com/ethlo/mvc/fastpath/EntryParser.java:92 | the all-methods list holds every `RequestMethod` value |
| EntryParser.MediaTypes | src/main/java/com/ethlo/mvc/fastpath/EntryParser.java:39-46 | never empty; exactly `[None]` (any) when there are no producible types, otherwise the declared types |
| EntryParser.CloseFrom | src/main/java/com/ethlo/mvc/fastpath/EntryParser.java:19 | the lazy `[^/]+?` search: the first `}` from j, with no `/` or `}` before it |
| EntryParser.MatchAt | src/main/java/com/ethlo/mvc/fastpath/EntryParser.java:19 | a match starting at a `{` ends at a `}` at least two characters on, so the capture is non-empty |
| EntryParser.ExtractVariableNames | src/main/java/com/ethlo/mvc/fastpath/EntryParser.java:62-66 | the `while (matcher.find())` loop collects exactly the specification's left-to-right captures |
| EntryParser.VariablesWellFormed | src/main/java/com/ethlo/mvc/fastpath/EntryParser.java:19 | every captured name is non-empty, contains no `/`, and has no `}` after its first character (for `{}}` the lazy group captures `}`) |
| EntryParser.VariablesOccur | src/main/java/com/ethlo/mvc/fastpath/EntryParser.java:63-65 | every captured name occurs in the pattern between braces |
| EntryParser.RenderRoundTrip | src/main/java/com/ethlo/mvc/fastpath/EntryParser.java:19 | rendering well-formed names between brace-free literals and extracting them gives the same names, in order |
| EntryParser.SlashInsideBracesIsNoVariable | src/main/java/com/ethlo/mvc/fastpath/EntryParser.java:19 | `/a/{b/c}` has no variables |
| EntryParser.EmptyBracesAreNoVariable | src/main/java/com/ethlo/mvc/fastpath/EntryParser.java:19 | `/a/{}` has no variables |
| EntryParser.ForMediaTypes | src/main/java/com/ethlo/mvc/fastpath/EntryParser.java:56-78 | one entry per media type, in order, each built from the same pattern and method |
| EntryParser.NoPatternsNoEntries | src/main/java/com/ethlo/mvc/fastpath/EntryParser.java:25-28 | a null or empty pattern set yields no entries |
| EntryParser.ForMethodsSpec | src/main/java/com/ethlo/mvc/fastpath/EntryParser.java:55-80 | for one pattern: |methods|·|types| entries, and an entry is present iff it is the one built for some (method, type) |
| EntryParser.ForPatternsSpec | src/main/java/com/ethlo/mvc/fastpath/EntryParser.java:54-82 | |patterns|·|methods|·|types| entries, exactly the ones built for some triple |
| EntryParser.ParseEntryProduct | src/main/java/com/ethlo/mvc/fastpath/EntryParser.java:54-82 | `parseEntry`'s size is the product of the three set sizes, and its entries are exactly the triples' entries |
| EntryParser.ParseEntryFields | src/main/java/com/ethlo/mvc/fastpath/EntryParser.java:49-99 | every entry has the mapping's info and handler; `order` is the annotation's or 1; `shortCircuit` is the annotation's or false; the prefix is the pattern before `{`; the names are the regex captures |
| EntryParser.ParseEntry | src/main/java/com/ethlo/mvc/fastpath/EntryParser.java:21-82 | `parseEntry`; its contract is `ForPatternsSpec`, `ParseEntryProduct`, `ParseEntryFields` and `NoPatternsNoEntries` |
| EntryParser.EmptyMethodsMeansAll | src/main/java/com/ethlo/mvc/fastpath/EntryParser.java:89-95 | with no declared methods, an entry exists for every `RequestMethod` |
| EntryParser.NoProducesMeansAny | src/main/java/com/ethlo/mvc/fastpath/EntryParser.java:44-45 | with no producible types, every entry's media type is the null "any" |
| EntryParser.ForPatternsDistinct | src/main/java/com/ethlo/mvc/fastpath/EntryParser.java:54-82 | distinct patterns, methods and types give pairwise distinct entries: one per triple |
| RouteTable.Insert | src/main/java/com/ethlo/mvc/config/MvcAcceleratorAutoConfiguration.java:58 | insertion adds exactly the new entry (multiset) |
| RouteTable.InsertSorted | src/main/java/com/ethlo/mvc/config/MvcAcceleratorAutoConfiguration.java:58 | inserting into a table sorted by `order` keeps it sorted |
| RouteTable.InsertWithOrder | src/main/java/com/ethlo/mvc/config/MvcAcceleratorAutoConfiguration.java:58 | insertion puts the new entry ahead of the entries of its own order, which keep their relative order |
| RouteTable.SortSpec | src/main/java/com/ethlo/mvc/config/MvcAcceleratorAutoConfiguration.java:58 | `.sorted()` is ascending by `order`, a permutation, and stable: each order's entries keep their discovery order |
| RouteTable.Sort | src/main/java/com/ethlo/mvc/config/MvcAcceleratorAutoConfiguration.java:58 | `Stream.sorted()`; its contract is `SortSpec` and `StableSortUnique` |
| RouteTable.StableSortUnique | src/main/java/com/ethlo/mvc/config/MvcAcceleratorAutoConfiguration.java:58 | any two sorted tables that keep each order's entries in the same sequence are equal: the stable sort is determined |
| RouteTable.AllEntriesMember | src/main/java/com/ethlo/mvc/config/MvcAcceleratorAutoConfiguration.java:49-57 | the `flatMap` holds exactly the entries `parseEntry` gives for some mapping |
| RouteTable.BuildTableSpec | src/main/java/com/ethlo/mvc/config/MvcAcceleratorAutoConfiguration.java:49-59 | the table is sorted, a permutation of the concatenated entries, stable, and holds exactly the parsed entries |
| RouteTable.BuildTable | src/main/java/com/ethlo/mvc/config/MvcAcceleratorAutoConfiguration.java:49-59 | the sorted `flatMap` of parsed entries; its contract is `BuildTableSpec` and `AllEntriesMember` |
| RouteTable.EqualOrdersKeepDiscoveryOrder | src/main/java/com/ethlo/mvc/config/MvcAcceleratorAutoConfiguration.java:58 | two entries with equal `order` appear in the table in the order they were discovered |
| Servlet.Request.SetAttribute | src/main/java/com/ethlo/mvc/fastpath/RequestHandlerMatcherUtil.java:63-65 | `setAttribute` updates one key of the request's attribute map and nothing else |
| RequestMatching.Best | src/main/java/com/ethlo/mvc/fastpath/RequestHandlerMatcherUtil.java:49-56 | the head after sorting is one of the candidates |
| RequestMatching.BestIsEarliestMinimum | src/main/java/com/ethlo/mvc/fastpath/RequestHandlerMatcherUtil.java:49-56 | under a total preorder, the stable sort's head is a minimum of all candidates, and every earlier candidate is strictly greater |
| RequestMatching.HandleBestMatch | src/main/java/com/ethlo/mvc/fastpath/RequestHandlerMatcherUtil.java:60-69 | returns the match's handler and writes the best-pattern attribute and `extract(pattern, path)` as the template-variables attribute, nothing else |
| RequestMatching.GetHandlerInternal | src/main/java/com/ethlo/mvc/fastpath/RequestHandlerMatcherUtil.java:18-58 | the loop returns the dispatch specification's handler; it writes the two attributes exactly when there is one and leaves them untouched otherwise |
| RequestMatching.ScanCollectsCandidates | src/main/java/com/ethlo/mvc/fastpath/RequestHandlerMatcherUtil.java:23-42 | without a short-circuit hit, the scan accumulates exactly the gated, prefix-passing, matching entries in table order |
| RequestMatching.FirstShortCircuitWins | src/main/java/com/ethlo/mvc/fastpath/RequestHandlerMatcherUtil.java:33-35 | the first hit that is short-circuit is returned, whatever was collected before or comes later |
| RequestMatching.NoHitNoHandler | src/main/java/com/ethlo/mvc/fastpath/RequestHandlerMatcherUtil.java:44-46 | with no entry passing the gate, prefix and condition, the result is null |
| RequestMatching.CandidateIsHit | src/main/java/com/ethlo/mvc/fastpath/RequestHandlerMatcherUtil.java:23-39 | every candidate comes from an entry that passed the mode gate, the prefix check and the matching condition |
| RequestMatching.DispatchedEntryPassedGate | src/main/java/com/ethlo/mvc/fastpath/RequestHandlerMatcherUtil.java:24-32 | a dispatched handler comes from an entry that the mode admits, whose prefix starts the path, and whose condition matched |
| RequestMatching.DispatchPicksEarliestMinimum | src/main/java/com/ethlo/mvc/fastpath/RequestHandlerMatcherUtil.java:44-57 | with no short-circuit hit, the result is the earliest comparator-minimum candidate |
| RequestMatching.Dispatch | src/main/java/com/ethlo/mvc/fastpath/RequestHandlerMatcherUtil.java:18-58 | the chosen entry; its contract is `DispatchPicksEarliestMinimum`, `FirstShortCircuitWins`, `NoHitNoHandler` and `DispatchedEntryPassedGate` |
| RequestMatching.AnnotatedModeSkipsPlainEntries | src/main/java/com/ethlo/mvc/fastpath/RequestHandlerMatcherUtil.java:24-25 | in ANNOTATED mode, a table without annotated entries dispatches nothing |
| HighRps.ScanVariables | src/main/java/com/ethlo/spring/fastpath/HighRpsAutoConfiguration.java:51-58 | the `indexOf` loop collects exactly the specification's brace contents, left to right |
| HighRps.ScanRoundTrip | src/main/java/com/ethlo/spring/fastpath/HighRpsAutoConfiguration.java:52-58 | names written between `{}` amid brace-free literals are scanned back exactly |
| HighRps.EmptyBracesGiveEmptyName | src/main/java/com/ethlo/spring/fastpath/HighRpsAutoConfiguration.java:53-57 | `{}` contributes the empty name |
| HighRps.SlashInsideBracesIsKept | src/main/java/com/ethlo/spring/fastpath/HighRpsAutoConfiguration.java:53-56 | unlike the regex parser, `{a/b}` yields `a/b` |
| HighRps.UnterminatedBraceStopsScan | src/main/java/com/ethlo/spring/fastpath/HighRpsAutoConfiguration.java:54-55 | a `{` with no later `}` ends the scan without adding a name |
| HighRps.EntryFor | src/main/java/com/ethlo/spring/fastpath/HighRpsAutoConfiguration.java:44-60 | the prefix is the text before the first `{` (a `{`-free prefix); the names are the scan's; `produces` and the handler are the method's |
| HighRps.PathEntries | src/main/java/com/ethlo/spring/fastpath/HighRpsAutoConfiguration.java:43-61 | one entry per declared method path |
| HighRps.PathEntriesMember | src/main/java/com/ethlo/spring/fastpath/HighRpsAutoConfiguration.java:43-61 | an entry is in one method's entries iff it is the entry for the class path joined to one of the method's paths |
| HighRps.BuildEntries | src/main/java/com/ethlo/spring/fastpath/HighRpsAutoConfiguration.java:26-67 | the nested loops produce exactly the specification's entries, in bean, method and path order |
| HighRps.ControllerEntries | src/main/java/com/ethlo/spring/fastpath/HighRpsAutoConfiguration.java:34-64 | one controller's loop over its methods gives the specification's entries for it |
| HighRps.MethodPathEntries | src/main/java/com/ethlo/spring/fastpath/HighRpsAutoConfiguration.java:43-61 | the loop over one method's paths joins the class path to each path and builds its entry |
| HighRps.ControllersEntriesMember | src/main/java/com/ethlo/spring/fastpath/HighRpsAutoConfiguration.java:33-65 | an entry exists iff some controller has a `@HighRps` method with a non-empty path list, and the entry is built from the class path plus one of those paths |
| HighRps.BindSpec | src/main/java/com/ethlo/spring/fastpath/HighRpsHandlerMapping.java:37-39 | each name is bound to the part at its position; a duplicate name keeps its last part |
| HighRps.BindKeys | src/main/java/com/ethlo/spring/fastpath/HighRpsHandlerMapping.java:37-39 | the bound names are exactly the entry's variable names |
| HighRps.Bind | src/main/java/com/ethlo/spring/fastpath/HighRpsHandlerMapping.java:37-39 | the variable bindings; its contract is `BindSpec`, `BindKeys` and `BindRoundTrip` |
| HighRps.GetHandlerInternal | src/main/java/com/ethlo/spring/fastpath/HighRpsHandlerMapping.java:24-49 | returns the first fitting entry's method with all interceptors; sets the variables and `{produces}` attributes only then; with no match returns null and sets nothing |
| HighRps.FirstMatchIsFirst | src/main/java/com/ethlo/spring/fastpath/HighRpsHandlerMapping.java:27-45 | the winner fits and no earlier entry fits: list order, no specificity ranking |
| HighRps.FirstMatch | src/main/java/com/ethlo/spring/fastpath/HighRpsHandlerMapping.java:27-45 | the first fitting entry; its contract is `FirstMatchIsFirst` and `NoFitNoHandler` |
| HighRps.NoFitNoHandler | src/main/java/com/ethlo/spring/fastpath/HighRpsHandlerMapping.java:48 | when no entry fits, there is no handler |
| HighRps.BindRoundTrip | src/main/java/com/ethlo/spring/fastpath/HighRpsHandlerMapping.java:31-39 | a path built as prefix + `/`-joined values (last non-empty) binds each distinct name to its value |
| HighRps.PrefixOnlyEntryMatchesLongerPath | src/main/java/com/ethlo/spring/fastpath/HighRpsHandlerMapping.java:28-33 | `/health` with no variables matches `/healthz` |
| HighRps.ExtraSegmentDoesNotFit | src/main/java/com/ethlo/spring/fastpath/HighRpsHandlerMapping.java:34-35 | a part count that differs from the variable count rejects the entry |
| HighRps.OneSegmentFits | src/main/java/com/ethlo/spring/fastpath/HighRpsHandlerMapping.java:31-39 | `/orders/{id}` binds `/orders/42` to id = 42 |
| HighRps.TrailingSlashEdgeCases | src/main/java/com/ethlo/spring/fastpath/HighRpsHandlerMapping.java:34 | `split` keeps a lone empty remainder (`/users/` binds id = "") and drops a trailing empty part (`/orders/42/` binds 42) |
| OrderedMaps.Keys | src/main/java/com/ethlo/mvc/filter/FilterUtils.java:61 | the key list of an ordered map is its entries' keys, position for position |
| OrderedMaps.IndexOfKey | src/main/java/com/ethlo/mvc/filter/FilterUtils.java:55 | `LinkedHashMap` lookup: the first entry with the key, or -1 when there is none |
| OrderedMaps.AppendAllSpec | src/main/java/com/ethlo/mvc/filter/FilterUtils.java:87-88 | `computeIfAbsent(k, …).addAll(vs)`: an absent key is added at the end, a present one keeps its place; only k's list grows, by vs |
| OrderedMaps.BuildSpec | src/main/java/com/ethlo/mvc/filter/FilterUtils.java:76-95 | a sequence of `computeIfAbsent` appends gives keys in first-seen order, each with all its values in order |
| OrderedMaps.Build | src/main/java/com/ethlo/mvc/filter/FilterUtils.java:76-95 | the insertion-ordered map; its contract is `BuildSpec` |
| OrderedMaps.DedupSpec | src/main/java/com/ethlo/mvc/filter/FilterUtils.java:43-61 | first-seen deduplication: distinct, same members, in first-occurrence order |
| OrderedMaps.RegroupSpec | src/main/java/com/ethlo/mvc/filter/FilterUtils.java:43-61 | inverting matcher→components gives each component once, in first-seen order, with the key of every occurrence in map order (repeats kept) |
| OrderedMaps.Regroup | src/main/java/com/ethlo/mvc/filter/FilterUtils.java:43-61 | the inverted map; its contract is `RegroupSpec` and `RegroupKeys` |
| OrderedMaps.RegroupKeys | src/main/java/com/ethlo/mvc/filter/FilterUtils.java:52-56 | a component is a key of the regrouped map iff its matcher list is non-empty |
| OrderedMaps.RegroupEntries | src/main/java/com/ethlo/mvc/interceptor/InterceptorUtils.java:54-61 | the nested grouping loop computes exactly the regrouped map |
| OrderedMaps.RegroupEntry | src/main/java/com/ethlo/mvc/interceptor/InterceptorUtils.java:57-59 | the inner loop over one entry's components appends its key to each component's list |
| OrderedMaps.FilteredSpec | src/main/java/com/ethlo/mvc/interceptor/InterceptorUtils.java:98-103 | filtering keeps exactly the elements that pass, in their original relative order |
| OrderedMaps.Filtered | src/main/java/com/ethlo/mvc/interceptor/InterceptorUtils.java:98-103 | the kept entries; its contract is `FilteredSpec` |
| FilterUtils.ChainPairs | src/main/java/com/ethlo/mvc/filter/FilterUtils.java:81-84 | each chain contributes its (matcher, filters) pair, in chain order |
| FilterUtils.MapFiltersByMatcher | src/main/java/com/ethlo/mvc/filter/FilterUtils.java:76-96 | the loop builds exactly the specification's flat map |
| FilterUtils.AddFilter | src/main/java/com/ethlo/mvc/filter/FilterUtils.java:80-93 | one loop pass: a proxy files each chain's filters under the chain's matcher; a composite's members and a plain filter go under `AnyRequestMatcher`; the map grows by exactly those contributions |
| FilterUtils.FlatFiltersSpec | src/main/java/com/ethlo/mvc/filter/FilterUtils.java:76-96 | keys are the matchers in first-seen order; each key's list is every filter filed under it, in input order (plain and composite under `AnyRequestMatcher`, proxy chains under their matcher) |
| FilterUtils.FlatFilters | src/main/java/com/ethlo/mvc/filter/FilterUtils.java:76-96 | the matcher→filters map; its contract is `FlatFiltersSpec` |
| FilterUtils.PlainFiltersJoinFirstAnyRequestKey | src/main/java/com/ethlo/mvc/filter/FilterUtils.java:85-93 | `[p, proxy, q]` gives keys `[Any, chain]` with `[p, q]` under Any: plain filters sit at Any's first position, not in input order |
| FilterUtils.ExampleFiltersUnder | src/main/java/com/ethlo/mvc/filter/FilterUtils.java:79-94 | in the same example, each key's filters are exactly those filed under it |
| FilterUtils.TwoPlainFilters | src/main/java/com/ethlo/mvc/filter/FilterUtils.java:89-93 | two plain filters share the one `AnyRequestMatcher` key |
| FilterUtils.ChainMatchers | src/main/java/com/ethlo/mvc/filter/FilterUtils.java:82 | a proxy names the matchers of its chains, in order |
| FilterUtils.NonNull | src/main/java/com/ethlo/mvc/filter/FilterUtils.java:50 | a null filter list reads as empty, position by position |
| FilterUtils.GroupMatchersByFilterOrdered | src/main/java/com/ethlo/mvc/filter/FilterUtils.java:35-62 | a null map gives `[]`; otherwise the loop computes the regrouped map |
| FilterUtils.NullListContributesNothing | src/main/java/com/ethlo/mvc/filter/FilterUtils.java:50 | an entry with a null filter list changes nothing in the grouping |
| FilterUtils.FirstOfClassSpec | src/main/java/com/ethlo/mvc/filter/FilterUtils.java:148 | `findFirst` by class name: none iff no entry has that class, otherwise the earliest such entry |
| FilterUtils.PrepareFilters | src/main/java/com/ethlo/mvc/filter/FilterUtils.java:123-160 | the method returns the specification's result (the whole grouping for `["*"]`, otherwise the walk) |
| FilterUtils.SelectOrdered | src/main/java/com/ethlo/mvc/filter/FilterUtils.java:142-155 | the nested walk over the flat map computes the specification's selection |
| FilterUtils.SelectFromList | src/main/java/com/ethlo/mvc/filter/FilterUtils.java:143-155 | the inner loop over one list advances the walk or stops at a failure that sticks |
| FilterUtils.SelectWalkSpec | src/main/java/com/ethlo/mvc/filter/FilterUtils.java:142-159 | when every walked filter is grouped, the walk succeeds and yields, per kept occurrence, the first grouped entry of its class |
| FilterUtils.PrepareFiltersNeverFails | src/main/java/com/ethlo/mvc/filter/FilterUtils.java:142-159 | `prepareFilters` never throws "Cannot find filter", and its selection is the first-of-class entry per allow-listed occurrence |
| FilterUtils.PrepareFiltersResult | src/main/java/com/ethlo/mvc/filter/FilterUtils.java:123-160 | `prepareFilters`' result; its contract is `SelectWalkSpec` and `PrepareFiltersNeverFails` |
| FilterUtils.SameClassIsSelectedTwice | src/main/java/com/ethlo/mvc/filter/FilterUtils.java:142-159 | two instances of allow-listed class A select the first A's entry twice |
| InterceptorUtils.PatternPairs | src/main/java/com/ethlo/mvc/interceptor/InterceptorUtils.java:31-34 | each include pattern gets its own fresh matcher, carrying the inner interceptor |
| InterceptorUtils.MapInterceptorsByMatcher | src/main/java/com/ethlo/mvc/interceptor/InterceptorUtils.java:22-44 | the loop builds exactly the specification's flat map |
| InterceptorUtils.AddInterceptor | src/main/java/com/ethlo/mvc/interceptor/InterceptorUtils.java:28-40 | one loop pass files the interceptor under a fresh matcher per include pattern, or its target under `MATCH_ALL`, extending the flat map by exactly its contributions |
| InterceptorUtils.FlatInterceptorsSpec | src/main/java/com/ethlo/mvc/interceptor/InterceptorUtils.java:22-44 | keys are distinct; `MATCH_ALL` holds the plain and include-less interceptors in order; each pattern matcher holds just its mapped interceptor; keys have non-empty lists |
| InterceptorUtils.FlatInterceptors | src/main/java/com/ethlo/mvc/interceptor/InterceptorUtils.java:22-44 | the matcher→interceptors map; its contract is `FlatInterceptorsSpec` |
| InterceptorUtils.EqualPatternsGiveSeparateKeys | src/main/java/com/ethlo/mvc/interceptor/InterceptorUtils.java:32-33 | a pattern listed twice gives two distinct matcher keys |
| InterceptorUtils.ExcludesAreIgnored | src/main/java/com/ethlo/mvc/interceptor/InterceptorUtils.java:28-34 | changing an interceptor's exclude patterns changes nothing |
| InterceptorUtils.GroupMatchersByInterceptorOrdered | src/main/java/com/ethlo/mvc/interceptor/InterceptorUtils.java:49-62 | a null map gives `[]`; otherwise the regrouped map |
| InterceptorUtils.SelectInterceptors | src/main/java/com/ethlo/mvc/interceptor/InterceptorUtils.java:67-84 | the loop computes the specification's selection |
| InterceptorUtils.SelectedSpec | src/main/java/com/ethlo/mvc/interceptor/InterceptorUtils.java:73-83 | each interceptor keeps exactly its matchers that match the request; interceptors left without a matching matcher disappear; keys distinct |
| InterceptorUtils.Selected | src/main/java/com/ethlo/mvc/interceptor/InterceptorUtils.java:73-83 | the per-request selection; its contract is `SelectedSpec` |
| InterceptorUtils.PrepareInterceptors | src/main/java/com/ethlo/mvc/interceptor/InterceptorUtils.java:89-107 | the method returns the specification's selection |
| InterceptorUtils.SelectNamed | src/main/java/com/ethlo/mvc/interceptor/InterceptorUtils.java:98-103 | the loop keeps exactly the entries whose interceptor class is on the allow-list, in their original order |
| InterceptorUtils.PrepareInterceptorsSpec | src/main/java/com/ethlo/mvc/interceptor/InterceptorUtils.java:98-106 | without `"*"`: exactly the grouped entries whose class is listed, each once, in grouping order; missing names raise nothing |
| InterceptorUtils.PrepareInterceptorsResult | src/main/java/com/ethlo/mvc/interceptor/InterceptorUtils.java:89-107 | `prepareInterceptors`' result; its contract is `PrepareInterceptorsSpec` |
| VirtualChain.Behaviours | src/main/java/com/ethlo/mvc/filter/VirtualFilterChain.java:40 | each filter's (and, at line 55, each interceptor's) behaviour, position for position |
| VirtualChain.PreHandles | src/main/java/com/ethlo/mvc/filter/VirtualFilterChain.java:54-55 | n preHandle calls, for indices 0..n-1 in order |
| VirtualChain.FilterCalls | src/main/java/com/ethlo/mvc/filter/VirtualFilterChain.java:38-40 | the filter calls from `pos` on, one per index in ascending order |
| VirtualChain.FirstSupporting | src/main/java/com/ethlo/mvc/filter/VirtualFilterChain.java:62-65 | the first adapter that supports the handler, or none when no adapter does |
| VirtualChain.VirtualFilterChain.constructor | src/main/java/com/ethlo/mvc/filter/VirtualFilterChain.java:24-34 | the chain starts at position 0 with its filters, interceptors, handler and adapters |
| VirtualChain.VirtualFilterChain.DoFilter | src/main/java/com/ethlo/mvc/filter/VirtualFilterChain.java:37-45 | the recursive cursor appends the trace and reaches the end position the chain specification gives, with its outcome |
| VirtualChain.VirtualFilterChain.InvokeHandlerWithInterceptors | src/main/java/com/ethlo/mvc/filter/VirtualFilterChain.java:47-91 | appends exactly the invocation specification's events and returns its outcome; the cursor is unchanged |
| VirtualChain.VirtualFilterChain.PreHandlePass | src/main/java/com/ethlo/mvc/filter/VirtualFilterChain.java:54-60 | the preHandle loop records calls up to the first refusal or throw, and returns `lastPreHandled` and the failure the specification gives |
| VirtualChain.VirtualFilterChain.HandleAndPostHandle | src/main/java/com/ethlo/mvc/filter/VirtualFilterChain.java:62-74 | adapter lookup, handle, the view check and the reverse postHandle loop append the specification's events and failure |
| VirtualChain.VirtualFilterChain.AfterCompletionPass | src/main/java/com/ethlo/mvc/filter/VirtualFilterChain.java:82-90 | afterCompletion runs for lastPreHandled down to 0, each given the failure |
| VirtualChain.PreFromSpec | src/main/java/com/ethlo/mvc/filter/VirtualFilterChain.java:54-60 | all interceptors proceed iff none refuses or throws; otherwise the stop index is the first that does not proceed |
| VirtualChain.CleanupSpec | src/main/java/com/ethlo/mvc/filter/VirtualFilterChain.java:83-89 | cleanup is one afterCompletion per index, from lastPreHandled down to 0 |
| VirtualChain.AfterCompletionExactlyForProceeded | src/main/java/com/ethlo/mvc/filter/VirtualFilterChain.java:82-89 | afterCompletion(i, f) happens iff interceptors 0..i all proceeded and f is the body's failure |
| VirtualChain.RefusalSkipsHandler | src/main/java/com/ethlo/mvc/filter/VirtualFilterChain.java:55-58 | the first refusal at k skips the handler, runs afterCompletion for k-1..0 with no failure, and completes normally |
| VirtualChain.PostHandleOnlyOnCleanReturn | src/main/java/com/ethlo/mvc/filter/VirtualFilterChain.java:62-74 | a postHandle call implies every preHandle proceeded, an adapter supports the handler, and it returned no live view |
| VirtualChain.HappyPath | src/main/java/com/ethlo/mvc/filter/VirtualFilterChain.java:47-91 | when everything proceeds and the handler returns cleanly: every preHandle, handle, every postHandle and every afterCompletion in reverse; outcome Done |
| VirtualChain.Invocation | src/main/java/com/ethlo/mvc/filter/VirtualFilterChain.java:47-91 | the interceptor and handler run; its contract is `AfterCompletionExactlyForProceeded`, `RefusalSkipsHandler`, `PostHandleOnlyOnCleanReturn`, `InvocationOutcome` and `HappyPath` |
| VirtualChain.InvocationOutcome | src/main/java/com/ethlo/mvc/filter/VirtualFilterChain.java:76-81 | no failure gives Done; a runtime failure is rethrown as-is; any other is wrapped in a `ServletException` |
| VirtualChain.NoAdapterIsWrappedServletError | src/main/java/com/ethlo/mvc/filter/VirtualFilterChain.java:62-65 | with no supporting adapter, the chain's own "No adapter" `ServletException` comes out wrapped in another |
| VirtualChain.BlockingFilterStopsChain | src/main/java/com/ethlo/mvc/filter/VirtualFilterChain.java:39-40 | a filter that does not call the chain ends the run: no later filter, no handler |
| VirtualChain.PassingFiltersReachHandler | src/main/java/com/ethlo/mvc/filter/VirtualFilterChain.java:37-45 | when every remaining filter calls on, each is called once in order and then the handler invocation runs |
| VirtualChain.ChainFrom | src/main/java/com/ethlo/mvc/filter/VirtualFilterChain.java:37-45 | the filter cursor's run; its contract is `PassingFiltersReachHandler`, `BlockingFilterStopsChain` and `FilterExceptionIsNotWrapped` |
| VirtualChain.FilterExceptionIsNotWrapped | src/main/java/com/ethlo/mvc/filter/VirtualFilterChain.java:39-40 | an exception from a filter propagates unchanged and stops the chain |
| PathFilter.ShouldUseMvcAcceleratorSpec | src/main/java/com/ethlo/mvc/filter/MvcAcceleratorPathFilter.java:116-121 | ALL accepts every handler, NONE none, ANNOTATED exactly handler methods that carry `@MvcAccelerator` |
| PathFilter.ShouldUseMvcAccelerator | src/main/java/com/ethlo/mvc/filter/MvcAcceleratorPathFilter.java:116-121 | the mode decision; its contract is `ShouldUseMvcAcceleratorSpec` |
| PathFilter.AnyMatch | src/main/java/com/ethlo/mvc/filter/MvcAcceleratorPathFilter.java:97 | `anyMatch`: true iff some matcher of the entry matches |
| PathFilter.ApplicableSpec | src/main/java/com/ethlo/mvc/filter/MvcAcceleratorPathFilter.java:96-104 | the applicable components are exactly the selected ones with a matching matcher, in selection order, without repeats |
| PathFilter.MvcAcceleratorPathFilter.constructor | src/main/java/com/ethlo/mvc/filter/MvcAcceleratorPathFilter.java:39-51 | the filter keeps its adapters, selections and mode, with an empty cache |
| PathFilter.MvcAcceleratorPathFilter.DoFilter | src/main/java/com/ethlo/mvc/filter/MvcAcceleratorPathFilter.java:58-74 | the result and the new cache are the filtering specification's |
| PathFilter.MvcAcceleratorPathFilter.DoHandle | src/main/java/com/ethlo/mvc/filter/MvcAcceleratorPathFilter.java:76-114 | the result and the new cache are the handling specification's, running a fresh virtual chain |
| PathFilter.NonHttpPassesThrough | src/main/java/com/ethlo/mvc/filter/MvcAcceleratorPathFilter.java:60-63 | a non-HTTP exchange gets the outer chain's outcome untouched, and the cache is unchanged |
| PathFilter.Filtering | src/main/java/com/ethlo/mvc/filter/MvcAcceleratorPathFilter.java:58-74 | `doFilter`'s outcome and new cache; its contract is `NonHttpPassesThrough` and `AcceleratedOutcomes` |
| PathFilter.UnacceleratedFallsThrough | src/main/java/com/ethlo/mvc/filter/MvcAcceleratorPathFilter.java:78-113 | no handler, or one the mode rejects, goes to the outer chain (checked exceptions wrapped), and the cache is unchanged |
| PathFilter.CacheIsWriteOnce | src/main/java/com/ethlo/mvc/filter/MvcAcceleratorPathFilter.java:89-106 | existing cache entries are never changed or removed; the only new key is the served handler's identity |
| PathFilter.Handled | src/main/java/com/ethlo/mvc/filter/MvcAcceleratorPathFilter.java:76-114 | `doHandle`'s outcome and new cache; its contract is `CacheIsWriteOnce`, `FirstRequestDecides` and `UnacceleratedFallsThrough` |
| PathFilter.FirstRequestDecides | src/main/java/com/ethlo/mvc/filter/MvcAcceleratorPathFilter.java:89-110 | a miss stores the lists computed from this request; a later request to the same handler reuses them whatever its path, and leaves the cache as it was |
| PathFilter.CollidingIdentitiesShareLists | src/main/java/com/ethlo/mvc/filter/MvcAcceleratorPathFilter.java:87-94 | two handlers whose identity hashes collide share the first one's cached lists |
| PathFilter.AcceleratedOutcomes | src/main/java/com/ethlo/mvc/filter/MvcAcceleratorPathFilter.java:67-73 | any exception leaving the filter is a runtime exception or a `ServletException` |
| AutoConfiguration.Enabled | src/main/java/com/ethlo/mvc/config/MvcAcceleratorAutoConfiguration.java:33 | the class-level `@ConditionalOnProperty`: the property is set and, ignoring case, is not `false`; stated in `HandlerMappingBeanSpec` and `DisabledMeansNoBeans` |
| AutoConfiguration.HandlerMappingBean | src/main/java/com/ethlo/mvc/config/MvcAcceleratorAutoConfiguration.java:46-62 | the handler-mapping bean, or none; its contract is `HandlerMappingBeanSpec` |
| AutoConfiguration.HandlerMappingBeanSpec | src/main/java/com/ethlo/mvc/config/MvcAcceleratorAutoConfiguration.java:46-59 | the mapping exists iff `mvc.accelerator.enabled` is set and not `false` (the class-level condition at line 33) and the fast-path mode property parses to ALL or ANNOTATED; its table is sorted, a permutation of the parsed entries, and stable |
| AutoConfiguration.FilterBean | src/main/java/com/ethlo/mvc/config/MvcAcceleratorAutoConfiguration.java:64-88 | the filter registration bean, or none, or a startup failure; its contract is `FilterBeanSpec` and `FilterBeanCondition` |
| AutoConfiguration.FilterBeanSpec | src/main/java/com/ethlo/mvc/config/MvcAcceleratorAutoConfiguration.java:64-88 | the filter bean is attempted iff `mvc.accelerator.enabled` holds (line 33) and the fast-filter-chain property parses to ALL or ANNOTATED; it is built iff the handler-mapping bean it requires exists, otherwise the context fails for that missing dependency; a built bean gets that table, `prepareFilters`' and `prepareInterceptors`' results, the filter-chain mode, name `MvcAccelerator` and order -2^31 |
| AutoConfiguration.FilterBeanCondition | src/main/java/com/ethlo/mvc/config/MvcAcceleratorAutoConfiguration.java:64-66 | the filter bean is attempted iff the configuration is enabled and its own mode condition holds; it fails for the missing handler mapping iff the fast-path mode condition does not hold |
| AutoConfiguration.FilterBeanIgnoresFastPathMode | src/main/java/com/ethlo/mvc/config/MvcAcceleratorAutoConfiguration.java:75 | the filter is handed the fast-filter-chain mode: the bound fast-path mode setting is not read (the fast-path property acts only through the handler-mapping bean, as `FilterBeanCondition` states) |
| AutoConfiguration.FilterBeanNeedsFastPath | src/main/java/com/ethlo/mvc/config/MvcAcceleratorAutoConfiguration.java:46-66 | enabled, fast-filter-chain `ALL` and fast-path unset or `NONE`: the filter bean's required `MvcAcceleratorHandlerMapping` has no bean, so the context fails to start |
| AutoConfiguration.DisabledMeansNoBeans | src/main/java/com/ethlo/mvc/config/MvcAcceleratorAutoConfiguration.java:33 | with `mvc.accelerator.enabled` unset or `false`, `False` or `FALSE`, neither bean exists, whatever the modes |
| AutoConfiguration.GetFiltersEnabled | src/main/java/com/ethlo/mvc/MvcAcceleratorAutoConfiguration.java:75-106 | the older allow-list, as written; its contract is `GetFiltersEnabledSpec` |
| AutoConfiguration.SelectionSpec | src/main/java/com/ethlo/mvc/MvcAcceleratorAutoConfiguration.java:83-90 | the selection keeps exactly the flat filters whose class is allow-listed, in flat order |
| AutoConfiguration.GetFiltersEnabledSpec | src/main/java/com/ethlo/mvc/MvcAcceleratorAutoConfiguration.java:75-106 | as written: `["*"]` gives the flat list; otherwise the selection; it fails iff fail-if-missing is set, the counts differ and some name is unmatched; the error lists exactly the unmatched names |
| AutoConfiguration.MissingAreUnmatched | src/main/java/com/ethlo/mvc/MvcAcceleratorAutoConfiguration.java:93-96 | a missing name is one that is allow-listed and matched by no selected filter, equivalently by no flat filter |
| AutoConfiguration.MissingNameMasked | src/main/java/com/ethlo/mvc/MvcAcceleratorAutoConfiguration.java:92 | allow-list `[A, B]` with two A filters passes, although B is missing |
| AutoConfiguration.GetFiltersEnabledCheckedSpec | src/main/java/com/ethlo/mvc/MvcAcceleratorAutoConfiguration.java:92-105 | corrected: fails iff fail-if-missing is set and some allow-listed name is unmatched, whatever the counts |
| Security.DelegatingCheckSpec | src/main/java/com/ethlo/mvc/security/DelegatingAuthorizationManager.java:22-30 | null iff no delegate grants (including no delegates); otherwise the first granted decision, with every earlier delegate null or denying |
| Security.DelegatingCheck | src/main/java/com/ethlo/mvc/security/DelegatingAuthorizationManager.java:22-30 | the delegating decision; its contract is `DelegatingCheckSpec` and `LaterDelegatesNotConsulted` |
| Security.LaterDelegatesNotConsulted | src/main/java/com/ethlo/mvc/security/DelegatingAuthorizationManager.java:26 | once a delegate grants, appending delegates changes nothing |
| Security.NewExactMatch | src/main/java/com/ethlo/mvc/security/ExactMatchAuthorizationManager.java:18-19 | the allowed set holds exactly the listed paths |
| Security.ExactMatchGrantsListedPaths | src/main/java/com/ethlo/mvc/security/ExactMatchAuthorizationManager.java:24-30 | grants iff the servlet path is listed; otherwise null, never a denial |
| Security.ExactCheck | src/main/java/com/ethlo/mvc/security/ExactMatchAuthorizationManager.java:24-30 | the exact-path decision; its contract is `ExactMatchGrantsListedPaths` |
| Security.ExactMatchIgnoresOrderAndRepeats | src/main/java/com/ethlo/mvc/security/ExactMatchAuthorizationManager.java:18-19 | lists with the same members build the same manager |
| Security.ExactMatchDoesNotNormalise | src/main/java/com/ethlo/mvc/security/ExactMatchAuthorizationManager.java:26 | `/a/` is not granted by `["/a"]` |
| Security.AnyPrefix | src/main/java/com/ethlo/mvc/security/SimplePrefixAuthorizationManager.java:24 | `anyMatch(path::startsWith)`: true iff some allowed string is a prefix of the path |
| Security.PrefixCheckSpec | src/main/java/com/ethlo/mvc/security/SimplePrefixAuthorizationManager.java:22-28 | grants iff some allowed string prefixes the servlet path; otherwise null, never a denial |
| Security.PrefixCheck | src/main/java/com/ethlo/mvc/security/SimplePrefixAuthorizationManager.java:22-28 | the prefix decision; its contract is `PrefixCheckSpec` |
| Security.EmptyPrefixGrantsEverything | src/main/java/com/ethlo/mvc/security/SimplePrefixAuthorizationManager.java:24 | an empty allowed string grants every path; an empty list grants none |
| Security.PrefixIsNotSegmentAware | src/main/java/com/ethlo/mvc/security/SimplePrefixAuthorizationManager.java:24 | `/api` grants `/apix` |
| Security.MethodMatchesSpec | src/main/java/com/ethlo/mvc/security/HttpMethodRequestMatcher.java:16-18 | matches iff the request method equals the configured name; a null method never matches; nothing but the method is read |
| Security.MethodMatches | src/main/java/com/ethlo/mvc/security/HttpMethodRequestMatcher.java:16-18 | the method match; its contract is `MethodMatchesSpec` |
| Security.MethodMatchIsCaseSensitive | src/main/java/com/ethlo/mvc/security/HttpMethodRequestMatcher.java:17 | `get` does not match GET |
| Security.MappingList.Clear | src/main/java/com/ethlo/mvc/security/CachedMatcherPostProcessor.java:27 | `mappings.clear()` empties the list |
| Security.MappingList.AddAll | src/main/java/com/ethlo/mvc/security/CachedMatcherPostProcessor.java:28 | `addAll` appends the given entries in order |
| Security.Replacement | src/main/java/com/ethlo/mvc/security/CachedMatcherPostProcessor.java:19-26 | the replacement list wraps each entry, position for position |
| Security.PostProcess | src/main/java/com/ethlo/mvc/security/CachedMatcherPostProcessor.java:16-32 | returns the same object; a delegating manager's list becomes the replacement of its old contents in place; other objects are untouched |
| Security.ReplacementSpec | src/main/java/com/ethlo/mvc/security/CachedMatcherPostProcessor.java:19-26 | same length, order and payloads; every matcher cached afterwards; cached ones kept as-is, others wrapped exactly once |
| Security.ReplacementIdempotent | src/main/java/com/ethlo/mvc/security/CachedMatcherPostProcessor.java:19-26 | processing twice equals processing once |
| Security.NoDoubleCacheLayer | src/main/java/com/ethlo/mvc/security/CachedMatcherPostProcessor.java:21-25 | a plain matcher ends with exactly one cache layer; an already-cached matcher keeps the layers it had |

## Left out

- **Reflection and bean plumbing are not modelled.** This covers:
  - `RequestMatcherHelper`, `extractMatcher` and `getFiltersFromComposite`;
  - `AopUtils`, `ApplicationContext.getBean` and the controller scan.
  Composites, filter-chain proxies, class names and annotations are explicit
  datatype fields instead. The `HandlerMethod` re-created through `getBean`
  is taken to be the mapped one.
- **Framework path semantics are uninterpreted parameters.** This covers
  `getMatchingCondition`, `RequestMappingInfo.compareTo`,
  `extractUriTemplateVariables`, `AntPathMatcher` and the security chains'
  request matchers.
- **`CachedPathPatternRequestMatcher` is an opaque `CachedMatcher(inner)`
  constructor.** Its request-attribute path cache is not modelled.
- **The handler cache is a sequential map.** `ConcurrentHashMap` concurrency
  is not modelled. `System.identityHashCode` is an arbitrary, possibly
  colliding function (see `PathFilter.CollidingIdentitiesShareLists`).
- **Hash-based inputs are arbitrary sequences.** Their iteration order is
  unspecified. This covers pattern, method and media-type sets,
  `getHandlerMethods` and the controller bean map.
- **Not modelled at all:** logging, `init`/`destroy`,
  `ServletRequestPathUtils.parseAndCache`, and `Locale` effects of
  `toUpperCase`. Upper-casing is ASCII only.
- **Media types are opaque values.** `MediaType.parseMediaType` is not
  modelled.
- RequestMatching.GetHandlerInternal: `List.sort` is not modelled as an
  in-place sort. The model picks the earliest minimum, which is what a stable
  sort's head is under a total preorder (`BestIsEarliestMinimum`). A comparator
  that is not a total preorder has no specified result.
- **The root-package bean methods are not modelled.** This covers the root
  package's handler-mapping and filter beans and the three-argument filter
  constructor they call. Only their `getFiltersEnabled` and table assembly are
  modelled. The beans of `config/MvcAcceleratorAutoConfiguration`, with its
  class-level `mvc.accelerator.enabled` condition, are modelled.
- AutoConfiguration.Enabled: case is ignored for ASCII letters only, so a
  value that Java's `equalsIgnoreCase` matches to `false` through a non-ASCII
  letter (such as U+017F) is not modelled. Other beans of the configuration
  class, such as the demo controller, are not modelled.
- **A null interceptor or filter list passed to the beans is not modelled.**
  Spring never passes one. A null list inside a flat filter map is modelled.
- **Exceptions from the handler mapping's own `getHandler` are not
  modelled.** Its result is an input of the exchange.
- VirtualChain.VirtualFilterChain.DoFilter: a filter calls the chain at most
  once and does not catch the chain's exceptions. Filters that call the chain
  several times, or recover from its failures, are not modelled.
- VirtualChain.Invocation: exceptions thrown by `afterCompletion` are absorbed
  without a trace event, as the source only logs them.
- **Exception messages are reasons, not texts.** The "No adapter for handler"
  and "View rendering not supported" messages are `ServletReason` values.
- HighRps.BindSpec: a name bound twice keeps its last part; for a
  non-repeated name the contract states the exact part. A repeated name's
  earlier parts are only implied, through `BindKeys`.

## Findings

| source | as written | input that shows it | evidently intended | confidence | as-written member | corrected member |
|---|---|---|---|---|---|---|
| src/main/java/com/ethlo/mvc/MvcAcceleratorAutoConfiguration.java:92 | missing names are computed only when `selectedFilters.size() != filtersToKeep.size()` | allow-list `[A, B]`, flat filters two instances of class A, fail-if-missing on: 2 selected = 2 listed, so B's absence is not reported | report every allow-listed name that no filter matches, whatever the counts | not executed | AutoConfiguration.MissingNameMasked | AutoConfiguration.GetFiltersEnabledCheckedSpec |
