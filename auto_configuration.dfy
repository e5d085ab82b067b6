/** The auto-configurations: the mode-gated handler-mapping and filter beans of
    `config/MvcAcceleratorAutoConfiguration`, and the allow-list with its
    fail-if-missing check from the older root-package configuration. */
module AutoConfiguration {
  import opened Common
  import opened Modes
  import opened OrderedMaps
  import opened FastEntries
  import RouteTable
  import FilterUtils
  import InterceptorUtils

  /** The settings the beans read, `MvcAcceleratorConfig`. */
  datatype Config = Config(
    fastPathMode: Mode,
    fastFilterChainMode: Mode,
    failIfFilterMissing: bool,
    includedFilters: seq<string>,
    includedInterceptors: seq<string>)

  /** The defaults: both modes ANNOTATED, fail on a missing filter, empty allow-lists. */
  const DefaultConfig: Config := Config(DefaultMode, DefaultMode, true, [], [])

  const FastPathModeProperty: string := "mvc.accelerator.fast-path.mode"
  const FastFilterChainModeProperty: string := "mvc.accelerator.fast-filter-chain.mode"

  /** The `havingValues` of both beans' `@ConditionalOnEnumProperty`. */
  const AcceptedModes: seq<Mode> := [ALL, ANNOTATED]

  /** `MvcAccelerator.class.getSimpleName()`. */
  const RegistrationName: string := "MvcAccelerator"

  /** `Ordered.HIGHEST_PRECEDENCE`, `Integer.MIN_VALUE`. */
  const HighestPrecedence: int := -0x8000_0000

  // ---------------------------------------------------------------------------
  // config/MvcAcceleratorAutoConfiguration

  /** The raw property values the conditions read; `None` is an unset property. */
  datatype Properties = Properties(
    enabled: Option<string>,
    fastPath: Option<string>,
    fastFilterChain: Option<string>)

  /** `@ConditionalOnProperty` without `havingValue`: the property is set and is
      not `false`, ignoring case. */
  predicate PropertySet(value: Option<string>) {
    value.Some? && ToUpper(value.value) != "FALSE"
  }

  /** The class-level `@ConditionalOnProperty("mvc.accelerator.enabled")`: every
      bean of the configuration class is registered only when it holds. */
  predicate Enabled(props: Properties) {
    PropertySet(props.enabled)
  }

  /** The `@ConditionalOnEnumProperty` of both beans, on one property. */
  predicate ModeAccepted(value: Option<string>) {
    Matches(true, AcceptedModes, value)
  }

  /** The `mvcAcceleratorHandlerMapping` bean: its route table, or `None` when the
      configuration class or the condition on the fast-path mode property is off. */
  function HandlerMappingBean(props: Properties, mappings: seq<RouteTable.Mapping>): Option<seq<FastEntry>> {
    if Enabled(props) && ModeAccepted(props.fastPath) then Some(RouteTable.BuildTable(mappings)) else None
  }

  /** The handler mapping exists exactly when `mvc.accelerator.enabled` is set and
      not `false`, and the fast-path mode property is ALL or ANNOTATED, in any case
      and with surrounding blanks; its table is every parsed entry, sorted ascending
      by order, nothing added or dropped, with equal orders kept in discovery order. */
  lemma HandlerMappingBeanSpec(props: Properties, mappings: seq<RouteTable.Mapping>)
    ensures HandlerMappingBean(props, mappings).Some? <==>
              && props.enabled.Some? && ToUpper(props.enabled.value) != "FALSE"
              && props.fastPath.Some? && ParseMode(props.fastPath.value) in {Some(ALL), Some(ANNOTATED)}
    ensures var table := HandlerMappingBean(props, mappings);
            table.Some? ==>
              && RouteTable.SortedByOrder(table.value)
              && multiset(table.value) == multiset(RouteTable.AllEntries(mappings))
              && forall k :: RouteTable.WithOrder(table.value, k) == RouteTable.WithOrder(RouteTable.AllEntries(mappings), k)
  {
    RouteTable.BuildTableSpec(mappings);
  }

  /** The `FilterRegistrationBean`, reduced to what it is given. */
  datatype Registration = Registration(
    name: string,
    order: int,
    handlerMapping: seq<FastEntry>,
    selectedFilters: FilterUtils.Grouped,
    selectedInterceptors: InterceptorUtils.Grouped,
    mode: Mode)

  /** Why the application context does not start. */
  datatype StartupError =
    | NoHandlerMappingBean
    | FilterPreparationFailed(message: string)

  /** The `mvcAcceleratorFilter` bean: `None` when the configuration class or the
      condition on the fast-filter-chain mode property is off; a startup failure
      when its required `MvcAcceleratorHandlerMapping` argument has no bean, or
      when filter preparation throws. */
  function FilterBean(config: Config, props: Properties, mappings: seq<RouteTable.Mapping>,
                      allFilters: seq<FilterUtils.Filter>, allInterceptors: seq<InterceptorUtils.Registered>): Option<Result<Registration, StartupError>>
  {
    if !Enabled(props) || !ModeAccepted(props.fastFilterChain) then None
    else
      match HandlerMappingBean(props, mappings)
      case None => Some(Failure(NoHandlerMappingBean))
      case Some(table) =>
        match FilterUtils.PrepareFiltersResult(config.includedFilters, allFilters)
        case Failure(message) => Some(Failure(FilterPreparationFailed(message)))
        case Success(filters) =>
          var interceptors := InterceptorUtils.PrepareInterceptorsResult(config.includedInterceptors, allInterceptors);
          Some(Success(Registration(RegistrationName, HighestPrecedence, table, filters, interceptors, config.fastFilterChainMode)))
  }

  /** The filter bean is attempted exactly when the configuration is enabled and the
      fast-filter-chain mode property is ALL or ANNOTATED; it is then built exactly
      when the handler mapping bean exists, and otherwise the context fails for the
      missing dependency. A built bean is named `MvcAccelerator`, ordered first,
      handed the handler mapping's table and exactly the prepared filter and
      interceptor selections, and given the fast-filter-chain mode. */
  lemma FilterBeanSpec(config: Config, props: Properties, mappings: seq<RouteTable.Mapping>,
                       allFilters: seq<FilterUtils.Filter>, allInterceptors: seq<InterceptorUtils.Registered>)
    ensures var bean := FilterBean(config, props, mappings, allFilters, allInterceptors);
            && (bean.Some? <==>
                  && props.enabled.Some? && ToUpper(props.enabled.value) != "FALSE"
                  && props.fastFilterChain.Some? && ParseMode(props.fastFilterChain.value) in {Some(ALL), Some(ANNOTATED)})
            && (bean.Some? ==>
                  && (bean.value.Success? <==> HandlerMappingBean(props, mappings).Some?)
                  && (bean.value.Failure? ==> bean.value.error == NoHandlerMappingBean))
            && (bean.Some? && bean.value.Success? ==>
                  && bean.value.value.name == RegistrationName
                  && bean.value.value.order == HighestPrecedence
                  && Some(bean.value.value.handlerMapping) == HandlerMappingBean(props, mappings)
                  && Success(bean.value.value.selectedFilters) == FilterUtils.PrepareFiltersResult(config.includedFilters, allFilters)
                  && bean.value.value.selectedInterceptors == InterceptorUtils.PrepareInterceptorsResult(config.includedInterceptors, allInterceptors)
                  && bean.value.value.mode == config.fastFilterChainMode)
  {
    FilterBeanCondition(config, props, mappings, allFilters, allInterceptors);
    if Enabled(props) && ModeAccepted(props.fastFilterChain) && ModeAccepted(props.fastPath) {
      FilterUtils.PrepareFiltersNeverFails(config.includedFilters, allFilters);
    }
  }

  /** The filter bean's presence depends on `mvc.accelerator.enabled` and the
      fast-filter-chain mode property; whether it can be built depends on the
      fast-path mode property, through the handler mapping it requires. */
  lemma FilterBeanCondition(config: Config, props: Properties, mappings: seq<RouteTable.Mapping>,
                            allFilters: seq<FilterUtils.Filter>, allInterceptors: seq<InterceptorUtils.Registered>)
    ensures var bean := FilterBean(config, props, mappings, allFilters, allInterceptors);
            && (bean.Some? <==> Enabled(props) && ModeAccepted(props.fastFilterChain))
            && (bean.Some? ==> (bean.value.Failure? && bean.value.error == NoHandlerMappingBean <==> !ModeAccepted(props.fastPath)))
  {
    if Enabled(props) && ModeAccepted(props.fastFilterChain) && ModeAccepted(props.fastPath) {
      FilterUtils.PrepareFiltersNeverFails(config.includedFilters, allFilters);
    }
  }

  /** With the configuration enabled and the filter chain accelerated but the fast
      path unset or NONE, the filter bean's required handler mapping has no bean,
      so the context does not start. */
  lemma FilterBeanNeedsFastPath(config: Config, props: Properties, mappings: seq<RouteTable.Mapping>,
                                allFilters: seq<FilterUtils.Filter>, allInterceptors: seq<InterceptorUtils.Registered>)
    requires props.enabled.Some? && ToUpper(props.enabled.value) != "FALSE"
    requires props.fastFilterChain.Some? && ParseMode(props.fastFilterChain.value) == Some(ALL)
    requires props.fastPath.None? || ParseMode(props.fastPath.value) == Some(NONE)
    ensures FilterBean(config, props, mappings, allFilters, allInterceptors) == Some(Failure(NoHandlerMappingBean))
  {
    assert !ModeAccepted(props.fastPath);
    assert HandlerMappingBean(props, mappings).None?;
  }

  /** Without `mvc.accelerator.enabled`, or with it set to `false` in any case,
      neither bean exists, whatever the modes. */
  lemma DisabledMeansNoBeans(config: Config, props: Properties, mappings: seq<RouteTable.Mapping>,
                             allFilters: seq<FilterUtils.Filter>, allInterceptors: seq<InterceptorUtils.Registered>)
    requires props.enabled.None? || props.enabled == Some("false") || props.enabled == Some("False") || props.enabled == Some("FALSE")
    ensures HandlerMappingBean(props, mappings).None?
    ensures FilterBean(config, props, mappings, allFilters, allInterceptors).None?
  {
    if props.enabled.Some? {
      FalseIsUnset(props.enabled.value);
    }
  }

  lemma FalseIsUnset(v: string)
    requires v == "false" || v == "False" || v == "FALSE"
    ensures !PropertySet(Some(v))
  {
    var u := ToUpper(v);
    assert u[0] == 'F' && u[1] == 'A' && u[2] == 'L' && u[3] == 'S' && u[4] == 'E';
    assert u == "FALSE";
  }

  /** The filter receives the fast-filter-chain mode, not the fast-path mode. */
  lemma FilterBeanIgnoresFastPathMode(config: Config, other: Mode, props: Properties, mappings: seq<RouteTable.Mapping>,
                                      allFilters: seq<FilterUtils.Filter>, allInterceptors: seq<InterceptorUtils.Registered>)
    ensures FilterBean(config.(fastPathMode := other), props, mappings, allFilters, allInterceptors)
            == FilterBean(config, props, mappings, allFilters, allInterceptors)
  {
  }

  // ---------------------------------------------------------------------------
  // Root MvcAcceleratorAutoConfiguration: getFiltersEnabled

  function ClassIn(names: seq<string>): FilterUtils.Filter -> bool {
    (f: FilterUtils.Filter) => f.className in names
  }

  /** The target class names of some filters. */
  function ClassNames(filters: seq<FilterUtils.Filter>): set<string> {
    set f | f in filters :: f.className
  }

  /** The allow-listed names that no selected filter has. */
  function MissingNames(filtersToKeep: seq<string>, selected: seq<FilterUtils.Filter>): set<string> {
    set n | n in filtersToKeep && n !in ClassNames(selected)
  }

  /** `getFiltersEnabled` as written. It reads the allow-list twice, as
      `included` from the settings and as the `filtersToKeep` argument; its only
      caller passes the same setting for both, so one list stands for both here.
      A failure carries the missing names of the `IllegalStateException`. */
  function GetFiltersEnabled(filtersToKeep: seq<string>, failIfFilterMissing: bool, flatFilters: seq<FilterUtils.Filter>): Result<seq<FilterUtils.Filter>, set<string>> {
    if KeepsAll(filtersToKeep) then Success(flatFilters)
    else
      var selected := Filtered(flatFilters, ClassIn(filtersToKeep));
      if |selected| != |filtersToKeep| then
        var missing := MissingNames(filtersToKeep, selected);
        if missing != {} && failIfFilterMissing then Failure(missing) else Success(selected)
      else Success(selected)
  }

  /** The selection keeps exactly the flat filters whose class is allow-listed, in
      flat order. */
  lemma SelectionSpec(filtersToKeep: seq<string>, flatFilters: seq<FilterUtils.Filter>)
    ensures forall f :: f in Filtered(flatFilters, ClassIn(filtersToKeep)) <==> f in flatFilters && f.className in filtersToKeep
    ensures Distinct(flatFilters) ==>
              forall i, j :: 0 <= i < j < |Filtered(flatFilters, ClassIn(filtersToKeep))| ==>
                Position(flatFilters, Filtered(flatFilters, ClassIn(filtersToKeep))[i]) < Position(flatFilters, Filtered(flatFilters, ClassIn(filtersToKeep))[j])
  {
    var keep := ClassIn(filtersToKeep);
    FilteredSpec(flatFilters, keep);
    forall f ensures keep(f) == (f.className in filtersToKeep) {
    }
  }

  /** What `getFiltersEnabled` returns: everything for `["*"]`; otherwise the
      selection, unless the selected count differs from the allow-list size, some
      allow-listed name is matched by no selected filter and failing is on. A
      failure names exactly the unmatched allow-listed names. */
  lemma GetFiltersEnabledSpec(filtersToKeep: seq<string>, failIfFilterMissing: bool, flatFilters: seq<FilterUtils.Filter>)
    ensures var r := GetFiltersEnabled(filtersToKeep, failIfFilterMissing, flatFilters);
            var selected := Filtered(flatFilters, ClassIn(filtersToKeep));
            && (KeepsAll(filtersToKeep) ==> r == Success(flatFilters))
            && (!KeepsAll(filtersToKeep) && r.Success? ==> r.value == selected)
            && (r.Failure? <==>
                  && !KeepsAll(filtersToKeep)
                  && failIfFilterMissing
                  && |selected| != |filtersToKeep|
                  && exists n :: n in filtersToKeep && forall f :: f in flatFilters ==> f.className != n)
            && (r.Failure? ==> forall n :: n in r.error <==> n in filtersToKeep && forall f :: f in flatFilters ==> f.className != n)
  {
    if !KeepsAll(filtersToKeep) {
      MissingAreUnmatched(filtersToKeep, flatFilters);
    }
  }

  /** A name is missing from the selection exactly when no flat filter has it. */
  lemma MissingAreUnmatched(filtersToKeep: seq<string>, flatFilters: seq<FilterUtils.Filter>)
    ensures forall n :: n in MissingNames(filtersToKeep, Filtered(flatFilters, ClassIn(filtersToKeep))) <==>
              n in filtersToKeep && forall f :: f in flatFilters ==> f.className != n
  {
    var selected := Filtered(flatFilters, ClassIn(filtersToKeep));
    SelectionSpec(filtersToKeep, flatFilters);
    forall n | n in filtersToKeep
      ensures n !in ClassNames(selected) <==> forall f :: f in flatFilters ==> f.className != n
    {
      if n in ClassNames(selected) {
        var f :| f in selected && f.className == n;
        assert f in flatFilters;
      }
      if exists f :: f in flatFilters && f.className == n {
        var f :| f in flatFilters && f.className == n;
        assert f in selected;
      }
    }
  }

  /** As written, the count comparison lets a missing name through: with the
      allow-list `[A, B]` and two filters of class `A`, the two selected filters
      match the list's size, so the absence of any `B` filter raises no error. */
  lemma MissingNameMasked()
    ensures var flat := [FilterUtils.PlainFilter(1, "A"), FilterUtils.PlainFilter(2, "A")];
            && (forall f :: f in flat ==> f.className != "B")
            && GetFiltersEnabled(["A", "B"], true, flat) == Success(flat)
  {
    var flat := [FilterUtils.PlainFilter(1, "A"), FilterUtils.PlainFilter(2, "A")];
    var keep := ClassIn(["A", "B"]);
    assert "A" != "*" && ["A", "B"] != ["*"];
    assert Filtered(flat, keep) == Filtered([flat[0]], keep) + [flat[1]] by {
      assert flat[..1] == [flat[0]];
    }
    assert Filtered([flat[0]], keep) == [flat[0]] by {
      assert [flat[0]][..0] == [];
    }
    assert Filtered(flat, keep) == flat;
  }

  /** `getFiltersEnabled` as evidently intended: the missing names are computed
      whatever the selected count. */
  function GetFiltersEnabledChecked(filtersToKeep: seq<string>, failIfFilterMissing: bool, flatFilters: seq<FilterUtils.Filter>): Result<seq<FilterUtils.Filter>, set<string>> {
    if KeepsAll(filtersToKeep) then Success(flatFilters)
    else
      var selected := Filtered(flatFilters, ClassIn(filtersToKeep));
      var missing := MissingNames(filtersToKeep, selected);
      if missing != {} && failIfFilterMissing then Failure(missing) else Success(selected)
  }

  /** With failing on, the corrected check fails exactly when some allow-listed
      name (other than the lone `"*"`) is matched by no filter, and names exactly
      those; otherwise it returns the selection. */
  lemma GetFiltersEnabledCheckedSpec(filtersToKeep: seq<string>, failIfFilterMissing: bool, flatFilters: seq<FilterUtils.Filter>)
    ensures var r := GetFiltersEnabledChecked(filtersToKeep, failIfFilterMissing, flatFilters);
            && (KeepsAll(filtersToKeep) ==> r == Success(flatFilters))
            && (!KeepsAll(filtersToKeep) && r.Success? ==> r.value == Filtered(flatFilters, ClassIn(filtersToKeep)))
            && (r.Failure? <==>
                  && !KeepsAll(filtersToKeep)
                  && failIfFilterMissing
                  && exists n :: n in filtersToKeep && forall f :: f in flatFilters ==> f.className != n)
            && (r.Failure? ==> forall n :: n in r.error <==> n in filtersToKeep && forall f :: f in flatFilters ==> f.className != n)
  {
    if !KeepsAll(filtersToKeep) {
      MissingAreUnmatched(filtersToKeep, flatFilters);
    }
  }
}
