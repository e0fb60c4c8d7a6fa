/**
 * src/connect/connect.js: `match` over argument factories, and the options
 * record `connect` hands to `connectAdvanced`.
 *
 * The factories for `mapStateToProps` live in mapStateToProps.js, which is
 * not part of this model; `createConnect` takes them as a parameter, as the
 * source does. `connectAdvanced` and `selectorFactory` are not called here:
 * `Connect` returns the options record they would receive.
 */
module Connect {
  import opened Wrappers
  import opened JsValues
  import opened WrapMapToProps
  import opened MergeProps
  import opened MapDispatchToProps

  // ---------------------------------------------------------------------------
  // match
  // ---------------------------------------------------------------------------

  /** The initializer `match` returns: a factory's (truthy) result, or the
      fallback that throws when it is invoked. */
  datatype Init<I> = Found(init: I) | Invalid(typeName: string, name: string)

  /** Reference definition: try `factories[k - 1]` down to `factories[0]`. */
  function MatchFrom<I>(arg: JsValue, factories: seq<JsValue -> Option<I>>, name: string, k: nat): (r: Init<I>)
    requires k <= |factories|
    ensures r.Found? <==> exists i :: 0 <= i < k && factories[i](arg).Some?
    ensures r.Found? ==>
      exists i :: 0 <= i < k && factories[i](arg) == Some(r.init)
                  && forall j :: i < j < k ==> factories[j](arg).None?
    ensures r.Invalid? ==> r == Invalid(TypeOf(arg), name)
  {
    if k == 0 then Invalid(TypeOf(arg), name)
    else
      match factories[k - 1](arg)
      case Some(init) => Found(init)
      case None => MatchFrom(arg, factories, name, k - 1)
  }

  /** `match(arg, factories, name)`. */
  method Match<I>(arg: JsValue, factories: seq<JsValue -> Option<I>>, name: string) returns (r: Init<I>)
    ensures r == MatchFrom(arg, factories, name, |factories|)
    ensures r.Found? <==> exists i :: 0 <= i < |factories| && factories[i](arg).Some?
    ensures r.Found? ==>
      exists i :: 0 <= i < |factories| && factories[i](arg) == Some(r.init)
                  && forall j :: i < j < |factories| ==> factories[j](arg).None?
    ensures r.Invalid? ==> r == Invalid(TypeOf(arg), name)
  {
    var i := |factories|;
    while i > 0
      invariant 0 <= i <= |factories|
      invariant forall j :: i <= j < |factories| ==> factories[j](arg).None?
      invariant MatchFrom(arg, factories, name, i) == MatchFrom(arg, factories, name, |factories|)
    {
      i := i - 1;
      var result := factories[i](arg);
      if result.Some? {
        return Found(result.value);
      }
    }
    return Invalid(TypeOf(arg), name);
  }

  /** The text of the error the fallback initializer throws. */
  function InvalidMessage(typeName: string, name: string, wrappedComponentName: string): string {
    "Invalid value of type " + typeName + " for " + name
      + " argument when connecting component " + wrappedComponentName + "."
  }

  /** Invoking a matched initializer with `options.wrappedComponentName`; the
      fallback throws only now, not when `connect` is called. */
  function Initialize<I>(m: Init<I>, wrappedComponentName: string): (r: Result<I>)
    ensures r.Ok? <==> m.Found?
    ensures r.Ok? ==> r.value == m.init
    ensures r.Err? ==> r.message == InvalidMessage(m.typeName, m.name, wrappedComponentName)
  {
    match m
    case Found(init) => Ok(init)
    case Invalid(t, n) => Err(InvalidMessage(t, n, wrappedComponentName))
  }

  /** The error names the argument's type and the argument. */
  lemma InvalidMessageNamesTypeAndArgument(typeName: string, name: string, wrappedComponentName: string)
    ensures var msg := InvalidMessage(typeName, name, wrappedComponentName);
            var head := "Invalid value of type " + typeName + " for " + name;
            && |head| <= |msg| && msg[..|head|] == head
            && msg[|msg| - |wrappedComponentName| - 1..] == wrappedComponentName + "."
  {
    var msg := InvalidMessage(typeName, name, wrappedComponentName);
    var head := "Invalid value of type " + typeName + " for " + name;
    var tail := " argument when connecting component " + wrappedComponentName + ".";
    assert msg == head + tail;
    assert msg[..|head|] == head;
    assert msg == (head + " argument when connecting component ") + (wrappedComponentName + ".");
  }

  /** With the default `mapDispatchToProps` factories, `match` picks by type:
      a function is proxied, a falsy value gives `{ dispatch }`, an object is
      bound, and anything else falls through to the throwing initializer. */
  lemma MatchDefaultMapDispatchToProps(arg: JsValue)
    ensures var m := MatchFrom(arg, DefaultMapDispatchToPropsFactories(), "mapDispatchToProps", 3);
            && (arg.Func? ==> m == Found(ProxyInit(arg.f, "mapDispatchToProps")))
            && (!Truthy(arg) ==> m == Found(ConstantInit(DispatchObject)))
            && (arg.Obj? ==> m == Found(ConstantInit(BoundActionCreators(arg.ref))))
            && (Truthy(arg) && !arg.Func? && !arg.Obj? ==> m == Invalid(TypeOf(arg), "mapDispatchToProps"))
  {
    var fs := DefaultMapDispatchToPropsFactories();
    var name := "mapDispatchToProps";
    assert fs[0] == WhenMapDispatchToPropsIsFunction;
    assert fs[1] == WhenMapDispatchToPropsIsMissing;
    assert fs[2] == WhenMapDispatchToPropsIsObject;
    assert MatchFrom(arg, fs, name, 0) == Invalid(TypeOf(arg), name);
    assert MatchFrom(arg, fs, name, 1) == if arg.Func? then Found(ProxyInit(arg.f, name)) else MatchFrom(arg, fs, name, 0);
    assert MatchFrom(arg, fs, name, 2) == if !Truthy(arg) then Found(ConstantInit(DispatchObject)) else MatchFrom(arg, fs, name, 1);
    assert MatchFrom(arg, fs, name, 3) == if arg.Obj? then Found(ConstantInit(BoundActionCreators(arg.ref))) else MatchFrom(arg, fs, name, 2);
  }

  /** With the default `mergeProps` factories: a function is wrapped, a falsy
      value means `defaultMergeProps`, anything else throws when invoked. */
  lemma MatchDefaultMergeProps(arg: JsValue)
    ensures var m := MatchFrom(arg, DefaultMergePropsFactories(), "mergeProps", 2);
            && (arg.Func? ==> m == Found(WrapMergeProps(arg.f)))
            && (!Truthy(arg) ==> m == Found(DefaultMerge))
            && (Truthy(arg) && !arg.Func? ==> m == Invalid(TypeOf(arg), "mergeProps"))
  {
    var fs := DefaultMergePropsFactories();
    var name := "mergeProps";
    assert fs[0] == WhenMergePropsIsFunction;
    assert fs[1] == WhenMergePropsIsOmitted;
    assert MatchFrom(arg, fs, name, 0) == Invalid(TypeOf(arg), name);
    assert MatchFrom(arg, fs, name, 1) == if arg.Func? then Found(WrapMergeProps(arg.f)) else MatchFrom(arg, fs, name, 0);
    assert MatchFrom(arg, fs, name, 2) == if !Truthy(arg) then Found(DefaultMerge) else MatchFrom(arg, fs, name, 1);
  }

  // ---------------------------------------------------------------------------
  // createConnect / connect
  // ---------------------------------------------------------------------------

  /** Values in the options record. `Given` is a value taken from the
      caller; the others are the functions and initializers connect builds. */
  datatype OptionValue =
    | Given(v: JsValue)
    | StrictEqual
    | ShallowEqual
    | ConnectDisplayName
    | MapStateInit(ms: Init<MapInit>)
    | MapDispatchInit(md: Init<MapInit>)
    | MergePropsInit(mp: Init<MergeInit>)

  /** The keys `connect` destructures out of its fourth argument. */
  function ComparisonKeys(): set<string> {
    {"pure", "areStatesEqual", "areOwnPropsEqual", "areStatePropsEqual", "areMergedPropsEqual"}
  }

  /** The keys of the record connect builds before spreading the extras. */
  function BuiltKeys(): set<string> {
    ComparisonKeys() + {"methodName", "getDisplayName", "shouldHandleStateChanges",
                        "initMapStateToProps", "initMapDispatchToProps", "initMergeProps"}
  }

  /** A destructuring default: it applies when the property is absent or `undefined`. */
  function OrDefault(options: map<string, JsValue>, key: string, default: OptionValue): (r: OptionValue)
    ensures key in options && !options[key].Undefined? ==> r == Given(options[key])
    ensures key !in options || options[key].Undefined? ==> r == default
  {
    if key in options && options[key] != Undefined then Given(options[key]) else default
  }

  /** `...extraOptions`: every caller key except the five destructured ones. */
  function ExtraOptions(options: map<string, JsValue>): (r: map<string, JsValue>)
    ensures r.Keys == options.Keys - ComparisonKeys()
    ensures forall k :: k in r ==> r[k] == options[k]
  {
    map k | k in options && k !in ComparisonKeys() :: options[k]
  }

  /** `getDisplayName: name => \`Connect(${name})\``: the display name wraps
      the component's name and gives it back. */
  function GetDisplayName(name: string): (d: string)
    ensures |d| == |name| + 9 && d[..8] == "Connect(" && d[|d| - 1] == ')'
    ensures d[8..|d| - 1] == name
  {
    var d := "Connect(" + name + ")";
    assert d[8..|d| - 1] == name;
    d
  }

  /** The record connect writes before spreading the extras. */
  function Built(mapStateToProps: JsValue, ms: Init<MapInit>, md: Init<MapInit>, mp: Init<MergeInit>,
                 options: map<string, JsValue>): (r: map<string, OptionValue>)
    ensures r.Keys == BuiltKeys()
    ensures r["methodName"] == Given(Str("connect"))
    ensures r["getDisplayName"] == ConnectDisplayName
    ensures r["shouldHandleStateChanges"] == Given(Bool(Truthy(mapStateToProps)))
    ensures r["initMapStateToProps"] == MapStateInit(ms)
    ensures r["initMapDispatchToProps"] == MapDispatchInit(md)
    ensures r["initMergeProps"] == MergePropsInit(mp)
    ensures r["pure"] == OrDefault(options, "pure", Given(Bool(true)))
    ensures r["areStatesEqual"] == OrDefault(options, "areStatesEqual", StrictEqual)
    ensures r["areOwnPropsEqual"] == OrDefault(options, "areOwnPropsEqual", ShallowEqual)
    ensures r["areStatePropsEqual"] == OrDefault(options, "areStatePropsEqual", ShallowEqual)
    ensures r["areMergedPropsEqual"] == OrDefault(options, "areMergedPropsEqual", ShallowEqual)
  {
    map[
      "methodName" := Given(Str("connect")),
      "getDisplayName" := ConnectDisplayName,
      "shouldHandleStateChanges" := Given(Bool(Truthy(mapStateToProps))),
      "initMapStateToProps" := MapStateInit(ms),
      "initMapDispatchToProps" := MapDispatchInit(md),
      "initMergeProps" := MergePropsInit(mp),
      "pure" := OrDefault(options, "pure", Given(Bool(true))),
      "areStatesEqual" := OrDefault(options, "areStatesEqual", StrictEqual),
      "areOwnPropsEqual" := OrDefault(options, "areOwnPropsEqual", ShallowEqual),
      "areStatePropsEqual" := OrDefault(options, "areStatePropsEqual", ShallowEqual),
      "areMergedPropsEqual" := OrDefault(options, "areMergedPropsEqual", ShallowEqual)]
  }

  /** `{ ...built, ...extraOptions }`: the extras are spread last and so
      override what connect built. */
  function SpreadExtras(built: map<string, OptionValue>, options: map<string, JsValue>): (r: map<string, OptionValue>)
    ensures r.Keys == built.Keys + ExtraOptions(options).Keys
    ensures forall k :: k in ExtraOptions(options) ==> r[k] == Given(options[k])
    ensures forall k :: k in built && k !in options ==> r[k] == built[k]
    ensures forall k :: k in built && k in ComparisonKeys() ==> r[k] == built[k]
  {
    var extra := ExtraOptions(options);
    built + map k | k in extra :: Given(extra[k])
  }

  /** The record passed to `connectAdvanced`, built from the matched
      initializers and the caller's options. */
  function BuildOptions(mapStateToProps: JsValue, ms: Init<MapInit>, md: Init<MapInit>, mp: Init<MergeInit>,
                        options: map<string, JsValue>): (r: map<string, OptionValue>)
    ensures r.Keys == BuiltKeys() + ExtraOptions(options).Keys
    ensures forall k :: k in ExtraOptions(options) ==> r[k] == Given(options[k])
    ensures "methodName" !in options ==> r["methodName"] == Given(Str("connect"))
    ensures "getDisplayName" !in options ==> r["getDisplayName"] == ConnectDisplayName
    ensures "shouldHandleStateChanges" !in options ==>
      r["shouldHandleStateChanges"] == Given(Bool(Truthy(mapStateToProps)))
    ensures "initMapStateToProps" !in options ==> r["initMapStateToProps"] == MapStateInit(ms)
    ensures "initMapDispatchToProps" !in options ==> r["initMapDispatchToProps"] == MapDispatchInit(md)
    ensures "initMergeProps" !in options ==> r["initMergeProps"] == MergePropsInit(mp)
    ensures r["pure"] == OrDefault(options, "pure", Given(Bool(true)))
    ensures r["areStatesEqual"] == OrDefault(options, "areStatesEqual", StrictEqual)
    ensures r["areOwnPropsEqual"] == OrDefault(options, "areOwnPropsEqual", ShallowEqual)
    ensures r["areStatePropsEqual"] == OrDefault(options, "areStatePropsEqual", ShallowEqual)
    ensures r["areMergedPropsEqual"] == OrDefault(options, "areMergedPropsEqual", ShallowEqual)
  {
    var built := Built(mapStateToProps, ms, md, mp, options);
    assert "pure" in ComparisonKeys() && "areStatesEqual" in ComparisonKeys();
    assert "areOwnPropsEqual" in ComparisonKeys() && "areStatePropsEqual" in ComparisonKeys();
    assert "areMergedPropsEqual" in ComparisonKeys();
    SpreadExtras(built, options)
  }

  /** The factory lists `createConnect` is configured with. */
  datatype Factories = Factories(
    mapStateToProps: seq<JsValue -> Option<MapInit>>,
    mapDispatchToProps: seq<JsValue -> Option<MapInit>>,
    mergeProps: seq<JsValue -> Option<MergeInit>>)

  /** `createConnect()` with its defaults; the `mapStateToProps` list comes
      from outside this model. */
  function DefaultFactories(mapStateFactories: seq<JsValue -> Option<MapInit>>): (r: Factories)
    ensures r.mapStateToProps == mapStateFactories
    ensures r.mapDispatchToProps == DefaultMapDispatchToPropsFactories()
    ensures r.mergeProps == DefaultMergePropsFactories()
  {
    Factories(mapStateFactories, DefaultMapDispatchToPropsFactories(), DefaultMergePropsFactories())
  }

  /** `connect(mapStateToProps, mapDispatchToProps, mergeProps, options)`:
      matches the three arguments and returns the options record. An omitted
      fourth argument is `None`. */
  method Connect(fs: Factories, mapStateToProps: JsValue, mapDispatchToProps: JsValue, mergeProps: JsValue,
                 options: Option<map<string, JsValue>>) returns (r: map<string, OptionValue>)
    ensures r == BuildOptions(mapStateToProps,
                              MatchFrom(mapStateToProps, fs.mapStateToProps, "mapStateToProps", |fs.mapStateToProps|),
                              MatchFrom(mapDispatchToProps, fs.mapDispatchToProps, "mapDispatchToProps", |fs.mapDispatchToProps|),
                              MatchFrom(mergeProps, fs.mergeProps, "mergeProps", |fs.mergeProps|),
                              options.GetOr(map[]))
    ensures options.None? ==>
      && r["pure"] == Given(Bool(true))
      && r["areStatesEqual"] == StrictEqual
      && r["shouldHandleStateChanges"] == Given(Bool(Truthy(mapStateToProps)))
  {
    var ms := Match(mapStateToProps, fs.mapStateToProps, "mapStateToProps");
    var md := Match(mapDispatchToProps, fs.mapDispatchToProps, "mapDispatchToProps");
    var mp := Match(mergeProps, fs.mergeProps, "mergeProps");
    r := BuildOptions(mapStateToProps, ms, md, mp, options.GetOr(map[]));
  }
}
