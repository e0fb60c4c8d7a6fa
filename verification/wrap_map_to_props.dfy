/**
 * src/connect/wrapMapToProps.js: the two ways a `mapStateToProps` or
 * `mapDispatchToProps` argument becomes a selector.
 *
 * A user mapping function is opaque. How a given call ends (the value it
 * returns or the value it throws) is the parameter `apply`, so the model
 * does not care what the function computes, only which function the proxy
 * calls, with which arguments, and what it does with the result. Every proxy
 * call returns the log of calls it made to user functions.
 */
module WrapMapToProps {
  import opened Wrappers
  import opened JsValues

  type Props = map<string, JsValue>

  // ---------------------------------------------------------------------------
  // getDependsOnOwnProps
  // ---------------------------------------------------------------------------

  /** `getDependsOnOwnProps(mapToProps)`: an explicit `dependsOnOwnProps`
      property decides when it is neither null nor undefined (coerced to a
      boolean); otherwise a function declaring exactly one parameter is taken
      not to read the component's own props. */
  function DependsOnOwnProps(f: FnInfo): (r: bool)
    ensures IsPresent(f.dependsOnOwnProps) ==> (r <==> Truthy(f.dependsOnOwnProps))
    ensures !IsPresent(f.dependsOnOwnProps) && f.length == 1 ==> !r
    ensures !IsPresent(f.dependsOnOwnProps) && (f.length == 0 || f.length >= 2) ==> r
  {
    if f.dependsOnOwnProps != Null && f.dependsOnOwnProps != Undefined then Truthy(f.dependsOnOwnProps)
    else f.length != 1
  }

  // ---------------------------------------------------------------------------
  // wrapMapToPropsConstant
  // ---------------------------------------------------------------------------

  /** The getter a constant selector is built from. `DispatchObject` is
      `dispatch => ({ dispatch })`, `BoundActionCreators(o)` is
      `dispatch => bindActionCreators(o, dispatch)`; `External(id)` stands for
      a getter defined outside this model (mapStateToProps.js). */
  datatype ConstantSource = DispatchObject | BoundActionCreators(creators: nat) | External(id: nat)

  /** `constantSelector`: holds the value computed once at initialisation;
      its `dependsOnOwnProps` is always false. */
  datatype ConstantSelector = ConstantSelector(constant: Props) {
    predicate DependsOnOwnProps() { false }
  }

  /** `bind` is redux's `bindActionCreators`; `external` evaluates getters
      defined outside this model. */
  function GetConstant(src: ConstantSource, dispatch: JsValue,
                       bind: (nat, JsValue) -> Props, external: (nat, JsValue) -> Props): (r: Props)
    ensures src.DispatchObject? ==> r.Keys == {"dispatch"} && r["dispatch"] == dispatch
    ensures src.BoundActionCreators? ==> r == bind(src.creators, dispatch)
    ensures src.External? ==> r == external(src.id, dispatch)
  {
    match src
    case DispatchObject => map["dispatch" := dispatch]
    case BoundActionCreators(o) => bind(o, dispatch)
    case External(id) => external(id, dispatch)
  }

  /** `initConstantSelector(dispatch, options)`: evaluates the getter once. */
  function InitConstantSelector(src: ConstantSource, dispatch: JsValue,
                                bind: (nat, JsValue) -> Props, external: (nat, JsValue) -> Props): (s: ConstantSelector)
    ensures s.constant == GetConstant(src, dispatch, bind, external)
    ensures !s.DependsOnOwnProps()
  {
    ConstantSelector(GetConstant(src, dispatch, bind, external))
  }

  /** `constantSelector(...)`: ignores its arguments. */
  function CallConstant(s: ConstantSelector, stateOrDispatch: JsValue, ownProps: JsValue): (r: Props)
    ensures r == s.constant
  {
    s.constant
  }

  /** Every call of a constant selector returns the value computed at
      initialisation, whatever the arguments. */
  lemma ConstantSelectorIgnoresArguments(src: ConstantSource, dispatch: JsValue,
                                         bind: (nat, JsValue) -> Props, external: (nat, JsValue) -> Props,
                                         a1: JsValue, o1: JsValue, a2: JsValue, o2: JsValue)
    ensures var s := InitConstantSelector(src, dispatch, bind, external);
            && CallConstant(s, a1, o1) == CallConstant(s, a2, o2)
            && CallConstant(s, a1, o1) == GetConstant(src, dispatch, bind, external)
  {
  }

  // ---------------------------------------------------------------------------
  // wrapMapToPropsFunc
  // ---------------------------------------------------------------------------

  /** What `proxy.mapToProps` currently is: `detectFactoryAndVerify`, or a
      plain user function. */
  datatype Target = DetectFactory | Direct(f: FnInfo)

  /** `mapToPropsProxy` with its two properties; `user` is the function that
      was wrapped. */
  datatype Proxy = Proxy(user: FnInfo, mapToProps: Target, dependsOnOwnProps: bool)

  /** One call to a user function; `ownProps == None` when the function was
      called with the state (or dispatch) alone. */
  datatype Call = Call(f: FnInfo, stateOrDispatch: JsValue, ownProps: Option<JsValue>)

  /** A proxy call: the proxy afterwards, how the call ended, and the calls it
      made to user functions. A throw leaves the proxy as it was when the
      throw happened. */
  datatype ProxyResult = ProxyResult(proxy: Proxy, props: Completion<JsValue>, calls: seq<Call>)

  /** A first result that makes `detectFactoryAndVerify` treat the user
      function as a factory: it returned a function. */
  predicate IsFactoryResult(o: Completion<JsValue>) {
    o.Returned? && o.value.Func?
  }

  /** The call the proxy makes to a plain function `f` under `flag`. */
  function CallFor(f: FnInfo, flag: bool, s: JsValue, ownProps: JsValue): (c: Call)
    ensures c.f == f && c.stateOrDispatch == s
    ensures c.ownProps.Some? <==> flag
    ensures flag ==> c.ownProps == Some(ownProps)
  {
    Call(f, s, if flag then Some(ownProps) else None)
  }

  /** `initProxySelector(dispatch, options)`: before the first call the
      flag is true and the target is `detectFactoryAndVerify`. */
  function InitProxySelector(user: FnInfo): (p: Proxy)
    ensures p.user == user && p.mapToProps == DetectFactory && p.dependsOnOwnProps
  {
    Proxy(user, DetectFactory, true)
  }

  /** `mapToPropsProxy(stateOrDispatch, ownProps)`. `apply` gives how a user
      function call ends: the value it returns, or the value it throws. */
  function ProxyCall(p: Proxy, apply: Call -> Completion<JsValue>, s: JsValue, ownProps: JsValue): (r: ProxyResult)
    ensures r.proxy.user == p.user && r.proxy.mapToProps.Direct?
    ensures 1 <= |r.calls| <= 2 && r.props == apply(r.calls[|r.calls| - 1])
    ensures p.mapToProps.Direct? ==> r.proxy == p && |r.calls| == 1
    ensures p.mapToProps.DetectFactory? ==>
      r.proxy.dependsOnOwnProps == DependsOnOwnProps(r.proxy.mapToProps.f)
  {
    match p.mapToProps
    case Direct(f) =>
      var c := CallFor(f, p.dependsOnOwnProps, s, ownProps);
      ProxyResult(p, apply(c), [c])
    case DetectFactory =>
      // detectFactoryAndVerify receives ownProps only when the flag is set
      DetectFactoryAndVerify(p, apply, s, if p.dependsOnOwnProps then ownProps else Undefined)
  }

  /** `detectFactoryAndVerify`: put the user function in place, re-infer the
      flag and call through the proxy; a function result is a factory's
      product and replaces `mapToProps` in turn before being called. Both
      replacements happen before the call that follows them, so a throw from
      either call leaves the proxy calling a plain function: detection is over
      whether or not the first call returned. */
  function DetectFactoryAndVerify(p: Proxy, apply: Call -> Completion<JsValue>, s: JsValue, ownProps: JsValue): (r: ProxyResult)
    ensures r.proxy.user == p.user && r.proxy.mapToProps.Direct?
    ensures r.proxy.dependsOnOwnProps == DependsOnOwnProps(r.proxy.mapToProps.f)
    ensures 1 <= |r.calls| <= 2 && r.props == apply(r.calls[|r.calls| - 1])
    ensures r.calls[0] == CallFor(p.user, DependsOnOwnProps(p.user), s, ownProps)
    ensures |r.calls| == 2 <==> IsFactoryResult(apply(r.calls[0]))
    ensures |r.calls| == 1 ==> r.proxy.mapToProps == Direct(p.user)
    ensures apply(r.calls[0]).Threw? ==>
      && r.proxy == p.(mapToProps := Direct(p.user), dependsOnOwnProps := DependsOnOwnProps(p.user))
      && r.props == apply(r.calls[0])
    ensures |r.calls| == 2 ==>
      && r.proxy.mapToProps == Direct(apply(r.calls[0]).value.f)
      && r.calls[1] == CallFor(apply(r.calls[0]).value.f, DependsOnOwnProps(apply(r.calls[0]).value.f), s, ownProps)
  {
    var p1 := p.(mapToProps := Direct(p.user), dependsOnOwnProps := DependsOnOwnProps(p.user));
    var c1 := CallFor(p.user, p1.dependsOnOwnProps, s, ownProps);
    var props := apply(c1);
    if IsFactoryResult(props) then
      var g := props.value.f;
      var p2 := p1.(mapToProps := Direct(g), dependsOnOwnProps := DependsOnOwnProps(g));
      var c2 := CallFor(g, p2.dependsOnOwnProps, s, ownProps);
      ProxyResult(p2, apply(c2), [c1, c2])
    else
      ProxyResult(p1, props, [c1])
  }

  /** The first call of a fresh proxy: the detection step always receives
      `ownProps`, the user function gets them iff its own policy says so, and
      a function result becomes the mapping function; any other result, or a
      throw, leaves the user function itself in place. */
  lemma FirstCallDetectsFactory(user: FnInfo, apply: Call -> Completion<JsValue>, s: JsValue, ownProps: JsValue)
    ensures var r := ProxyCall(InitProxySelector(user), apply, s, ownProps);
            var first := CallFor(user, DependsOnOwnProps(user), s, ownProps);
            && r.calls[0] == first
            && (!IsFactoryResult(apply(first)) ==>
                  && r.calls == [first] && r.props == apply(first)
                  && r.proxy == Proxy(user, Direct(user), DependsOnOwnProps(user)))
            && (IsFactoryResult(apply(first)) ==>
                  var g := apply(first).value.f;
                  && r.calls == [first, CallFor(g, DependsOnOwnProps(g), s, ownProps)]
                  && r.props == apply(r.calls[1])
                  && r.proxy == Proxy(user, Direct(g), DependsOnOwnProps(g)))
  {
  }

  /** Once the proxy calls a plain function it never changes again: one call
      per use, `ownProps` forwarded iff the flag is set, and a function result
      (or a throw) is passed on as it is. */
  lemma LaterCallsAreDirect(p: Proxy, apply: Call -> Completion<JsValue>, s: JsValue, ownProps: JsValue)
    requires p.mapToProps.Direct?
    ensures var r := ProxyCall(p, apply, s, ownProps);
            && r.proxy == p
            && r.calls == [Call(p.mapToProps.f, s, if p.dependsOnOwnProps then Some(ownProps) else None)]
            && r.props == apply(r.calls[0])
  {
  }

  /** A sequence of proxy calls with (state, ownProps) inputs; the outcome of
      each and the concatenated log of user calls. A throw ends only its own
      call: the selector that calls the proxy catches it. */
  function RunProxy(p: Proxy, apply: Call -> Completion<JsValue>, inputs: seq<(JsValue, JsValue)>)
    : (r: (Proxy, seq<Completion<JsValue>>, seq<Call>))
    ensures |r.1| == |inputs|
    decreases |inputs|
  {
    if |inputs| == 0 then (p, [], [])
    else
      var first := ProxyCall(p, apply, inputs[0].0, inputs[0].1);
      var rest := RunProxy(first.proxy, apply, inputs[1..]);
      (rest.0, [first.props] + rest.1, first.calls + rest.2)
  }

  /** Factory detection happens once: after the first call the proxy state is
      fixed and every later input costs exactly one direct call. */
  lemma {:induction false} DetectionHappensOnce(p: Proxy, apply: Call -> Completion<JsValue>, inputs: seq<(JsValue, JsValue)>)
    requires p.mapToProps.Direct?
    ensures var r := RunProxy(p, apply, inputs);
            && r.0 == p
            && |r.2| == |inputs|
            && forall i :: 0 <= i < |inputs| ==>
                 && r.2[i] == CallFor(p.mapToProps.f, p.dependsOnOwnProps, inputs[i].0, inputs[i].1)
                 && r.1[i] == apply(r.2[i])
    decreases |inputs|
  {
    if |inputs| > 0 {
      LaterCallsAreDirect(p, apply, inputs[0].0, inputs[0].1);
      DetectionHappensOnce(p, apply, inputs[1..]);
      var r := RunProxy(p, apply, inputs);
      var rest := RunProxy(p, apply, inputs[1..]);
      forall i | 0 <= i < |inputs|
        ensures r.2[i] == CallFor(p.mapToProps.f, p.dependsOnOwnProps, inputs[i].0, inputs[i].1)
        ensures r.1[i] == apply(r.2[i])
      {
        if i > 0 {
          assert r.2[i] == rest.2[i - 1];
          assert inputs[1..][i - 1] == inputs[i];
        }
      }
    }
  }

  /** From a fresh proxy: the whole run after the first input is a run of the
      proxy that the first call produced. */
  lemma FreshProxyRun(user: FnInfo, apply: Call -> Completion<JsValue>, inputs: seq<(JsValue, JsValue)>)
    requires |inputs| > 0
    ensures var first := ProxyCall(InitProxySelector(user), apply, inputs[0].0, inputs[0].1);
            var r := RunProxy(InitProxySelector(user), apply, inputs);
            && r.0 == first.proxy
            && |r.2| == |first.calls| + |inputs| - 1
            && r.1[0] == first.props
  {
    var first := ProxyCall(InitProxySelector(user), apply, inputs[0].0, inputs[0].1);
    DetectionHappensOnce(first.proxy, apply, inputs[1..]);
  }

  /** When the first call of a fresh proxy throws, detection never happens:
      from then on every call goes straight to the user function under its own
      policy, and a function it returns later is passed on as the props
      instead of being taken for a factory. */
  lemma {:induction false} ThrowingFirstCallSkipsDetection(user: FnInfo, apply: Call -> Completion<JsValue>,
                                                           inputs: seq<(JsValue, JsValue)>)
    requires |inputs| > 0
    requires apply(CallFor(user, DependsOnOwnProps(user), inputs[0].0, inputs[0].1)).Threw?
    ensures var r := RunProxy(InitProxySelector(user), apply, inputs);
            && r.0 == Proxy(user, Direct(user), DependsOnOwnProps(user))
            && |r.2| == |inputs|
            && forall i :: 0 <= i < |inputs| ==>
                 && r.2[i] == CallFor(user, DependsOnOwnProps(user), inputs[i].0, inputs[i].1)
                 && r.1[i] == apply(r.2[i])
  {
    var p := InitProxySelector(user);
    var first := ProxyCall(p, apply, inputs[0].0, inputs[0].1);
    assert first.calls == [CallFor(user, DependsOnOwnProps(user), inputs[0].0, inputs[0].1)];
    DetectionHappensOnce(first.proxy, apply, inputs[1..]);
    var r := RunProxy(p, apply, inputs);
    var rest := RunProxy(first.proxy, apply, inputs[1..]);
    assert r == (rest.0, [first.props] + rest.1, first.calls + rest.2);
    forall i | 0 <= i < |inputs|
      ensures r.2[i] == CallFor(user, DependsOnOwnProps(user), inputs[i].0, inputs[i].1)
      ensures r.1[i] == apply(r.2[i])
    {
      if i > 0 {
        assert r.2[i] == rest.2[i - 1];
        assert r.1[i] == rest.1[i - 1];
        assert inputs[1..][i - 1] == inputs[i];
      }
    }
  }

  // ---------------------------------------------------------------------------
  // Initialisers
  // ---------------------------------------------------------------------------

  /** What a matched `mapStateToProps`/`mapDispatchToProps` factory returns:
      `initProxySelector` of `wrapMapToPropsFunc(f, methodName)`, or
      `initConstantSelector` of `wrapMapToPropsConstant(getter)`. */
  datatype MapInit = ProxyInit(f: FnInfo, methodName: string) | ConstantInit(source: ConstantSource)
}
