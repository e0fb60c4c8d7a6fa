/**
 * src/connect/mergeProps.js: combining state, dispatch and own props into
 * the props of the wrapped component.
 *
 * A merged-props value the memoising proxy caches is a reference; it is the
 * type parameter `M`, compared with `==` for identity. The user `mergeProps`
 * function is the parameter `merge`, which gives how each call ends (the
 * merged props it returns or the value it throws), and `areMergedPropsEqual`
 * is `eq`.
 */
module MergeProps {
  import opened Wrappers
  import opened JsValues

  type Props = map<string, JsValue>

  /** `defaultMergeProps`: `{ ...ownProps, ...stateProps, ...dispatchProps }`. */
  function DefaultMergeProps(stateProps: Props, dispatchProps: Props, ownProps: Props): (r: Props)
    ensures r.Keys == ownProps.Keys + stateProps.Keys + dispatchProps.Keys
    ensures forall k :: k in dispatchProps ==> r[k] == dispatchProps[k]
    ensures forall k :: k in stateProps && k !in dispatchProps ==> r[k] == stateProps[k]
    ensures forall k :: k in ownProps && k !in stateProps && k !in dispatchProps ==> r[k] == ownProps[k]
  {
    ownProps + stateProps + dispatchProps
  }

  /** The merge result is determined key by key by the first of dispatch,
      state, own props that has the key. */
  function Precedence(stateProps: Props, dispatchProps: Props, ownProps: Props, k: string): Option<JsValue> {
    if k in dispatchProps then Some(dispatchProps[k])
    else if k in stateProps then Some(stateProps[k])
    else if k in ownProps then Some(ownProps[k])
    else None
  }

  lemma DefaultMergePropsIsPrecedence(stateProps: Props, dispatchProps: Props, ownProps: Props, k: string)
    ensures var r := DefaultMergeProps(stateProps, dispatchProps, ownProps);
            && (k in r <==> Precedence(stateProps, dispatchProps, ownProps, k).Some?)
            && (k in r ==> Precedence(stateProps, dispatchProps, ownProps, k) == Some(r[k]))
  {
  }

  // ---------------------------------------------------------------------------
  // wrapMergePropsFunc
  // ---------------------------------------------------------------------------

  /** `mergePropsProxy` with its closure: `cache == None` until the first run
      (`hasRunOnce` is `cache.Some?`). */
  datatype MergeProxy<!M> = MergeProxy(pure: bool, eq: (M, M) -> bool, cache: Option<M>) {
    predicate HasRunOnce() { cache.Some? }
  }

  /** One call of the user `mergeProps`. */
  datatype MergeCall<S, D, O> = MergeCall(stateProps: S, dispatchProps: D, ownProps: O)

  /** A proxy call: the proxy afterwards, how the call ended, and the one
      call it made to the user function. */
  datatype MergeResult<S, D, O, !M> = MergeResult(proxy: MergeProxy<M>, merged: Completion<M>, call: MergeCall<S, D, O>)

  /** `initMergePropsProxy(dispatch, { pure, areMergedPropsEqual })`. */
  function InitMergePropsProxy<M>(pure: bool, eq: (M, M) -> bool): (p: MergeProxy<M>)
    ensures p.pure == pure && p.eq == eq && !p.HasRunOnce()
  {
    MergeProxy(pure, eq, None)
  }

  /** `mergePropsProxy(stateProps, dispatchProps, ownProps)`. `merge` gives
      how a call of the user `mergeProps` ends. */
  function MergePropsProxy<S, D, O, M>(p: MergeProxy<M>, merge: MergeCall<S, D, O> -> Completion<M>,
                                       stateProps: S, dispatchProps: D, ownProps: O): (r: MergeResult<S, D, O, M>)
    // the user function runs on every call, with the proxy's arguments
    ensures r.call == MergeCall(stateProps, dispatchProps, ownProps)
    ensures r.proxy.pure == p.pure && r.proxy.eq == p.eq
    // a throw propagates before `hasRunOnce` or the cache is touched
    ensures merge(r.call).Threw? ==> r.proxy == p && r.merged == merge(r.call)
    // what is returned is what is cached
    ensures merge(r.call).Returned? ==> r.merged.Returned? && r.proxy.cache == Some(r.merged.value)
    // the first call returns the fresh result unconditionally
    ensures !p.HasRunOnce() ==> r.merged == merge(r.call)
    // later: the old reference survives iff pure and equal
    ensures p.HasRunOnce() && merge(r.call).Returned? && p.pure && p.eq(merge(r.call).value, p.cache.value) ==>
      r.merged == Returned(p.cache.value)
    ensures p.HasRunOnce() && merge(r.call).Returned? && !(p.pure && p.eq(merge(r.call).value, p.cache.value)) ==>
      r.merged == merge(r.call)
  {
    var call := MergeCall(stateProps, dispatchProps, ownProps);
    var next := merge(call);
    match next
    case Threw(_) => MergeResult(p, next, call)
    case Returned(v) =>
      match p.cache
      case None => MergeResult(p.(cache := Some(v)), next, call)
      case Some(cached) =>
        var kept := if !p.pure || !p.eq(v, cached) then v else cached;
        MergeResult(p.(cache := Some(kept)), Returned(kept), call)
  }

  /** A run of the proxy over several inputs: the outcomes and the log of
      user calls. A throw ends only its own call. */
  function RunMerge<S, D, O, M>(p: MergeProxy<M>, merge: MergeCall<S, D, O> -> Completion<M>,
                                inputs: seq<MergeCall<S, D, O>>): (r: (MergeProxy<M>, seq<Completion<M>>, seq<MergeCall<S, D, O>>))
    ensures |r.1| == |inputs|
    decreases |inputs|
  {
    if |inputs| == 0 then (p, [], [])
    else
      var step := MergePropsProxy(p, merge, inputs[0].stateProps, inputs[0].dispatchProps, inputs[0].ownProps);
      var rest := RunMerge(step.proxy, merge, inputs[1..]);
      (rest.0, [step.merged] + rest.1, [step.call] + rest.2)
  }

  /** Over any run: `mergeProps` is called once per input with that input,
      and every outcome is the fresh one or, under `pure`, a returned value
      the comparison judged equal to the fresh result. */
  lemma {:induction false} MergeRunCallsEveryTime<S, D, O, M>(p: MergeProxy<M>, merge: MergeCall<S, D, O> -> Completion<M>,
                                                              inputs: seq<MergeCall<S, D, O>>)
    ensures var r := RunMerge(p, merge, inputs);
            && r.2 == inputs
            && forall i :: 0 <= i < |inputs| ==>
                 || r.1[i] == merge(inputs[i])
                 || (&& p.pure && merge(inputs[i]).Returned? && r.1[i].Returned?
                     && p.eq(merge(inputs[i]).value, r.1[i].value))
    decreases |inputs|
  {
    if |inputs| > 0 {
      var step := MergePropsProxy(p, merge, inputs[0].stateProps, inputs[0].dispatchProps, inputs[0].ownProps);
      MergeRunCallsEveryTime(step.proxy, merge, inputs[1..]);
      var r := RunMerge(p, merge, inputs);
      var rest := RunMerge(step.proxy, merge, inputs[1..]);
      assert inputs == [inputs[0]] + inputs[1..];
      forall i | 0 <= i < |inputs|
        ensures || r.1[i] == merge(inputs[i])
                || (&& p.pure && merge(inputs[i]).Returned? && r.1[i].Returned?
                    && p.eq(merge(inputs[i]).value, r.1[i].value))
      {
        if i > 0 {
          assert r.1[i] == rest.1[i - 1];
          assert inputs[1..][i - 1] == inputs[i];
        }
      }
    }
  }

  /** Without `pure` the proxy never memoises: every outcome is the fresh one. */
  lemma {:induction false} ImpureNeverMemoises<S, D, O, M>(p: MergeProxy<M>, merge: MergeCall<S, D, O> -> Completion<M>,
                                                           inputs: seq<MergeCall<S, D, O>>)
    requires !p.pure
    ensures var r := RunMerge(p, merge, inputs);
            forall i :: 0 <= i < |inputs| ==> r.1[i] == merge(inputs[i])
  {
    MergeRunCallsEveryTime(p, merge, inputs);
  }

  /** Calls that throw before any call has returned do not count as the first
      run: the proxy stays fresh, so the first call that returns is taken as
      it is, without a comparison. */
  lemma {:induction false} ThrowsBeforeFirstRunAreNotCached<S, D, O, M>(p: MergeProxy<M>, merge: MergeCall<S, D, O> -> Completion<M>,
                                                                        inputs: seq<MergeCall<S, D, O>>)
    requires !p.HasRunOnce()
    ensures var r := RunMerge(p, merge, inputs);
            && ((forall j :: 0 <= j < |inputs| ==> merge(inputs[j]).Threw?) ==> r.0 == p)
            && forall i :: 0 <= i < |inputs| && (forall j :: 0 <= j < i ==> merge(inputs[j]).Threw?) ==>
                 r.1[i] == merge(inputs[i])
    decreases |inputs|
  {
    if |inputs| > 0 {
      var step := MergePropsProxy(p, merge, inputs[0].stateProps, inputs[0].dispatchProps, inputs[0].ownProps);
      var r := RunMerge(p, merge, inputs);
      var rest := RunMerge(step.proxy, merge, inputs[1..]);
      assert step.call == inputs[0];
      if merge(inputs[0]).Threw? {
        ThrowsBeforeFirstRunAreNotCached(step.proxy, merge, inputs[1..]);
        forall i | 0 < i < |inputs| && (forall j :: 0 <= j < i ==> merge(inputs[j]).Threw?)
          ensures r.1[i] == merge(inputs[i])
        {
          assert r.1[i] == rest.1[i - 1];
          assert inputs[1..][i - 1] == inputs[i];
          forall j | 0 <= j < i - 1 ensures merge(inputs[1..][j]).Threw? {
            assert inputs[1..][j] == inputs[j + 1];
          }
        }
        if forall j :: 0 <= j < |inputs| ==> merge(inputs[j]).Threw? {
          forall j | 0 <= j < |inputs| - 1 ensures merge(inputs[1..][j]).Threw? {
            assert inputs[1..][j] == inputs[j + 1];
          }
        }
      }
    }
  }

  // ---------------------------------------------------------------------------
  // Factories
  // ---------------------------------------------------------------------------

  /** What a matched `mergeProps` factory returns: `initMergePropsProxy` of
      `wrapMergePropsFunc(f)`, or the initializer yielding `defaultMergeProps`. */
  datatype MergeInit = WrapMergeProps(f: FnInfo) | DefaultMerge

  /** `whenMergePropsIsFunction`; `None` is `undefined`. */
  function WhenMergePropsIsFunction(mergeProps: JsValue): (r: Option<MergeInit>)
    ensures r.Some? <==> TypeOf(mergeProps) == "function"
    ensures r.Some? ==> r.value == WrapMergeProps(mergeProps.f)
  {
    if mergeProps.Func? then Some(WrapMergeProps(mergeProps.f)) else None
  }

  /** `whenMergePropsIsOmitted`. */
  function WhenMergePropsIsOmitted(mergeProps: JsValue): (r: Option<MergeInit>)
    ensures r.Some? <==> !Truthy(mergeProps)
    ensures r.Some? ==> r.value == DefaultMerge
  {
    if !Truthy(mergeProps) then Some(DefaultMerge) else None
  }

  /** The module's default export, in order. */
  function DefaultMergePropsFactories(): seq<JsValue -> Option<MergeInit>> {
    [WhenMergePropsIsFunction, WhenMergePropsIsOmitted]
  }

  /** At most one of the two factories matches, and a truthy value that is
      not a function matches neither. */
  lemma MergeFactoriesExclusive(v: JsValue)
    ensures !(WhenMergePropsIsFunction(v).Some? && WhenMergePropsIsOmitted(v).Some?)
    ensures Truthy(v) && !v.Func? ==> WhenMergePropsIsFunction(v).None? && WhenMergePropsIsOmitted(v).None?
  {
  }
}
