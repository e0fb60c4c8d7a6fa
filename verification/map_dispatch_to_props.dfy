/**
 * src/connect/mapDispatchToProps.js: the three type-based factories for the
 * `mapDispatchToProps` argument of `connect`. A factory that does not apply
 * returns `undefined` (`None`).
 */
module MapDispatchToProps {
  import opened Wrappers
  import opened JsValues
  import opened WrapMapToProps

  /** `whenMapDispatchToPropsIsFunction`. */
  function WhenMapDispatchToPropsIsFunction(arg: JsValue): (r: Option<MapInit>)
    ensures r.Some? <==> TypeOf(arg) == "function"
    ensures r.Some? ==> r.value == ProxyInit(arg.f, "mapDispatchToProps")
  {
    if arg.Func? then Some(ProxyInit(arg.f, "mapDispatchToProps")) else None
  }

  /** `whenMapDispatchToPropsIsMissing`: a constant `{ dispatch }`. */
  function WhenMapDispatchToPropsIsMissing(arg: JsValue): (r: Option<MapInit>)
    ensures r.Some? <==> !Truthy(arg)
    ensures r.Some? ==> r.value == ConstantInit(DispatchObject)
  {
    if !Truthy(arg) then Some(ConstantInit(DispatchObject)) else None
  }

  /** `whenMapDispatchToPropsIsObject`: a constant from `bindActionCreators`. */
  function WhenMapDispatchToPropsIsObject(arg: JsValue): (r: Option<MapInit>)
    ensures r.Some? <==> Truthy(arg) && TypeOf(arg) == "object"
    ensures r.Some? ==> arg.Obj? && r.value == ConstantInit(BoundActionCreators(arg.ref))
  {
    if arg.Obj? then Some(ConstantInit(BoundActionCreators(arg.ref))) else None
  }

  /** The module's default export, in order. */
  function DefaultMapDispatchToPropsFactories(): (r: seq<JsValue -> Option<MapInit>>)
    ensures |r| == 3
  {
    [WhenMapDispatchToPropsIsFunction, WhenMapDispatchToPropsIsMissing, WhenMapDispatchToPropsIsObject]
  }

  /** The three factories never both match, `null` (typeof "object") is
      caught only by the "missing" one, and a truthy primitive (non-empty
      string, non-zero number, `true`) matches none. */
  lemma MapDispatchFactoriesExclusive(arg: JsValue)
    ensures var fs := DefaultMapDispatchToPropsFactories();
            forall i, j :: 0 <= i < j < |fs| ==> !(fs[i](arg).Some? && fs[j](arg).Some?)
    ensures arg.Null? ==> WhenMapDispatchToPropsIsMissing(arg).Some? && WhenMapDispatchToPropsIsObject(arg).None?
    ensures Truthy(arg) && !arg.Func? && !arg.Obj? ==>
      forall f :: f in DefaultMapDispatchToPropsFactories() ==> f(arg).None?
  {
    TypeOfClassifies(arg);
    var fs := DefaultMapDispatchToPropsFactories();
    assert fs[0] == WhenMapDispatchToPropsIsFunction;
    assert fs[1] == WhenMapDispatchToPropsIsMissing;
    assert fs[2] == WhenMapDispatchToPropsIsObject;
  }
}
