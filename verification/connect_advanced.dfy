/**
 * src/components/connectAdvanced.js: the stateful selector and the `Connect`
 * component instance, as a state machine stepped by host (React) events.
 *
 * The source selector is opaque: each event that runs it takes the
 * `Outcome` of that run as a parameter. Props objects are `JsValue`s
 * compared with `===` (`StrictEquals`). React itself (`setState`,
 * `forceUpdate`, `createElement`) appears only as effects an event emits.
 * The instance's subscription is a node of a `Subscription.World`, which
 * every event takes and returns.
 */
module ConnectAdvanced {
  import opened Wrappers
  import opened JsValues
  import opened Subscription

  // ---------------------------------------------------------------------------
  // makeSelectorStateful
  // ---------------------------------------------------------------------------

  /** What one call of the source selector did. */
  type Outcome = Completion<JsValue>

  /** The object `makeSelectorStateful` returns; `active` turns false when
      `run` is replaced by `noop` on unmount. */
  datatype Selector = Selector(props: JsValue, error: JsValue, shouldComponentUpdate: bool, active: bool)

  /** `makeSelectorStateful(sourceSelector, store)`: nothing cached yet. */
  function MakeSelectorStateful(): (s: Selector)
    ensures s.props == Undefined && !Truthy(s.error) && !s.shouldComponentUpdate && s.active
  {
    Selector(Undefined, Undefined, false, true)
  }

  /** `selector.run(props)` with the source selector's `outcome`. */
  function Run(s: Selector, outcome: Outcome): (r: Selector)
    ensures r.active == s.active
    ensures !s.active ==> r == s
    // a returned value is always what is cached afterwards, with no pending error
    ensures s.active && outcome.Returned? ==> r.props == outcome.value && !Truthy(r.error)
    // the flag is raised iff the reference differs or an error was pending, and never lowered
    ensures s.active && outcome.Returned? ==>
      (r.shouldComponentUpdate <==> s.shouldComponentUpdate || !StrictEquals(outcome.value, s.props) || Truthy(s.error))
    // a throw records the error, forces an update and keeps the cached props
    ensures s.active && outcome.Threw? ==>
      r.error == outcome.error && r.shouldComponentUpdate && r.props == s.props
    ensures s.shouldComponentUpdate ==> r.shouldComponentUpdate
  {
    if !s.active then s
    else
      match outcome
      case Returned(next) =>
        if !StrictEquals(next, s.props) || Truthy(s.error) then
          s.(shouldComponentUpdate := true, props := next, error := Null)
        else s
      case Threw(e) => s.(shouldComponentUpdate := true, error := e)
  }

  /** A run that returns the cached reference with no error pending changes
      nothing at all. */
  lemma RunSameReferenceIsNoOp(s: Selector, p: JsValue)
    requires StrictEquals(p, s.props) && !Truthy(s.error)
    ensures Run(s, Returned(p)) == s
  {
    StrictEqualsIsPartialIdentity(p, s.props);
  }

  /** `NaN !== NaN`: a selector that returns `NaN` forces an update every
      time, even when `NaN` is what is cached. */
  lemma NaNPropsAlwaysUpdate(s: Selector)
    requires s.active
    ensures Run(s, Returned(NaN)).shouldComponentUpdate
    ensures Run(s, Returned(NaN)).props == NaN
  {
    StrictEqualsIsPartialIdentity(NaN, s.props);
  }

  /** Several runs in a row. */
  function RunAll(s: Selector, outcomes: seq<Outcome>): (r: Selector)
    decreases |outcomes|
  {
    if |outcomes| == 0 then s else RunAll(Run(s, outcomes[0]), outcomes[1..])
  }

  /** After any runs of an active selector, the pending error is truthy
      exactly when the last run threw a truthy value, and the cached props
      are those of the last run that returned (or the initial ones). */
  lemma {:induction false} RunAllTracksLastOutcome(s: Selector, outcomes: seq<Outcome>)
    requires s.active && |outcomes| > 0
    ensures var r := RunAll(s, outcomes);
            var last := outcomes[|outcomes| - 1];
            && r.active
            && (Truthy(r.error) <==> last.Threw? && Truthy(last.error))
            && (last.Returned? ==> r.props == last.value)
            && (s.shouldComponentUpdate ==> r.shouldComponentUpdate)
    decreases |outcomes|
  {
    var s1 := Run(s, outcomes[0]);
    if |outcomes| > 1 {
      RunAllTracksLastOutcome(s1, outcomes[1..]);
      assert outcomes[1..][|outcomes[1..]| - 1] == outcomes[|outcomes| - 1];
    } else {
      assert RunAll(s1, outcomes[1..]) == s1;
    }
  }

  // ---------------------------------------------------------------------------
  // The Connect instance
  // ---------------------------------------------------------------------------

  /** The `connectAdvanced` options the instance reads; `withRef` and
      `shouldHandleStateChanges` by their truthiness. */
  datatype Config = Config(shouldHandleStateChanges: bool, withRef: bool, renderCountProp: JsValue, storeKey: string) {
    function SubscriptionKey(): string { storeKey + "Subscription" }
  }

  /** `this.notifyNestedSubs`: never set (the component ignores state
      changes), the subscription's bound method, or `noop` after unmount. */
  datatype NotifyFn = Unset | Bound | Noop

  datatype Instance = Instance(
    cfg: Config,
    propsMode: bool,
    selector: Selector,
    subscription: Option<NodeId>,
    notifyNestedSubs: NotifyFn,
    didUpdateHook: bool,
    renderCount: nat,
    contextSub: Option<NodeId>)

  /** The props handed to the wrapped element: the selector's own object, or
      a shallow copy with the extra keys. */
  datatype ElementProps =
    | SameProps(props: JsValue)
    | WithExtras(base: JsValue, ref: bool, renderCount: Option<(JsValue, nat)>, subscription: Option<(string, NodeId)>)

  /** What an event asks of React, or throws. `Notified` lists the
      `onStateChange` listeners of child components, in the order they are
      called. */
  datatype Effect = ForceUpdate | SetState | Notified(listeners: seq<NodeId>) | Rendered(element: ElementProps) | Thrown(error: JsValue)

  datatype Step = Step(inst: Instance, world: World, effects: seq<Effect>)

  /** How the instance relates to the subscription world. */
  ghost predicate InstOk(inst: Instance, w: World) {
    && (inst.subscription.Some? ==> inst.subscription.value < |w.nodes|)
    && (inst.contextSub.Some? ==> inst.contextSub.value < |w.nodes|)
    && (inst.selector.active && inst.cfg.shouldHandleStateChanges ==>
          inst.subscription.Some? && inst.notifyNestedSubs == Bound)
    && (inst.selector.active && !inst.cfg.shouldHandleStateChanges ==>
          inst.subscription.None? && inst.notifyNestedSubs == Unset)
    && (!inst.selector.active ==>
          inst.subscription.None? && inst.notifyNestedSubs == Noop && !inst.selector.shouldComponentUpdate)
  }

  /** What the constructor finds under `storeKey` and `subscriptionKey`, in
      props or in context. */
  datatype Source = Source(store: JsValue, subscription: Option<NodeId>)

  /** How the constructor ends: with a new instance, with the `invariant`
      error for a missing store, or with what `selectorFactory` threw. */
  datatype Constructed = Constructed(step: Step) | MissingStore | FactoryThrew(error: JsValue)

  /** `constructor(props, context)`: take the store from props, else from
      context (failing when neither has one), build the source selector with
      `selectorFactory(store.dispatch, options)` outside any `try` (it runs
      the three initializers, so `match`'s fallback throws here), run the
      selector once, and, when handling state changes, create a subscription
      whose parent is read from the same place as the store. `factory` is how
      the `selectorFactory` call ends; `outcome` is how the first run ends. */
  function Construct(cfg: Config, fromProps: Source, fromContext: Source, w: World,
                     factory: Completion<()>, outcome: Outcome): (r: Constructed)
    requires WorldInv(w)
    requires fromProps.subscription.Some? ==> fromProps.subscription.value < |w.nodes|
    requires fromContext.subscription.Some? ==> fromContext.subscription.value < |w.nodes|
    ensures r.MissingStore? <==> !Truthy(fromProps.store) && !Truthy(fromContext.store)
    ensures r.FactoryThrew? <==> (Truthy(fromProps.store) || Truthy(fromContext.store)) && factory.Threw?
    ensures r.FactoryThrew? ==> r.error == factory.error
    ensures r.Constructed? ==>
      && WorldInv(r.step.world) && InstOk(r.step.inst, r.step.world) && r.step.effects == []
      && r.step.inst.propsMode == Truthy(fromProps.store)
      && r.step.inst.selector == Run(MakeSelectorStateful(), outcome)
      && r.step.inst.renderCount == 0 && !r.step.inst.didUpdateHook
    ensures r.Constructed? && cfg.shouldHandleStateChanges ==>
      var parent := if Truthy(fromProps.store) then fromProps.subscription else fromContext.subscription;
      && r.step.inst.subscription == Some(|w.nodes|)
      && r.step.world == w.(nodes := w.nodes + [Node(parent, None, None)])
      && !IsSubscribed(r.step.world, |w.nodes|)
    ensures r.Constructed? && !cfg.shouldHandleStateChanges ==>
      r.step.inst.subscription.None? && r.step.world == w
  {
    if !Truthy(fromProps.store) && !Truthy(fromContext.store) then MissingStore
    else if factory.Threw? then FactoryThrew(factory.error)
    else
      var propsMode := Truthy(fromProps.store);
      var selector := Run(MakeSelectorStateful(), outcome);
      if !cfg.shouldHandleStateChanges then
        Constructed(Step(Instance(cfg, propsMode, selector, None, Unset, false, 0, fromContext.subscription), w, []))
      else
        var parentSub := if propsMode then fromProps.subscription else fromContext.subscription;
        var (w1, node) := NewNode(w, parentSub);
        Constructed(Step(Instance(cfg, propsMode, selector, Some(node), Bound, false, 0, fromContext.subscription), w1, []))
  }

  /** `getChildContext()`: in props mode the context subscription passes
      through; otherwise the instance's own subscription, falling back to
      the context's. */
  function GetChildContext(inst: Instance): (r: Option<NodeId>)
    ensures inst.propsMode ==> r == inst.contextSub
    ensures !inst.propsMode && inst.subscription.Some? ==> r == inst.subscription
    ensures !inst.propsMode && inst.subscription.None? ==> r == inst.contextSub
  {
    var own := if inst.propsMode then None else inst.subscription;
    if own.Some? then own else inst.contextSub
  }

  /** `componentDidMount()`. */
  function DidMount(inst: Instance, w: World, outcome: Outcome): (r: Step)
    requires WorldInv(w) && InstOk(inst, w) && inst.selector.active
    ensures WorldInv(r.world) && InstOk(r.inst, r.world) && SameTree(w, r.world)
    ensures !inst.cfg.shouldHandleStateChanges ==> r == Step(inst, w, [])
    ensures inst.cfg.shouldHandleStateChanges ==>
      && IsSubscribed(r.world, inst.subscription.value)
      && r.inst == inst.(selector := Run(inst.selector, outcome))
      && r.effects == (if r.inst.selector.shouldComponentUpdate then [ForceUpdate] else [])
  {
    if !inst.cfg.shouldHandleStateChanges then Step(inst, w, [])
    else
      var w1 := TrySubscribe(w, inst.subscription.value);
      var selector := Run(inst.selector, outcome);
      Step(inst.(selector := selector), w1, if selector.shouldComponentUpdate then [ForceUpdate] else [])
  }

  /** `componentWillReceiveProps(nextProps)`. */
  function ReceiveProps(inst: Instance, w: World, outcome: Outcome): (r: Step)
    requires InstOk(inst, w)
    ensures InstOk(r.inst, r.world) && r.world == w && r.effects == []
    ensures r.inst == inst.(selector := Run(inst.selector, outcome))
  {
    Step(inst.(selector := Run(inst.selector, outcome)), w, [])
  }

  /** `shouldComponentUpdate()`. */
  function ShouldComponentUpdate(inst: Instance): (r: bool)
    ensures r == inst.selector.shouldComponentUpdate
  {
    inst.selector.shouldComponentUpdate
  }

  /** After new props, React is told to update exactly when the selector
      threw, returned a different reference, or had an error pending (or an
      update was already due); an unmounted instance never asks. */
  lemma UpdateIffSelectorChanged(inst: Instance, w: World, outcome: Outcome)
    requires InstOk(inst, w)
    ensures var r := ReceiveProps(inst, w, outcome);
            && (inst.selector.active ==>
                  (ShouldComponentUpdate(r.inst) <==>
                     || inst.selector.shouldComponentUpdate
                     || outcome.Threw?
                     || !StrictEquals(outcome.value, inst.selector.props)
                     || Truthy(inst.selector.error)))
            && (!inst.selector.active ==> !ShouldComponentUpdate(r.inst))
  {
  }

  /** `addExtraProps(props)`: the same object when nothing is to be added,
      else a copy with the ref callback, the render count (post-incremented)
      and, in props mode, the subscription under `subscriptionKey`. */
  function AddExtraProps(inst: Instance, props: JsValue): (r: (ElementProps, nat))
    ensures var extras := inst.cfg.withRef || Truthy(inst.cfg.renderCountProp) || (inst.propsMode && inst.subscription.Some?);
            && (r.0.SameProps? <==> !extras)
            && (r.0.SameProps? ==> r.0.props == props)
            && (r.0.WithExtras? ==>
                  && r.0.base == props
                  && r.0.ref == inst.cfg.withRef
                  && (r.0.renderCount.Some? <==> Truthy(inst.cfg.renderCountProp))
                  && (r.0.renderCount.Some? ==> r.0.renderCount.value == (inst.cfg.renderCountProp, inst.renderCount))
                  && (r.0.subscription.Some? <==> inst.propsMode && inst.subscription.Some?)
                  && (r.0.subscription.Some? ==>
                        r.0.subscription.value == (inst.cfg.SubscriptionKey(), inst.subscription.value)))
    ensures r.1 == if r.0.WithExtras? && Truthy(inst.cfg.renderCountProp) then inst.renderCount + 1 else inst.renderCount
  {
    var cfg := inst.cfg;
    if !cfg.withRef && !Truthy(cfg.renderCountProp) && !(inst.propsMode && inst.subscription.Some?) then
      (SameProps(props), inst.renderCount)
    else
      var count := if Truthy(cfg.renderCountProp) then Some((cfg.renderCountProp, inst.renderCount)) else None;
      var sub := if inst.propsMode && inst.subscription.Some?
                 then Some((cfg.SubscriptionKey(), inst.subscription.value)) else None;
      (WithExtras(props, cfg.withRef, count, sub), if count.Some? then inst.renderCount + 1 else inst.renderCount)
  }

  /** `render()`: lower the flag, then throw the pending error if it is
      truthy, else render the wrapped component. */
  function Render(inst: Instance, w: World): (r: Step)
    requires InstOk(inst, w)
    ensures InstOk(r.inst, r.world) && r.world == w
    ensures !r.inst.selector.shouldComponentUpdate
    ensures r.inst.selector == inst.selector.(shouldComponentUpdate := false)
    ensures Truthy(inst.selector.error) <==> r.effects == [Thrown(inst.selector.error)]
    ensures !Truthy(inst.selector.error) ==>
      && r.effects == [Rendered(AddExtraProps(inst, inst.selector.props).0)]
      && r.inst.renderCount == AddExtraProps(inst, inst.selector.props).1
  {
    var lowered := inst.(selector := inst.selector.(shouldComponentUpdate := false));
    if Truthy(inst.selector.error) then Step(lowered, w, [Thrown(inst.selector.error)])
    else
      var (element, count) := AddExtraProps(lowered, inst.selector.props);
      Step(lowered.(renderCount := count), w, [Rendered(element)])
  }

  /** Calling `this.notifyNestedSubs()`. */
  function CallNotifyNestedSubs(inst: Instance, w: World): (r: Step)
    requires WorldInv(w) && InstOk(inst, w)
    requires inst.notifyNestedSubs != Unset
    ensures WorldInv(r.world) && SameTree(w, r.world) && r.inst == inst
    ensures inst.notifyNestedSubs == Noop ==> r.world == w && r.effects == []
    ensures inst.notifyNestedSubs == Bound ==>
      && |r.effects| == 1 && r.effects[0].Notified?
      && (r.effects[0].listeners, r.world) == (NotifyNestedSubs(w, inst.subscription.value).1, NotifyNestedSubs(w, inst.subscription.value).0)
      && forall x :: x in r.effects[0].listeners ==> ChildOf(w, x, inst.subscription.value)
  {
    if inst.notifyNestedSubs == Noop then Step(inst, w, [])
    else
      var (w1, listeners) := NotifyNestedSubs(w, inst.subscription.value);
      Step(inst, w1, [Notified(listeners)])
  }

  /** `onStateChange()`: re-run the selector; with nothing to update, tell
      the children now; otherwise arm the one-shot `componentDidUpdate` hook
      and ask React to re-render. */
  function OnStateChange(inst: Instance, w: World, outcome: Outcome): (r: Step)
    requires WorldInv(w) && InstOk(inst, w)
    requires inst.cfg.shouldHandleStateChanges
    ensures WorldInv(r.world) && InstOk(r.inst, r.world) && SameTree(w, r.world)
    ensures r.inst.selector == Run(inst.selector, outcome)
    ensures !r.inst.selector.shouldComponentUpdate ==>
      && r.inst == inst.(selector := r.inst.selector)
      && r == CallNotifyNestedSubs(r.inst, w)
    ensures r.inst.selector.shouldComponentUpdate ==>
      && r.inst == inst.(selector := r.inst.selector, didUpdateHook := true)
      && r.world == w && r.effects == [SetState]
  {
    var selector := Run(inst.selector, outcome);
    if !selector.shouldComponentUpdate then
      CallNotifyNestedSubs(inst.(selector := selector), w)
    else
      Step(inst.(selector := selector, didUpdateHook := true), w, [SetState])
  }

  /** `componentDidUpdate()`: when the hook is armed, disarm it and notify
      the children; otherwise there is no such method. */
  function DidUpdate(inst: Instance, w: World): (r: Step)
    requires WorldInv(w) && InstOk(inst, w)
    requires inst.didUpdateHook ==> inst.notifyNestedSubs != Unset
    ensures WorldInv(r.world) && InstOk(r.inst, r.world) && SameTree(w, r.world)
    ensures !r.inst.didUpdateHook
    ensures !inst.didUpdateHook ==> r == Step(inst, w, [])
    ensures inst.didUpdateHook ==> r == CallNotifyNestedSubs(inst.(didUpdateHook := false), w)
  {
    if !inst.didUpdateHook then Step(inst, w, [])
    else CallNotifyNestedSubs(inst.(didUpdateHook := false), w)
  }

  /** `componentWillUnmount()`: unsubscribe, drop the subscription, and turn
      `notifyNestedSubs` and `selector.run` into no-ops. */
  function Unmount(inst: Instance, w: World): (r: Step)
    requires WorldInv(w) && InstOk(inst, w)
    ensures WorldInv(r.world) && InstOk(r.inst, r.world) && SameTree(w, r.world) && r.effects == []
    ensures r.inst.subscription.None? && r.inst.notifyNestedSubs == Noop
    ensures !r.inst.selector.active && !r.inst.selector.shouldComponentUpdate
    ensures inst.subscription.Some? ==> !IsSubscribed(r.world, inst.subscription.value)
    ensures inst.subscription.None? ==> r.world == w
  {
    var w1 := if inst.subscription.Some? then TryUnsubscribe(w, inst.subscription.value) else w;
    Step(inst.(subscription := None, notifyNestedSubs := Noop,
               selector := inst.selector.(active := false, shouldComponentUpdate := false)), w1, [])
  }

  /** `isSubscribed()`. */
  function InstanceIsSubscribed(inst: Instance, w: World): (r: bool)
    requires InstOk(inst, w)
    ensures r <==> inst.subscription.Some? && IsSubscribed(w, inst.subscription.value)
    ensures !inst.cfg.shouldHandleStateChanges ==> !r
  {
    inst.subscription.Some? && IsSubscribed(w, inst.subscription.value)
  }

  // ---------------------------------------------------------------------------
  // Properties over several events
  // ---------------------------------------------------------------------------

  /** Once unmounted, the instance is not subscribed, a state change does
      nothing at all (the selector is not run, nothing is notified), and the
      flag stays down. */
  lemma AfterUnmount(inst: Instance, w: World, outcome: Outcome)
    requires WorldInv(w) && InstOk(inst, w) && inst.cfg.shouldHandleStateChanges
    ensures var u := Unmount(inst, w);
            && !InstanceIsSubscribed(u.inst, u.world)
            && !ShouldComponentUpdate(u.inst)
            && OnStateChange(u.inst, u.world, outcome) == Step(u.inst, u.world, [])
            && ReceiveProps(u.inst, u.world, outcome).inst == u.inst
  {
  }

  /** A state change that updates defers the children's notification:
      nothing is notified before `componentDidUpdate`, which notifies once
      and disarms itself, so a second `componentDidUpdate` does nothing. */
  lemma DeferredNotificationFiresOnce(inst: Instance, w: World, outcome: Outcome)
    requires WorldInv(w) && InstOk(inst, w) && inst.cfg.shouldHandleStateChanges
    requires Run(inst.selector, outcome).shouldComponentUpdate
    ensures var s1 := OnStateChange(inst, w, outcome);
            var s2 := Render(s1.inst, s1.world);
            var s3 := DidUpdate(s2.inst, s2.world);
            var s4 := DidUpdate(s3.inst, s3.world);
            && s1.effects == [SetState] && s1.world == w
            && ShouldComponentUpdate(s1.inst)
            && s2.world == w && s2.inst.didUpdateHook
            && (inst.selector.active ==>
                  && |s3.effects| == 1 && s3.effects[0].Notified?
                  && s3.effects[0].listeners == NotifyNestedSubs(w, inst.subscription.value).1)
            && s4 == Step(s3.inst, s3.world, [])
  {
    var s1 := OnStateChange(inst, w, outcome);
    assert s1.inst.selector.active == inst.selector.active;
  }

  /** A state change with nothing to update notifies the children at once
      (through the bound method while mounted) and arms no hook. */
  lemma UnchangedNotifiesSynchronously(inst: Instance, w: World, outcome: Outcome)
    requires WorldInv(w) && InstOk(inst, w) && inst.cfg.shouldHandleStateChanges && inst.selector.active
    requires !Run(inst.selector, outcome).shouldComponentUpdate
    ensures var r := OnStateChange(inst, w, outcome);
            && r.inst.didUpdateHook == inst.didUpdateHook
            && r.effects == [Notified(NotifyNestedSubs(w, inst.subscription.value).1)]
            && r.world == NotifyNestedSubs(w, inst.subscription.value).0
  {
  }

  /** A selector error is rethrown by every render until a run returns. */
  lemma ErrorThrownUntilRunReturns(inst: Instance, w: World, e: JsValue, p: JsValue)
    requires WorldInv(w) && InstOk(inst, w) && inst.selector.active && Truthy(e)
    ensures var s1 := ReceiveProps(inst, w, Threw(e));
            var s2 := Render(s1.inst, w);
            var s3 := Render(s2.inst, w);
            var s4 := ReceiveProps(s3.inst, w, Returned(p));
            var s5 := Render(s4.inst, w);
            && s1.inst.selector.props == inst.selector.props
            && ShouldComponentUpdate(s1.inst)
            && s2.effects == [Thrown(e)] && s3.effects == [Thrown(e)]
            && ShouldComponentUpdate(s4.inst)
            && s5.effects == [Rendered(AddExtraProps(s4.inst, p).0)]
  {
  }
}
