# react-redux 5.0.6 core, modelled in Dafny

This project models the sequential core of react-redux 5.0.6, the binding between a redux store and React components. It has three parts.

- **Listener collections and the subscription tree** (`src/utils/Subscription.js`).
  - Every connected component owns a `Subscription` node.
  - A root node subscribes to the store. Every other node registers its `onStateChange` in its parent's listener collection, which makes ancestors hear of a change before their descendants.
  - A collection keeps two array references, `current` and `next`, and copies on write. `notify` therefore runs over a snapshot while listeners subscribe and unsubscribe re-entrantly.
- **The props-stage helpers of `connect`** (`src/connect/*.js`).
  - The own-props dependency policy.
  - The `mapToProps` proxy, with its one-time factory detection.
  - Constant selectors.
  - `defaultMergeProps` and the memoising merge proxy.
  - The type-based argument factories, and `match` with its deferred-throw fallback.
  - The options record `connect` passes to `connectAdvanced`.
- **The `Connect` component** (`src/components/connectAdvanced.js`).
  - The stateful selector: reference comparison, a sticky update flag, and captured errors.
  - The instance as a state machine stepped by host events: construct, mount, receive props, state change, render, did-update, unmount.

## Modules

| file | module | contents |
|---|---|---|
| wrappers.dfy | `Wrappers` | `Option`, `Result` |
| js_values.dfy | `JsValues` | JavaScript values as far as the core branches on them: truthiness, `typeof`, `===` |
| listeners.dfy | `Listeners` | `createListenerCollection`, the re-entrant notify pass, and a plain-list reference semantics |
| subscription.dfy | `Subscription` | the `Subscription` class over a world of nodes, collections and store subscriptions |
| wrap_map_to_props.dfy | `WrapMapToProps` | `getDependsOnOwnProps`, `wrapMapToPropsConstant`, `wrapMapToPropsFunc` |
| merge_props.dfy | `MergeProps` | `defaultMergeProps`, `wrapMergePropsFunc`, the two mergeProps factories |
| map_dispatch_to_props.dfy | `MapDispatchToProps` | the three mapDispatchToProps factories |
| connect.dfy | `Connect` | `match`, `createConnect`/`connect` and the options record |
| connect_advanced.dfy | `ConnectAdvanced` | `makeSelectorStateful` and the `Connect` instance |

## How JavaScript is represented

- **Arrays as references.** In `Listeners`, arrays live in an explicit store `arrays: seq<seq<L>>`.
  - `current` and `next` are indices into that store; `None` is `CLEARED`.
  - `next === current` is index equality.
  - `slice()` appends a fresh copy to the store.
  - `push` and `splice` overwrite the array `next` refers to. `WriteNext` requires that `next` is not aliased, which is the copy-on-write discipline.
  - `splice(indexOf(l), 1)` is modelled with JavaScript's semantics, including index -1. `UnsubscribeRemovesOne` proves that -1 never happens.
- **Unsubscribe closures.** The closures `subscribe` returns are `Handle(listener, isSubscribed)` records, kept in the collection.
- **The world.** Subscription nodes, their collections and the store's subscriptions form one `World`.
  - Node ids follow creation order, and a parent is created before its children. This makes the recursion between `trySubscribe` and the parent's `addNestedSub` terminate.
  - The invariant `WorldInv` says four things:
    - every live registration is backed by an active handle of the right kind;
    - every listener in a collection is a child of the collection's owner;
    - only roots subscribe to the store;
    - each collection keeps the accounting invariant: its live list, as a multiset, equals the listeners of its active handles.
- **Opaque user functions.** A user function is opaque. How each call of it ends is a parameter (`apply`, `merge`): a `Completion`, which is either the value it returned or the value it threw. Every proxy call returns the log of user calls it made. So "invoked on every call", "receives `ownProps`" and "detection happens once" are statements about that log. A throw ends only the proxy call it happens in, and the proxy keeps whatever state it had reached by then.
- **Props and references.** Props objects are `JsValue`s compared with `===`; numbers are integers, plus `NaN`. The merge proxy is generic in the merged-props reference type.
- **The source selector.** The source selector, the store, `setState`, `forceUpdate` and `createElement` are opaque. Each event that runs the selector takes the selector's `Outcome`, a `Completion` of props. React calls appear as `Effect`s.

## Model

| member | source | states |
|---|---|---|
| `Listeners.Create` | src/utils/Subscription.js:8-13 | a new collection is not cleared, `current` and `next` are distinct arrays, `current`'s is empty, the live list is empty, and no closures exist |
| `Listeners.Collection.Get` | src/utils/Subscription.js:29-31 | `get()` is `null` exactly on a cleared collection, and otherwise the live list (the array `next` refers to) |
| `Listeners.Fork` | src/utils/Subscription.js:35 | `next = current.slice()`: `next` becomes a fresh array equal to `current`, no existing array changes, and the two are no longer aliased |
| `Listeners.Clear` | src/utils/Subscription.js:16-19 | after `clear()` the collection is `CLEARED`, its live list is empty, and the closures and arrays are untouched |
| `Listeners.Notify` | src/utils/Subscription.js:21-24 | `notify` aliases `current` to `next` and iterates exactly the live list as it was when called |
| `Listeners.Subscribe` | src/utils/Subscription.js:33-37 | subscribe appends the listener to the live list and returns a new active closure; it copies first iff `next` and `current` are aliased; the array `current` refers to, and every array other than `next`, stay unchanged |
| `Listeners.Unsubscribe` | src/utils/Subscription.js:38-44 | a used closure, or any closure after `clear`, does nothing; otherwise the closure is retired, `current`'s array is untouched (copy first if aliased) and `splice(indexOf(l), 1)` is applied to `next` |
| `Listeners.SpliceIndexOfRemovesFirst` | src/utils/Subscription.js:43 | when the listener is present, `splice(indexOf(l), 1)` is exactly the removal of its first occurrence |
| `Listeners.SpliceOfAbsentRemovesLast` | src/utils/Subscription.js:43 | when the listener is absent, the same expression would remove the last element instead |
| `Listeners.SubscribeInv` | src/utils/Subscription.js:33-37 | subscribing keeps the accounting invariant and adds exactly one occurrence of the listener |
| `Listeners.UnsubscribeRemovesOne` | src/utils/Subscription.js:38-44 | under the invariant, an active closure always finds its listener, so it removes exactly one (the first) occurrence and keeps the invariant |
| `Listeners.UnsubscribeIdempotent` | src/utils/Subscription.js:39-40 | calling the same unsubscribe closure twice is the same as calling it once |
| `Listeners.UnsubscribeAfterClear` | src/utils/Subscription.js:39 | after `clear()` every unsubscribe closure is a no-op |
| `Listeners.ApplyOp` | src/utils/Subscription.js:33-44 | no operation a listener performs during a pass modifies an array that is still a safe snapshot |
| `Listeners.ApplyOpRefines` | src/utils/Subscription.js:16-44 | each operation on the aliased representation does what the plain-list reference semantics says (append, remove first occurrence, empty for good), and subscribe throws exactly on a cleared collection |
| `Listeners.ApplyOpsRefines` | src/utils/Subscription.js:16-44 | a listener's sequence of operations keeps the invariant, refines the plain-list run of the operations it performed, and stops exactly where the plain-list cut does: at the first explicit throw or subscribe on a cleared collection, counting that operation |
| `Listeners.AbsCutAppend` | src/utils/Subscription.js:23-26 | cutting two operation lists laid end to end is cutting the first, then, unless it threw, cutting the second from where the first left the lists |
| `Listeners.RunPass` | src/utils/Subscription.js:23-26 | the loop never writes the array it iterates, whatever the listeners do to the collection; it invokes at most the rest of the snapshot, and at least one listener when it reports a throw |
| `Listeners.NotifyWith` | src/utils/Subscription.js:21-27 | `notify()` with its listeners running invokes the live list as it was at the call, all of it unless a listener throws, and then a prefix of it |
| `Listeners.PassInvokesSnapshot` | src/utils/Subscription.js:23-26 | the notify loop invokes the snapshot array in order, all of it unless a listener throws, whatever the listeners do to the collection |
| `Listeners.PassRefines` | src/utils/Subscription.js:23-26 | after the loop, the collection is what the plain-list semantics of the performed operations gives |
| `Listeners.PassRefinesAbsPass` | src/utils/Subscription.js:23-26 | the loop over the aliased representation performs the same operations, reports the same throw and invokes as many listeners as the plain-list pass, in which each listener runs its operations until one throws and a throw ends the pass |
| `Listeners.AbsPassIsCut` | src/utils/Subscription.js:23-26 | the plain-list pass performs exactly the listeners' operations laid end to end up to and including the first throwing one, and reports a throw exactly when there is one |
| `Listeners.AbsPassRunsUntilThrow` | src/utils/Subscription.js:24-25 | in the plain-list pass the listener at position `j` runs exactly when the operations of the listeners before it do not throw |
| `Listeners.PassIsCutOfFlatEffects` | src/utils/Subscription.js:23-26 | the loop performs exactly the listeners' operations laid end to end, cut after the first plain-list throw, and reports a throw exactly when one occurs |
| `Listeners.PassRunsUntilThrow` | src/utils/Subscription.js:24-25 | the loop invokes the listener at position `j` exactly when the operations of the listeners before it run on plain lists without a throw |
| `Listeners.NotifySnapshotSemantics` | src/utils/Subscription.js:21-27 | `notify()` with re-entrant listeners keeps the invariant and leaves the collection as the plain-list semantics of the performed operations says |
| `Listeners.NotifyIsCutOfEffects` | src/utils/Subscription.js:21-27 | for every collection and every listener behaviour, `notify()` performs exactly the live listeners' operations laid end to end up to the first plain-list throw, reports that throw, leaves the collection as the plain-list run of those operations, and invokes the listener at position `j` exactly when the operations before it do not throw |
| `Listeners.TwoSubscribed` | src/utils/Subscription.js:33-37 | two subscriptions to a fresh collection land in insertion order in the original `next` array, without a copy (a fresh collection is not aliased), and `current`'s array stays empty |
| `Listeners.PassMembershipIsFixedAtCall` | src/utils/Subscription.js:21-44 | for every collection and every listener behaviour: the listener at each position of the live list at the call runs in the pass, even if it is unsubscribed during it, unless the operations of the listeners before it throw; all of them run when none throws; one not live at the call does not run even if it is subscribed during it; one the pass leaves live by the plain-list semantics is invoked by the next `notify()` |
| `Listeners.SubscribedDuringPassRunsNextTime` | src/utils/Subscription.js:21-36 | scenario: with `a`, `b` subscribed and `a` subscribing `c` when invoked, the pass invokes `a`, `b` and the next `notify()` invokes `a`, `b`, `c` |
| `Listeners.UnsubscribedDuringPassStillRunsOnce` | src/utils/Subscription.js:21-44 | scenario: with `a`, `b` subscribed and `a` unsubscribing `b` when invoked, the pass still invokes `a`, `b` and leaves the live list `[a]` |
| `Subscription.NewNode` | src/utils/Subscription.js:50-58 | a new node is not subscribed and listens through `nullListeners`; nothing else changes and the invariant holds |
| `Subscription.IsSubscribedMeansRegistered` | src/utils/Subscription.js:71-73 | `isSubscribed()` holds exactly when the node has its own collection instead of `nullListeners`; a subscribed child then holds an active handle in a collection of its parent, and a subscribed root an active store subscription |
| `Subscription.StoreSubscribe` | src/utils/Subscription.js:81 | a root's `store.subscribe(onStateChange)` adds one active store subscription for that node |
| `Subscription.Register` | src/utils/Subscription.js:63 | `this.listeners.subscribe(listener)` appends the child to the live list of the node's own collection and returns a handle into it |
| `Subscription.Install` | src/utils/Subscription.js:79-84 | the node keeps the closure and gets a fresh, empty collection; other nodes are unchanged |
| `Subscription.TrySubscribe` | src/utils/Subscription.js:75-86 | afterwards the node is subscribed; on a subscribed node it changes nothing (so it is idempotent); otherwise it creates a fresh empty collection, a root adds exactly one store subscription, a child registers in its parent's collection and leaves the parent subscribed, and an already subscribed parent means the store is untouched and the parent's live list gains exactly the child; the store's list only grows |
| `Subscription.AddNestedSub` | src/utils/Subscription.js:60-64 | the parent is subscribed first and then the child's handle is issued from the parent's own collection; when the parent was already subscribed the store is untouched and the live list gains the child |
| `Subscription.NotifyNestedSubs` | src/utils/Subscription.js:66-69 | before subscription (`nullListeners`) nothing happens; otherwise the snapshot is the node's live list and every listener in it is a child of the node |
| `Subscription.LiveAreChildren` | src/utils/Subscription.js:60-64 | every listener in a subscribed node's collection is the `onStateChange` of one of its children |
| `Subscription.TryUnsubscribe` | src/utils/Subscription.js:88-95 | afterwards the node is not subscribed and listens through `nullListeners`; on an unsubscribed node it changes nothing; otherwise its collection is cleared, a child's handle is retired and one occurrence removed from a live parent collection, a root's store subscription is retired, and no other collection changes |
| `Subscription.ResubscribeIsFresh` | src/utils/Subscription.js:75-95 | unsubscription is not terminal: a later `trySubscribe` subscribes again, with a collection that did not exist before and is empty |
| `Subscription.StoreListenersAreRoots` | src/utils/Subscription.js:79-81 | every node the store calls is a root; children hear of changes only through their parent's collection |
| `WrapMapToProps.DependsOnOwnProps` | src/connect/wrapMapToProps.js:22-35 | an explicit `dependsOnOwnProps` that is neither null nor undefined decides, coerced to a boolean; otherwise arity 1 gives false and arity 0 or 2+ gives true |
| `WrapMapToProps.GetConstant` | src/connect/mapDispatchToProps.js:10-26 | the constant getters: `{ dispatch }` has exactly the key `dispatch`; the object case is `bindActionCreators(obj, dispatch)` |
| `WrapMapToProps.InitConstantSelector` | src/connect/wrapMapToProps.js:3-13 | the constant is the getter's value computed at initialisation, and the selector reports `dependsOnOwnProps = false` |
| `WrapMapToProps.ConstantSelectorIgnoresArguments` | src/connect/wrapMapToProps.js:7 | every call of a constant selector returns the value computed at initialisation, whatever the arguments |
| `WrapMapToProps.CallFor` | src/connect/wrapMapToProps.js:56-60 | the proxy forwards `ownProps` iff its flag is set |
| `WrapMapToProps.InitProxySelector` | src/connect/wrapMapToProps.js:55-67 | a fresh proxy has its flag set and `detectFactoryAndVerify` as `mapToProps` |
| `WrapMapToProps.ProxyCall` | src/connect/wrapMapToProps.js:56-60 | after any call, including one that throws, the proxy calls a plain function; a proxy already calling a plain function is unchanged and makes exactly one call; the call ends as the last user call ended, returning or throwing |
| `WrapMapToProps.DetectFactoryAndVerify` | src/connect/wrapMapToProps.js:67-100 | the user function is put in place and called under its own flag; a returned function becomes `mapToProps`, its flag is re-inferred and it is called with the same arguments; otherwise the user function stays; when the first call throws, the proxy already calls the user function directly and the throw is passed on |
| `WrapMapToProps.FirstCallDetectsFactory` | src/connect/wrapMapToProps.js:64-93 | the first call of a fresh proxy gives `ownProps` to detection, so the user function receives them iff its policy says so; the resulting proxy state and calls, whether the first call returned a function, returned something else or threw |
| `WrapMapToProps.LaterCallsAreDirect` | src/connect/wrapMapToProps.js:56-60 | once detection is done, a call makes one direct call, forwards `ownProps` iff the flag is set, passes a returned function or a throw on unchanged and does not change the proxy |
| `WrapMapToProps.ThrowingFirstCallSkipsDetection` | src/connect/wrapMapToProps.js:69-73 | when the first call of a fresh proxy throws, detection never happens: every call of the run goes straight to the user function under its own policy, and a function it later returns is passed on as props, not taken for a factory |
| `WrapMapToProps.DetectionHappensOnce` | src/connect/wrapMapToProps.js:56-69 | over any sequence of later calls the proxy state is fixed and each input costs exactly one direct call |
| `WrapMapToProps.FreshProxyRun` | src/connect/wrapMapToProps.js:55-104 | over a run from a fresh proxy, only the first input can make two user calls; the final proxy is the one the first call produced |
| `MergeProps.DefaultMergeProps` | src/connect/mergeProps.js:3-6 | the union of the keys of the three props objects, with precedence dispatch over state over own |
| `MergeProps.DefaultMergePropsIsPrecedence` | src/connect/mergeProps.js:3-6 | each key of the merge is taken from the first of dispatch, state, own props that has it, and only such keys appear |
| `MergeProps.InitMergePropsProxy` | src/connect/mergeProps.js:9-15 | a fresh proxy keeps `pure` and `areMergedPropsEqual` and has not run yet |
| `MergeProps.MergePropsProxy` | src/connect/mergeProps.js:16-38 | the user `mergeProps` is called on every call with the proxy's arguments; a throw passes through before `hasRunOnce` or the cache change; the first call that returns caches and returns its result; later, the cached reference is returned iff `pure` and `areMergedPropsEqual(next, cached)`, otherwise the new result replaces it; what is returned is what is cached |
| `MergeProps.MergeRunCallsEveryTime` | src/connect/mergeProps.js:16-38 | over any run, the user calls are exactly the inputs, and each outcome is the fresh one or, under `pure`, a returned value the predicate judged equal to the fresh result |
| `MergeProps.ImpureNeverMemoises` | src/connect/mergeProps.js:24-25 | without `pure`, every outcome is the fresh one |
| `MergeProps.ThrowsBeforeFirstRunAreNotCached` | src/connect/mergeProps.js:17-31 | calls that throw before any call returned leave the proxy fresh, so the first call that returns is taken as it is, without a comparison |
| `MergeProps.WhenMergePropsIsFunction` | src/connect/mergeProps.js:42-46 | matches exactly functions, wrapping them; otherwise undefined |
| `MergeProps.WhenMergePropsIsOmitted` | src/connect/mergeProps.js:48-52 | matches exactly falsy values, giving the initializer for `defaultMergeProps`; otherwise undefined |
| `MergeProps.MergeFactoriesExclusive` | src/connect/mergeProps.js:42-52 | the two factories never both match, and a truthy non-function matches neither |
| `MapDispatchToProps.WhenMapDispatchToPropsIsFunction` | src/connect/mapDispatchToProps.js:4-8 | matches exactly functions, giving `wrapMapToPropsFunc(arg, 'mapDispatchToProps')` |
| `MapDispatchToProps.WhenMapDispatchToPropsIsMissing` | src/connect/mapDispatchToProps.js:10-16 | matches exactly falsy values, giving the constant `{ dispatch }` |
| `MapDispatchToProps.WhenMapDispatchToPropsIsObject` | src/connect/mapDispatchToProps.js:22-26 | matches exactly truthy values whose `typeof` is "object", giving the constant from `bindActionCreators` |
| `JsValues.TypeOfClassifies` | src/connect/mapDispatchToProps.js:23 | `typeof` says "function" exactly for functions and "object" exactly for `null` and objects, and the only falsy "object" is `null`; this is why `mapDispatchToProps && typeof … === 'object'` excludes `null` |
| `MapDispatchToProps.MapDispatchFactoriesExclusive` | src/connect/mapDispatchToProps.js:4-32 | in the default list no two factories match the same value, `null` is caught only by "missing", and a truthy primitive matches none |
| `Connect.MatchFrom` | src/connect/connect.js:36-45 | the reference definition of the loop: among the first `k` factories, the result is found iff one matches, and then it is the match with the highest index; otherwise it is the fallback naming `typeof arg` and the argument name |
| `Connect.Match` | src/connect/connect.js:36-45 | the factories are tried from the last index down; the result is found iff some factory matches, and then it is the match with the highest index; otherwise it is the throwing fallback naming `typeof arg` and the argument name |
| `Connect.Initialize` | src/connect/connect.js:42-44 | the fallback throws only when the initializer is invoked, with the message naming the type, the argument and the wrapped component |
| `Connect.InvalidMessageNamesTypeAndArgument` | src/connect/connect.js:43 | the error message starts with the argument's type and name and ends with the component name |
| `Connect.MatchDefaultMapDispatchToProps` | src/connect/connect.js:76 | with the default list [function, missing, object], a function is proxied, a falsy value gives `{ dispatch }`, an object is bound, anything else throws when invoked |
| `Connect.MatchDefaultMergeProps` | src/connect/connect.js:77 | with the default mergeProps list, a function is wrapped, a falsy value gives `defaultMergeProps`, anything else throws when invoked |
| `Connect.OrDefault` | src/connect/connect.js:67-71 | a destructuring default applies exactly when the option is absent or undefined (`null` and `false` are kept) |
| `Connect.ExtraOptions` | src/connect/connect.js:72 | the extra options are every caller key except the five destructured ones |
| `Connect.GetDisplayName` | src/connect/connect.js:84 | the display name is `Connect(` + name + `)` and gives the name back |
| `Connect.Built` | src/connect/connect.js:79-98 | before the extras, the record has `methodName 'connect'`, the display-name function, `shouldHandleStateChanges = Boolean(mapStateToProps)`, the three initializers and the five comparison options with defaults `pure = true`, strict equality, and shallowEqual three times |
| `Connect.SpreadExtras` | src/connect/connect.js:100-101 | the extras are spread last: every extra key overrides, the other keys keep their built value |
| `Connect.BuildOptions` | src/connect/connect.js:79-102 | the options record: the built keys plus the extras, extras winning, defaults as above |
| `Connect.DefaultFactories` | src/connect/connect.js:51-57 | `createConnect()` uses the default mapDispatchToProps and mergeProps lists |
| `Connect.Connect` | src/connect/connect.js:58-103 | `connect` matches each of its three arguments against its list and returns the options record; with no options object, `pure` is true and `areStatesEqual` is strict equality |
| `ConnectAdvanced.MakeSelectorStateful` | src/components/connectAdvanced.js:13-33 | a new stateful selector has no props, no error, the flag down, and a live `run` |
| `JsValues.StrictEqualsIsPartialIdentity` | src/components/connectAdvanced.js:20 | `===` as the selector uses it is identity on everything except `NaN`, which equals nothing, itself included |
| `ConnectAdvanced.Run` | src/components/connectAdvanced.js:16-29 | a returned value is cached with no pending error, and the flag is raised iff the reference differs or an error was pending; a throw records the error, raises the flag and keeps the props; the flag is never lowered; after unmount `run` is a no-op |
| `ConnectAdvanced.RunSameReferenceIsNoOp` | src/components/connectAdvanced.js:20 | the same reference with no pending error changes nothing |
| `ConnectAdvanced.NaNPropsAlwaysUpdate` | src/components/connectAdvanced.js:20 | since `NaN !== NaN`, a selector returning `NaN` raises the flag every time, even when `NaN` is cached |
| `ConnectAdvanced.RunAllTracksLastOutcome` | src/components/connectAdvanced.js:16-29 | after any runs, an error is pending iff the last run threw a truthy value, the props are those of the last run if it returned, and a raised flag stays raised |
| `ConnectAdvanced.Construct` | src/components/connectAdvanced.js:131-157 | construction ends with the missing-store error iff neither props nor context has a store; otherwise it ends with what `selectorFactory` threw iff that call threw (this is where `match`'s fallback throws); otherwise `propsMode` is whether props had the store, the selector has run once, and when handling state changes a new unsubscribed node is created whose parent is read from the same place as the store |
| `ConnectAdvanced.GetChildContext` | src/components/connectAdvanced.js:159-170 | in props mode the context subscription passes through; otherwise the instance's own subscription, falling back to the context's |
| `ConnectAdvanced.DidMount` | src/components/connectAdvanced.js:172-190 | without state handling nothing happens; otherwise the node is subscribed, the selector re-runs, and `forceUpdate` is requested iff the flag is then set |
| `ConnectAdvanced.ReceiveProps` | src/components/connectAdvanced.js:192-195 | new props only re-run the selector |
| `ConnectAdvanced.UpdateIffSelectorChanged` | src/components/connectAdvanced.js:192-200 | after new props, `shouldComponentUpdate` answers true exactly when an update was already due, the selector threw, it returned a different reference, or an error was pending; after unmount it answers false |
| `ConnectAdvanced.AddExtraProps` | src/components/connectAdvanced.js:316-333 | the same props object iff there is no `withRef`, no truthy `renderCountProp` and no props-mode subscription; otherwise a copy with the ref, the post-incremented render count under `renderCountProp`, and the subscription under `storeKey + 'Subscription'` |
| `ConnectAdvanced.Render` | src/components/connectAdvanced.js:335-347 | render lowers the flag, throws iff the pending error is truthy, and otherwise renders `addExtraProps(selector.props)` |
| `ConnectAdvanced.CallNotifyNestedSubs` | src/components/connectAdvanced.js:252-261 | the bound method notifies the node's collection and reports its children's listeners; after unmount it is a no-op |
| `ConnectAdvanced.OnStateChange` | src/components/connectAdvanced.js:264-295 | the selector re-runs; with the flag down the children are notified at once; with the flag up the one-shot hook is armed and `setState` requested, and nothing is notified |
| `ConnectAdvanced.DidUpdate` | src/components/connectAdvanced.js:297-306 | an armed hook disarms itself and notifies the children; otherwise there is no `componentDidUpdate` and nothing happens |
| `ConnectAdvanced.Unmount` | src/components/connectAdvanced.js:202-214 | the subscription is unsubscribed and dropped, `notifyNestedSubs` and `run` become no-ops, and the flag is lowered |
| `ConnectAdvanced.InstanceIsSubscribed` | src/components/connectAdvanced.js:308-314 | subscribed iff the instance has a subscription and it is subscribed; never without state handling |
| `ConnectAdvanced.AfterUnmount` | src/components/connectAdvanced.js:202-214 | after unmount the instance is not subscribed, the flag is down, and a state change or new props change nothing |
| `ConnectAdvanced.DeferredNotificationFiresOnce` | src/components/connectAdvanced.js:264-306 | a state change that needs an update notifies nothing until `componentDidUpdate`, which notifies the children once and disarms, so a second did-update does nothing |
| `ConnectAdvanced.UnchangedNotifiesSynchronously` | src/components/connectAdvanced.js:264-271 | a state change with nothing to update notifies the children's listeners at once and arms no hook |
| `ConnectAdvanced.ErrorThrownUntilRunReturns` | src/components/connectAdvanced.js:335-347 | after the selector throws, the cached props are kept and every render rethrows the error until a run returns, which forces an update and renders the new props |

## Left out

- The hot-reload path (`hotReloadingVersion`, `version` and the development-only `componentWillUpdate`) is not modelled. It is development tooling.
- `src/components/Provider.js` is not part of this model. A root is a node whose parent is `None`.
- React itself is not modelled: lifecycle dispatch, `setState`, `forceUpdate`, `createElement`, context plumbing and `hoistStatics`. They are events and effects.
- Reference plumbing is not modelled: `withRef`, `getWrappedInstance` and `setWrappedInstance` reduce to a flag saying the copy gets a `ref`.
- Development diagnostics are not modelled: `verifyPlainObject`, `warning`, PropTypes, and the `invariant` message texts. A missing store makes `Construct` end in `MissingStore`, without the message. The check that `wrapWithConnect` receives a component is not modelled.
- redux's `bindActionCreators`, `shallowEqual` and mapStateToProps.js are not part of this model. They are parameters or markers (`ShallowEqual`, `External` getters, the `mapStateToProps` factory list).
- `selectorFactory` (selectorFactory.js) is not part of this model. `Construct` takes how its call ends as the parameter `factory`, and each run of the source selector it builds is an `Outcome` parameter. That the call throws exactly when one of the three initializers is `match`'s fallback is not stated, because it happens inside selectorFactory.js.
- The redux store is not modelled. It is reduced to its list of subscriptions with their `isSubscribed` flags. `StoreListeners` gives the roots it would call; its own dispatch and listener loop are not modelled.
- Cross-collection cascades are not modelled. A pass invokes the listeners of one collection. Each listener's effect on that collection is a list of operations (subscribe, unsubscribe, clear, throw). What a listener does elsewhere (another component's `onStateChange`) is the host's to sequence, from the `Notified` effect.
- A listener calling `notify()` on the same collection while its pass runs (nested re-entrant notify) is not among the operations.
- `Subscription.AddNestedSub` is modelled for a child node's `onStateChange` only. That is its only use in the core; the hot-reload path's direct re-subscription of copied listeners is out.
- Subscribing to or notifying a cleared collection is not modelled as a plain call. In JavaScript it throws a TypeError (`null.slice`, `null.length`). `Listeners.Subscribe` and `Listeners.Notify` require a collection that is not cleared. In the notify pass, a subscribe on a cleared collection is a throw that ends the pass (`Listeners.ApplyOp`, `Listeners.AbsThrows`).
- `ConnectAdvanced.OnStateChange` requires `shouldHandleStateChanges`. Only the instance's own subscription ever calls it, and that exists only then.
- `ConnectAdvanced.DidMount` requires a mounted (not yet unmounted) instance. After unmount `this.subscription` is null and the source would fail on it; React never mounts an unmounted instance.
- `ConnectAdvanced.Construct` requires the subscriptions found in props and context to be nodes of the world. A value there that is not a `Subscription` is not modelled.
- Setting `this.store = null` on unmount is not modelled: nothing outside the hot-reload path reads it afterwards.
- `selectorFactoryOptions` and the other `connectAdvanced` option defaults are not modelled. The instance reads `shouldHandleStateChanges`, `withRef`, `renderCountProp` and `storeKey` from `Config`.
- `Connect.Connect` takes an omitted options object as `None`. A `null` fourth argument makes JavaScript's destructuring throw, and that is not modelled.
- Numbers are integers plus `NaN`. Floating point is not modelled.
- `MapDispatchToProps.DefaultMapDispatchToPropsFactories` only states the length of the list, and `MergeProps.DefaultMergePropsFactories` has no contract of its own. The order of their entries is stated through `Connect.MatchDefaultMapDispatchToProps` and `Connect.MatchDefaultMergeProps`.
