/**
 * The subscription tree (class `Subscription` in src/utils/Subscription.js).
 *
 * Every node and every listener collection lives in one `World`. Node ids are
 * creation order; a node's parent subscription always exists before the node
 * (a parent component is constructed before its children), so `parent < id`,
 * which is also what makes the recursive `trySubscribe` terminate.
 *
 * A listener registered in a collection is the id of the node whose
 * `onStateChange` it is. The store (redux) is outside the core: it is reduced
 * to its list of subscriptions, each with the `isSubscribed` flag of its
 * unsubscribe closure.
 */
module Subscription {
  import opened Wrappers
  import opened Listeners

  type NodeId = nat

  /** The unsubscribe closure a node holds: a handle into its parent's
      collection (index `coll` of the world), or one of the store's. */
  datatype Unsub = FromParent(coll: nat, handle: nat) | FromStore(handle: nat)

  /** `listeners == None` is `nullListeners`; otherwise it names the node's
      own collection. */
  datatype Node = Node(parent: Option<NodeId>, unsubscribe: Option<Unsub>, listeners: Option<nat>)

  datatype StoreSub = StoreSub(listener: NodeId, isSubscribed: bool)

  /** `owners[c]` is the node that created collection `c`. */
  datatype World = World(nodes: seq<Node>, colls: seq<Collection<NodeId>>, owners: seq<NodeId>, store: seq<StoreSub>)

  // ---------------------------------------------------------------------------
  // Invariant
  // ---------------------------------------------------------------------------

  predicate ChildOf(w: World, m: NodeId, p: NodeId) {
    m < |w.nodes| && w.nodes[m].parent == Some(p)
  }

  ghost predicate NodeOk(w: World, n: NodeId) {
    && n < |w.nodes|
    && |w.owners| == |w.colls|
    && var nd := w.nodes[n];
    && (nd.parent.Some? ==> nd.parent.value < n)
    && (nd.unsubscribe.Some? <==> nd.listeners.Some?)
    && (nd.listeners.Some? ==>
          && nd.listeners.value < |w.colls|
          && w.owners[nd.listeners.value] == n
          && !w.colls[nd.listeners.value].Cleared())
    && (nd.unsubscribe.Some? && nd.unsubscribe.value.FromParent? ==>
          && nd.parent.Some?
          && nd.unsubscribe.value.coll < |w.colls|
          && w.owners[nd.unsubscribe.value.coll] == nd.parent.value
          && nd.unsubscribe.value.handle < |w.colls[nd.unsubscribe.value.coll].handles|
          && w.colls[nd.unsubscribe.value.coll].handles[nd.unsubscribe.value.handle] == Handle(n, true))
    && (nd.unsubscribe.Some? && nd.unsubscribe.value.FromStore? ==>
          && nd.parent.None?
          && nd.unsubscribe.value.handle < |w.store|
          && w.store[nd.unsubscribe.value.handle] == StoreSub(n, true))
  }

  /** Every handle ever issued by collection `c` belongs to a child of its owner. */
  ghost predicate CollOk(w: World, c: nat) {
    && c < |w.colls|
    && c < |w.owners|
    && w.owners[c] < |w.nodes|
    && Inv(w.colls[c])
    && forall j :: 0 <= j < |w.colls[c].handles| ==> ChildOf(w, w.colls[c].handles[j].listener, w.owners[c])
  }

  /** Only roots subscribe to the store. */
  ghost predicate StoreSubOk(w: World, h: nat) {
    h < |w.store| && w.store[h].listener < |w.nodes| && w.nodes[w.store[h].listener].parent.None?
  }

  ghost predicate WorldInv(w: World) {
    && |w.owners| == |w.colls|
    && (forall n :: 0 <= n < |w.nodes| ==> NodeOk(w, n))
    && (forall c :: 0 <= c < |w.colls| ==> CollOk(w, c))
    && (forall h :: 0 <= h < |w.store| ==> StoreSubOk(w, h))
  }

  /** Same nodes with the same parents. */
  predicate SameTree(w: World, r: World) {
    && |r.nodes| == |w.nodes|
    && forall m :: 0 <= m < |w.nodes| ==> r.nodes[m].parent == w.nodes[m].parent
  }

  /** Node parents never change and nodes are never removed. */
  predicate ParentsKept(w: World, r: World) {
    && |w.nodes| <= |r.nodes|
    && forall m :: 0 <= m < |w.nodes| ==> r.nodes[m].parent == w.nodes[m].parent
  }

  /** Handle `h` of collection `c` exists in both worlds and is unchanged. */
  predicate HandleKept(w: World, r: World, c: nat, h: nat) {
    && c < |w.colls| && c < |r.colls|
    && h < |w.colls[c].handles| && h < |r.colls[c].handles|
    && r.colls[c].handles[h] == w.colls[c].handles[h]
  }

  function Empty(): (w: World)
    ensures WorldInv(w)
  {
    World([], [], [], [])
  }

  // ---------------------------------------------------------------------------
  // Frame lemmas
  // ---------------------------------------------------------------------------

  lemma NodeOkFrame(w: World, r: World, n: NodeId)
    requires NodeOk(w, n) && n < |r.nodes| && r.nodes[n] == w.nodes[n]
    requires |r.owners| == |r.colls| && |w.colls| <= |r.colls|
    requires forall k :: 0 <= k < |w.colls| ==> r.owners[k] == w.owners[k]
    requires w.nodes[n].listeners.Some? ==> !r.colls[w.nodes[n].listeners.value].Cleared()
    requires w.nodes[n].unsubscribe.Some? && w.nodes[n].unsubscribe.value.FromParent? ==>
      HandleKept(w, r, w.nodes[n].unsubscribe.value.coll, w.nodes[n].unsubscribe.value.handle)
    requires w.nodes[n].unsubscribe.Some? && w.nodes[n].unsubscribe.value.FromStore? ==>
      w.nodes[n].unsubscribe.value.handle < |r.store|
      && r.store[w.nodes[n].unsubscribe.value.handle] == w.store[w.nodes[n].unsubscribe.value.handle]
    ensures NodeOk(r, n)
  {
  }

  lemma CollOkFrame(w: World, r: World, c: nat)
    requires CollOk(w, c) && ParentsKept(w, r)
    requires c < |r.colls| && c < |r.owners| && r.owners[c] == w.owners[c]
    requires Inv(r.colls[c])
    requires |r.colls[c].handles| == |w.colls[c].handles|
    requires forall j :: 0 <= j < |w.colls[c].handles| ==>
      r.colls[c].handles[j].listener == w.colls[c].handles[j].listener
    ensures CollOk(r, c)
  {
    forall j | 0 <= j < |r.colls[c].handles|
      ensures ChildOf(r, r.colls[c].handles[j].listener, r.owners[c])
    {
      assert ChildOf(w, w.colls[c].handles[j].listener, w.owners[c]);
    }
  }

  lemma StoreSubOkFrame(w: World, r: World, h: nat)
    requires StoreSubOk(w, h) && ParentsKept(w, r)
    requires h < |r.store| && r.store[h].listener == w.store[h].listener
    ensures StoreSubOk(r, h)
  {
  }

  // ---------------------------------------------------------------------------
  // Steps
  // ---------------------------------------------------------------------------

  /** `new Subscription(store, parentSub, onStateChange)`: not subscribed,
      listening through `nullListeners`. */
  function NewNode(w: World, parent: Option<NodeId>): (r: (World, NodeId))
    requires WorldInv(w)
    requires parent.Some? ==> parent.value < |w.nodes|
    ensures WorldInv(r.0)
    ensures r.1 == |w.nodes| && r.0.nodes == w.nodes + [Node(parent, None, None)]
    ensures r.0.colls == w.colls && r.0.store == w.store
  {
    var r := w.(nodes := w.nodes + [Node(parent, None, None)]);
    NewNodeInv(w, parent);
    (r, |w.nodes|)
  }

  lemma NewNodeInv(w: World, parent: Option<NodeId>)
    requires WorldInv(w)
    requires parent.Some? ==> parent.value < |w.nodes|
    ensures WorldInv(w.(nodes := w.nodes + [Node(parent, None, None)]))
  {
    var r := w.(nodes := w.nodes + [Node(parent, None, None)]);
    forall m | 0 <= m < |r.nodes| ensures NodeOk(r, m) {
      if m < |w.nodes| { NodeOkFrame(w, r, m); }
    }
    forall c | 0 <= c < |r.colls| ensures CollOk(r, c) { CollOkFrame(w, r, c); }
    forall h | 0 <= h < |r.store| ensures StoreSubOk(r, h) { StoreSubOkFrame(w, r, h); }
  }

  predicate IsSubscribed(w: World, n: NodeId)
    requires n < |w.nodes|
  {
    w.nodes[n].unsubscribe.Some?
  }

  /** `isSubscribed()` is true exactly when the node is registered: a child
      holds an active handle in its parent's collection, a root an active
      store subscription, and either way the node has its own collection
      instead of `nullListeners`. */
  lemma IsSubscribedMeansRegistered(w: World, n: NodeId)
    requires WorldInv(w) && n < |w.nodes|
    ensures IsSubscribed(w, n) <==> w.nodes[n].listeners.Some?
    ensures IsSubscribed(w, n) && w.nodes[n].parent.Some? ==>
      exists c, h :: 0 <= c < |w.colls| && w.owners[c] == w.nodes[n].parent.value
                     && 0 <= h < |w.colls[c].handles| && w.colls[c].handles[h] == Handle(n, true)
    ensures IsSubscribed(w, n) && w.nodes[n].parent.None? ==>
      exists h :: 0 <= h < |w.store| && w.store[h] == StoreSub(n, true)
  {
    assert NodeOk(w, n);
    if IsSubscribed(w, n) {
      match w.nodes[n].unsubscribe.value
      case FromParent(c, h) =>
        assert w.colls[c].handles[h] == Handle(n, true);
      case FromStore(h) =>
        assert w.store[h] == StoreSub(n, true);
    }
  }

  /** `store.subscribe(onStateChange)` for a root. */
  function StoreSubscribe(w: World, n: NodeId): (r: (World, Unsub))
    requires WorldInv(w) && n < |w.nodes| && w.nodes[n].parent.None?
    ensures WorldInv(r.0) && r.0.nodes == w.nodes && r.0.colls == w.colls && r.0.owners == w.owners
    ensures r.0.store == w.store + [StoreSub(n, true)] && r.1 == FromStore(|w.store|)
  {
    StoreSubscribeInv(w, n);
    (w.(store := w.store + [StoreSub(n, true)]), FromStore(|w.store|))
  }

  lemma StoreSubscribeInv(w: World, n: NodeId)
    requires WorldInv(w) && n < |w.nodes| && w.nodes[n].parent.None?
    ensures WorldInv(w.(store := w.store + [StoreSub(n, true)]))
  {
    var r := w.(store := w.store + [StoreSub(n, true)]);
    forall m | 0 <= m < |r.nodes| ensures NodeOk(r, m) { NodeOkFrame(w, r, m); }
    forall c | 0 <= c < |r.colls| ensures CollOk(r, c) { CollOkFrame(w, r, c); }
    forall h | 0 <= h < |r.store| ensures StoreSubOk(r, h) {
      if h < |w.store| { StoreSubOkFrame(w, r, h); }
    }
  }

  /** Add `child` to the live list of `p`'s collection (`listeners.subscribe`). */
  function Register(w: World, p: NodeId, child: NodeId): (r: (World, Unsub))
    requires WorldInv(w) && p < |w.nodes| && IsSubscribed(w, p) && ChildOf(w, child, p)
    ensures WorldInv(r.0) && SameTree(w, r.0) && r.0.nodes == w.nodes && r.0.store == w.store
    ensures |r.0.colls| == |w.colls|
    ensures r.1.FromParent? && Some(r.1.coll) == w.nodes[p].listeners
    ensures r.1.coll < |r.0.colls| && r.1.coll < |r.0.owners| && r.0.owners[r.1.coll] == p
    ensures r.0.colls[r.1.coll].Valid() && w.colls[r.1.coll].Valid()
    ensures r.1.handle < |r.0.colls[r.1.coll].handles|
    ensures r.0.colls[r.1.coll].handles[r.1.handle] == Handle(child, true)
    ensures r.0.colls[r.1.coll].Live() == w.colls[r.1.coll].Live() + [child]
  {
    assert NodeOk(w, p);
    var c := w.nodes[p].listeners.value;
    RegisterInv(w, p, child);
    var (coll, h) := Subscribe(w.colls[c], child);
    (w.(colls := w.colls[c := coll]), FromParent(c, h))
  }

  lemma RegisterInv(w: World, p: NodeId, child: NodeId)
    requires WorldInv(w) && p < |w.nodes| && IsSubscribed(w, p) && ChildOf(w, child, p)
    ensures NodeOk(w, p) && CollOk(w, w.nodes[p].listeners.value)
    ensures WorldInv(w.(colls := w.colls[w.nodes[p].listeners.value := Subscribe(w.colls[w.nodes[p].listeners.value], child).0]))
  {
    assert NodeOk(w, p);
    var c := w.nodes[p].listeners.value;
    assert CollOk(w, c);
    SubscribeInv(w.colls[c], child);
    var r := w.(colls := w.colls[c := Subscribe(w.colls[c], child).0]);
    forall m | 0 <= m < |r.nodes| ensures NodeOk(r, m) {
      assert NodeOk(w, m);
      NodeOkFrame(w, r, m);
    }
    forall k | 0 <= k < |r.colls| ensures CollOk(r, k) {
      if k != c {
        CollOkFrame(w, r, k);
      } else {
        forall j | 0 <= j < |r.colls[c].handles|
          ensures ChildOf(r, r.colls[c].handles[j].listener, r.owners[c])
        {
          if j < |w.colls[c].handles| {
            assert ChildOf(w, w.colls[c].handles[j].listener, w.owners[c]);
          }
        }
      }
    }
    forall h | 0 <= h < |r.store| ensures StoreSubOk(r, h) { StoreSubOkFrame(w, r, h); }
  }

  /** The end of `trySubscribe()`: store the closure `u` and give the node a
      fresh listener collection. */
  function Install(w: World, n: NodeId, u: Unsub): (r: World)
    requires WorldInv(w) && n < |w.nodes| && !IsSubscribed(w, n)
    requires UnsubFor(w, n, u)
    ensures WorldInv(r) && SameTree(w, r)
    ensures r.nodes[n] == Node(w.nodes[n].parent, Some(u), Some(|w.colls|))
    ensures r.colls == w.colls + [Create()] && r.store == w.store
    ensures forall m :: 0 <= m < |w.nodes| && m != n ==> r.nodes[m] == w.nodes[m]
  {
    InstallInv(w, n, u);
    World(w.nodes[n := Node(w.nodes[n].parent, Some(u), Some(|w.colls|))],
          w.colls + [Create()], w.owners + [n], w.store)
  }

  /** `u` is a live registration of `n` of the right kind for its position. */
  ghost predicate UnsubFor(w: World, n: NodeId, u: Unsub)
    requires n < |w.nodes|
  {
    match u
    case FromParent(c, h) =>
      && w.nodes[n].parent.Some?
      && c < |w.colls| && c < |w.owners| && w.owners[c] == w.nodes[n].parent.value
      && h < |w.colls[c].handles| && w.colls[c].handles[h] == Handle(n, true)
    case FromStore(h) =>
      && w.nodes[n].parent.None?
      && h < |w.store| && w.store[h] == StoreSub(n, true)
  }

  lemma InstallInv(w: World, n: NodeId, u: Unsub)
    requires WorldInv(w) && n < |w.nodes| && !IsSubscribed(w, n)
    requires UnsubFor(w, n, u)
    ensures WorldInv(World(w.nodes[n := Node(w.nodes[n].parent, Some(u), Some(|w.colls|))],
                           w.colls + [Create()], w.owners + [n], w.store))
  {
    var r := World(w.nodes[n := Node(w.nodes[n].parent, Some(u), Some(|w.colls|))],
                   w.colls + [Create()], w.owners + [n], w.store);
    forall m | 0 <= m < |r.nodes| ensures NodeOk(r, m) {
      assert NodeOk(w, m);
      if m != n { NodeOkFrame(w, r, m); }
    }
    forall k | 0 <= k < |r.colls| ensures CollOk(r, k) {
      if k < |w.colls| { CollOkFrame(w, r, k); }
    }
    forall h | 0 <= h < |r.store| ensures StoreSubOk(r, h) { StoreSubOkFrame(w, r, h); }
  }

  // ---------------------------------------------------------------------------
  // Operations
  // ---------------------------------------------------------------------------

  /** `trySubscribe()`: when not yet subscribed, register `onStateChange` in
      the parent (via `addNestedSub`) or with the store, then create a fresh
      listener collection. Otherwise nothing happens. */
  function TrySubscribe(w: World, n: NodeId): (r: World)
    requires WorldInv(w) && n < |w.nodes|
    ensures WorldInv(r) && SameTree(w, r)
    ensures IsSubscribed(r, n)
    ensures IsSubscribed(w, n) ==> r == w
    ensures |w.colls| <= |r.colls| && |w.store| <= |r.store|
    ensures forall m :: 0 <= m < |w.nodes| && IsSubscribed(w, m) ==> r.nodes[m] == w.nodes[m]
    ensures forall m :: n < m < |w.nodes| ==> r.nodes[m] == w.nodes[m]
    ensures w.store <= r.store
    // subscribing creates a fresh, empty collection for the node
    ensures !IsSubscribed(w, n) ==>
      && r.nodes[n].listeners == Some(|r.colls| - 1)
      && r.colls[|r.colls| - 1] == Create()
    // a root registers with the store
    ensures !IsSubscribed(w, n) && w.nodes[n].parent.None? ==>
      && r.nodes[n].unsubscribe == Some(FromStore(|w.store|))
      && r.store == w.store + [StoreSub(n, true)]
    // a child registers in its parent's collection, and leaves the parent subscribed
    ensures !IsSubscribed(w, n) && w.nodes[n].parent.Some? && w.nodes[n].parent.value < n ==>
      && IsSubscribed(r, w.nodes[n].parent.value)
      && r.nodes[n].unsubscribe.value.FromParent?
      && Some(r.nodes[n].unsubscribe.value.coll) == r.nodes[w.nodes[n].parent.value].listeners
      && r.nodes[n].unsubscribe.value.coll < |r.colls|
      && r.nodes[n].unsubscribe.value.handle < |r.colls[r.nodes[n].unsubscribe.value.coll].handles|
      && r.colls[r.nodes[n].unsubscribe.value.coll].handles[r.nodes[n].unsubscribe.value.handle] == Handle(n, true)
    // ... and with an already subscribed parent the store is not touched
    ensures !IsSubscribed(w, n) && w.nodes[n].parent.Some? && w.nodes[n].parent.value < n
            && IsSubscribed(w, w.nodes[n].parent.value) ==>
      && r.store == w.store
      && w.nodes[w.nodes[n].parent.value].listeners.value < |w.colls|
      && w.colls[w.nodes[w.nodes[n].parent.value].listeners.value].Valid()
      && r.colls[w.nodes[w.nodes[n].parent.value].listeners.value].Valid()
      && r.colls[w.nodes[w.nodes[n].parent.value].listeners.value].Live()
         == w.colls[w.nodes[w.nodes[n].parent.value].listeners.value].Live() + [n]
    decreases n, 1
  {
    if w.nodes[n].unsubscribe.Some? then w
    else
      assert NodeOk(w, n);
      if w.nodes[n].parent.None? then SubscribeRoot(w, n) else SubscribeChild(w, n)
  }

  /** `trySubscribe()` for a root that is not yet subscribed. */
  function SubscribeRoot(w: World, n: NodeId): (r: World)
    requires WorldInv(w) && n < |w.nodes| && !IsSubscribed(w, n) && w.nodes[n].parent.None?
    ensures WorldInv(r) && SameTree(w, r) && IsSubscribed(r, n)
    ensures r.nodes[n].listeners == Some(|r.colls| - 1) && r.colls[|r.colls| - 1] == Create()
    ensures |w.colls| <= |r.colls|
    ensures forall m :: 0 <= m < |w.nodes| && m != n ==> r.nodes[m] == w.nodes[m]
    ensures r.nodes[n].unsubscribe == Some(FromStore(|w.store|))
    ensures r.store == w.store + [StoreSub(n, true)]
  {
    var (w1, u) := StoreSubscribe(w, n);
    Install(w1, n, u)
  }

  /** `trySubscribe()` for a child that is not yet subscribed. */
  function SubscribeChild(w: World, n: NodeId): (r: World)
    requires WorldInv(w) && n < |w.nodes| && !IsSubscribed(w, n) && w.nodes[n].parent.Some?
    ensures WorldInv(r) && SameTree(w, r) && IsSubscribed(r, n)
    ensures r.nodes[n].listeners == Some(|r.colls| - 1) && r.colls[|r.colls| - 1] == Create()
    ensures |w.colls| <= |r.colls| && |w.store| <= |r.store| && w.store <= r.store
    ensures forall m :: 0 <= m < |w.nodes| && IsSubscribed(w, m) ==> r.nodes[m] == w.nodes[m]
    ensures forall m :: n < m < |w.nodes| ==> r.nodes[m] == w.nodes[m]
    ensures ChildRegistered(w, r, n)
    decreases n, 0
  {
    assert NodeOk(w, n);
    var (w1, u) := AddNestedSub(w, w.nodes[n].parent.value, n);
    Install(w1, n, u)
  }

  /** After `trySubscribe()` of child `n`: its parent is subscribed and holds
      a live handle for `n` in its collection; if the parent already was
      subscribed, the store is untouched and `n` went to the end of the
      parent's live list. */
  ghost predicate ChildRegistered(w: World, r: World, n: NodeId)
    requires n < |w.nodes| && SameTree(w, r) && w.nodes[n].parent.Some?
  {
    var p := w.nodes[n].parent.value;
    && p < n
    && IsSubscribed(r, p)
    && r.nodes[n].unsubscribe.Some? && r.nodes[n].unsubscribe.value.FromParent?
    && var u := r.nodes[n].unsubscribe.value;
    && Some(u.coll) == r.nodes[p].listeners
    && u.coll < |r.colls|
    && u.handle < |r.colls[u.coll].handles|
    && r.colls[u.coll].handles[u.handle] == Handle(n, true)
    && (IsSubscribed(w, p) ==>
          && r.store == w.store
          && w.nodes[p].listeners.Some?
          && var c := w.nodes[p].listeners.value;
          && c < |w.colls| && c < |r.colls|
          && w.colls[c].Valid() && r.colls[c].Valid()
          && r.colls[c].Live() == w.colls[c].Live() + [n])
  }

  /** `addNestedSub(listener)`: subscribe this node first, then add the
      child's `onStateChange` to its collection. Within the core the only
      listener ever passed is a child's. */
  function AddNestedSub(w: World, p: NodeId, child: NodeId): (r: (World, Unsub))
    requires WorldInv(w) && p < |w.nodes| && ChildOf(w, child, p)
    ensures WorldInv(r.0) && SameTree(w, r.0)
    ensures IsSubscribed(r.0, p)
    ensures r.1.FromParent? && Some(r.1.coll) == r.0.nodes[p].listeners
    ensures r.1.coll < |r.0.colls| && r.1.coll < |r.0.owners| && r.0.owners[r.1.coll] == p
    ensures r.0.colls[r.1.coll].Valid() && (r.1.coll < |w.colls| ==> w.colls[r.1.coll].Valid())
    ensures r.1.handle < |r.0.colls[r.1.coll].handles|
    ensures r.0.colls[r.1.coll].handles[r.1.handle] == Handle(child, true)
    ensures |w.colls| <= |r.0.colls| && |w.store| <= |r.0.store|
    ensures forall m :: 0 <= m < |w.nodes| && IsSubscribed(w, m) ==> r.0.nodes[m] == w.nodes[m]
    ensures forall m :: p < m < |w.nodes| ==> r.0.nodes[m] == w.nodes[m]
    ensures w.store <= r.0.store
    ensures IsSubscribed(w, p) ==>
      && r.1.coll < |w.colls|
      && r.0.store == w.store
      && r.0.colls[r.1.coll].Live() == w.colls[r.1.coll].Live() + [child]
    decreases p, 2
  {
    var w1 := TrySubscribe(w, p);
    var (w2, u) := Register(w1, p, child);
    assert u.coll < |w.colls| ==> CollOk(w, u.coll);
    (w2, u)
  }

  /** `notifyNestedSubs()`: notify the node's own collection; with
      `nullListeners` nothing happens. Returns the snapshot to invoke. */
  function NotifyNestedSubs(w: World, n: NodeId): (r: (World, seq<NodeId>))
    requires WorldInv(w) && n < |w.nodes|
    ensures WorldInv(r.0) && SameTree(w, r.0) && r.0.nodes == w.nodes && r.0.store == w.store
    ensures !IsSubscribed(w, n) ==> r == (w, [])
    ensures IsSubscribed(w, n) ==> NodeOk(w, n) && CollOk(w, w.nodes[n].listeners.value)
    ensures IsSubscribed(w, n) ==> r.1 == w.colls[w.nodes[n].listeners.value].Live()
    ensures forall x :: x in r.1 ==> ChildOf(w, x, n)
  {
    assert NodeOk(w, n);
    if w.nodes[n].listeners.None? then (w, [])
    else
      var c := w.nodes[n].listeners.value;
      assert CollOk(w, c);
      NotifyNestedSubsInv(w, n);
      var (coll, snapshot) := Notify(w.colls[c]);
      LiveAreChildren(w, n);
      (w.(colls := w.colls[c := coll]), snapshot)
  }

  lemma NotifyNestedSubsInv(w: World, n: NodeId)
    requires WorldInv(w) && n < |w.nodes| && w.nodes[n].listeners.Some?
    ensures NodeOk(w, n) && CollOk(w, w.nodes[n].listeners.value)
    ensures WorldInv(w.(colls := w.colls[w.nodes[n].listeners.value := Notify(w.colls[w.nodes[n].listeners.value]).0]))
  {
    assert NodeOk(w, n);
    var c := w.nodes[n].listeners.value;
    assert CollOk(w, c);
    NotifyInv(w.colls[c]);
    var r := w.(colls := w.colls[c := Notify(w.colls[c]).0]);
    forall m | 0 <= m < |r.nodes| ensures NodeOk(r, m) {
      assert NodeOk(w, m);
      NodeOkFrame(w, r, m);
    }
    forall k | 0 <= k < |r.colls| ensures CollOk(r, k) { CollOkFrame(w, r, k); }
    forall h | 0 <= h < |r.store| ensures StoreSubOk(r, h) { StoreSubOkFrame(w, r, h); }
  }

  /** The listeners a subscribed node's collection will notify are its children. */
  lemma LiveAreChildren(w: World, n: NodeId)
    requires WorldInv(w) && n < |w.nodes| && IsSubscribed(w, n)
    ensures NodeOk(w, n) && CollOk(w, w.nodes[n].listeners.value)
    ensures forall x :: x in w.colls[w.nodes[n].listeners.value].Live() ==> ChildOf(w, x, n)
  {
    assert NodeOk(w, n);
    var c := w.nodes[n].listeners.value;
    assert CollOk(w, c);
    forall x | x in w.colls[c].Live() ensures ChildOf(w, x, n) {
      LiveIssued(w.colls[c], x);
      var j :| 0 <= j < |w.colls[c].handles| && w.colls[c].handles[j] == Handle(x, true);
      assert ChildOf(w, w.colls[c].handles[j].listener, w.owners[c]);
    }
  }

  /** Calling the closure `u` that node `n` holds. */
  function CallUnsub(w: World, n: NodeId): (r: World)
    requires WorldInv(w) && n < |w.nodes| && IsSubscribed(w, n)
    ensures NodeOk(w, n)
    ensures r.nodes == w.nodes && r.owners == w.owners && |r.colls| == |w.colls| && |r.store| == |w.store|
  {
    assert NodeOk(w, n);
    var u := w.nodes[n].unsubscribe.value;
    if u.FromParent? then
      assert CollOk(w, u.coll);
      w.(colls := w.colls[u.coll := Unsubscribe(w.colls[u.coll], u.handle)])
    else (
      w.(store := w.store[u.handle := StoreSub(n, false)]))
  }

  /** The rest of `tryUnsubscribe()`: null the closure, clear the node's
      collection and fall back to `nullListeners`. */
  function Detach(w: World, n: NodeId): (r: World)
    requires n < |w.nodes| && w.nodes[n].listeners.Some? && w.nodes[n].listeners.value < |w.colls|
  {
    var own := w.nodes[n].listeners.value;
    w.(colls := w.colls[own := Clear(w.colls[own])],
       nodes := w.nodes[n := Node(w.nodes[n].parent, None, None)])
  }

  /** How `tryUnsubscribe` changes the world, collection by collection. */
  lemma TryUnsubscribeFacts(w: World, n: NodeId)
    requires WorldInv(w) && n < |w.nodes| && IsSubscribed(w, n)
    ensures NodeOk(w, n)
    ensures var u := w.nodes[n].unsubscribe.value;
            var own := w.nodes[n].listeners.value;
            var r := Detach(CallUnsub(w, n), n);
            && CollOk(w, own)
            && (u.FromParent? ==> u.coll != own && CollOk(w, u.coll))
            && r.nodes == w.nodes[n := Node(w.nodes[n].parent, None, None)]
            && r.owners == w.owners && |r.colls| == |w.colls| && |r.store| == |w.store|
            && r.colls[own] == Clear(w.colls[own])
            && (u.FromParent? ==> r.colls[u.coll] == Unsubscribe(w.colls[u.coll], u.handle))
            && (u.FromParent? ==> r.store == w.store)
            && (u.FromStore? ==> r.store == w.store[u.handle := StoreSub(n, false)])
            && (forall k :: 0 <= k < |w.colls| && k != own && !(u.FromParent? && k == u.coll) ==> r.colls[k] == w.colls[k])
  {
    assert NodeOk(w, n);
    var u := w.nodes[n].unsubscribe.value;
    assert CollOk(w, w.nodes[n].listeners.value);
    if u.FromParent? {
      assert CollOk(w, u.coll);
    }
  }

  lemma TryUnsubscribeInv(w: World, n: NodeId)
    requires WorldInv(w) && n < |w.nodes| && IsSubscribed(w, n)
    ensures NodeOk(w, n)
    ensures WorldInv(Detach(CallUnsub(w, n), n))
  {
    TryUnsubscribeFacts(w, n);
    var r := Detach(CallUnsub(w, n), n);
    TryUnsubscribeNodes(w, n);
    TryUnsubscribeColls(w, n);
    forall h | 0 <= h < |r.store| ensures StoreSubOk(r, h) { StoreSubOkFrame(w, r, h); }
  }

  lemma TryUnsubscribeNodes(w: World, n: NodeId)
    requires WorldInv(w) && n < |w.nodes| && IsSubscribed(w, n)
    ensures NodeOk(w, n)
    ensures forall m :: 0 <= m < |w.nodes| ==> NodeOk(Detach(CallUnsub(w, n), n), m)
  {
    TryUnsubscribeFacts(w, n);
    var u := w.nodes[n].unsubscribe.value;
    var r := Detach(CallUnsub(w, n), n);
    forall m | 0 <= m < |r.nodes| ensures NodeOk(r, m) {
      assert NodeOk(w, m);
      if m != n {
        var um := w.nodes[m].unsubscribe;
        if um.Some? && um.value.FromParent? && u.FromParent? && um.value.coll == u.coll {
          assert um.value.handle != u.handle;
        }
        NodeOkFrame(w, r, m);
      }
    }
  }

  lemma TryUnsubscribeColls(w: World, n: NodeId)
    requires WorldInv(w) && n < |w.nodes| && IsSubscribed(w, n)
    ensures NodeOk(w, n)
    ensures forall k :: 0 <= k < |w.colls| ==> CollOk(Detach(CallUnsub(w, n), n), k)
  {
    TryUnsubscribeFacts(w, n);
    var u := w.nodes[n].unsubscribe.value;
    var own := w.nodes[n].listeners.value;
    var r := Detach(CallUnsub(w, n), n);
    forall k | 0 <= k < |r.colls| ensures CollOk(r, k) {
      if k == own {
        ClearInv(w.colls[own]);
      } else if u.FromParent? && k == u.coll {
        UnsubscribeRemovesOne(w.colls[u.coll], u.handle);
      }
      CollOkFrame(w, r, k);
    }
  }

  /** Node `n` holds a handle into collection `k`. */
  predicate HeldIn(w: World, n: NodeId, k: nat)
    requires n < |w.nodes|
  {
    w.nodes[n].unsubscribe.Some? && w.nodes[n].unsubscribe.value.FromParent? && w.nodes[n].unsubscribe.value.coll == k
  }

  /** `tryUnsubscribe()`: when subscribed, call the unsubscribe closure, null
      it, clear the node's collection and fall back to `nullListeners`. */
  function TryUnsubscribe(w: World, n: NodeId): (r: World)
    requires WorldInv(w) && n < |w.nodes|
    ensures WorldInv(r) && SameTree(w, r)
    ensures !IsSubscribed(r, n) && r.nodes[n].listeners.None?
    ensures !IsSubscribed(w, n) ==> r == w
    ensures |r.colls| == |w.colls| && |r.store| == |w.store|
    ensures forall m :: 0 <= m < |w.nodes| && m != n ==> r.nodes[m] == w.nodes[m]
    // the node's own collection is cleared
    ensures IsSubscribed(w, n) ==>
      && w.nodes[n].listeners.Some? && w.nodes[n].listeners.value < |r.colls|
      && r.colls[w.nodes[n].listeners.value].Cleared()
    // a child's handle in the parent's collection is retired, removing one occurrence
    ensures IsSubscribed(w, n) && w.nodes[n].unsubscribe.value.FromParent? ==>
      var u := w.nodes[n].unsubscribe.value;
      && u.coll < |w.colls| && u.handle < |r.colls[u.coll].handles|
      && w.colls[u.coll].Valid() && r.colls[u.coll].Valid()
      && r.store == w.store
      && (!w.colls[u.coll].Cleared() ==>
            && !r.colls[u.coll].handles[u.handle].isSubscribed
            && n in w.colls[u.coll].Live()
            && r.colls[u.coll].Live() == RemoveFirst(w.colls[u.coll].Live(), n))
    // a root's store subscription is retired
    ensures IsSubscribed(w, n) && w.nodes[n].unsubscribe.value.FromStore? ==>
      var u := w.nodes[n].unsubscribe.value;
      && u.handle < |w.store| && w.store[u.handle] == StoreSub(n, true)
      && r.store == w.store[u.handle := StoreSub(n, false)]
    // no other collection is touched
    ensures forall k :: 0 <= k < |w.colls| && Some(k) != w.nodes[n].listeners && !HeldIn(w, n, k) ==>
      r.colls[k] == w.colls[k]
  {
    assert NodeOk(w, n);
    if w.nodes[n].unsubscribe.None? then w
    else
      TryUnsubscribeInv(w, n);
      TryUnsubscribeFacts(w, n);
      var u := w.nodes[n].unsubscribe.value;
      if u.FromParent? then
        UnsubscribeRemovesOne(w.colls[u.coll], u.handle);
        Detach(CallUnsub(w, n), n)
      else
        Detach(CallUnsub(w, n), n)
  }

  /** Unsubscribing is not terminal: a later `trySubscribe` subscribes again,
      with a collection that did not exist before. */
  lemma ResubscribeIsFresh(w: World, n: NodeId)
    requires WorldInv(w) && n < |w.nodes|
    ensures var r := TrySubscribe(TryUnsubscribe(w, n), n);
            && IsSubscribed(r, n)
            && r.nodes[n].listeners.Some?
            && |w.colls| <= r.nodes[n].listeners.value < |r.colls|
            && r.colls[r.nodes[n].listeners.value].Live() == []
  {
  }

  /** The store's listeners at the time it notifies (redux's own snapshot). */
  function StoreListeners(store: seq<StoreSub>): seq<NodeId> {
    if |store| == 0 then []
    else
      var last := store[|store| - 1];
      StoreListeners(store[..|store| - 1]) + (if last.isSubscribed then [last.listener] else [])
  }

  /** Only root nodes are ever called by the store; children hear of a change
      through their parent's collection. */
  lemma {:induction false} StoreListenersAreRoots(w: World, k: nat)
    requires WorldInv(w) && k <= |w.store|
    ensures forall x :: x in StoreListeners(w.store[..k]) ==> x < |w.nodes| && w.nodes[x].parent.None?
  {
    if k > 0 {
      StoreListenersAreRoots(w, k - 1);
      assert w.store[..k][..k - 1] == w.store[..k - 1];
      assert StoreSubOk(w, k - 1);
    }
  }
}
