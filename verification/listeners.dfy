/**
 * The listener collection behind every subscription node
 * (`createListenerCollection` in src/utils/Subscription.js).
 *
 * JavaScript arrays are references, and the whole point of the collection is
 * the `current`/`next` pair of references that may or may not point at the
 * same array. The model therefore keeps an explicit array store `arrays`;
 * a `Ref` is an index into it, `current == next` is the aliasing test
 * `next === current`, and `None` is the `CLEARED` (null) marker. A copy
 * (`current.slice()`) appends a fresh array to the store; `push` and `splice`
 * update the array that `next` refers to in place.
 *
 * The unsubscribe closures returned by `subscribe` are kept in the record as
 * `handles`: a handle remembers its listener and its own `isSubscribed` flag.
 */
module Listeners {
  import opened Wrappers

  /** A reference to one array of the store. */
  type Ref = nat

  /** The state captured by one returned `unsubscribe` closure. */
  datatype Handle<L> = Handle(listener: L, isSubscribed: bool)

  datatype Collection<L> = Collection(
    arrays: seq<seq<L>>,
    current: Option<Ref>,
    next: Option<Ref>,
    handles: seq<Handle<L>>)
  {
    /** Both references are cleared together and otherwise point into the store. */
    predicate Valid() {
      && (current.None? <==> next.None?)
      && (current.Some? ==> current.value < |arrays|)
      && (next.Some? ==> next.value < |arrays|)
    }

    /** `current === CLEARED`. */
    predicate Cleared() {
      current.None?
    }

    /** `next === current` on a collection that is not cleared. */
    predicate Aliased() {
      current.Some? && next == current
    }

    /** The live list `next` (empty once cleared). */
    function Live(): seq<L>
      requires Valid()
    {
      if next.Some? then arrays[next.value] else []
    }

    /** `get()`: the live array, or null once cleared. */
    function Get(): (r: Option<seq<L>>)
      requires Valid()
      ensures r.None? <==> Cleared()
      ensures r.Some? ==> r.value == Live()
    {
      if next.Some? then Some(arrays[next.value]) else None
    }
  }

  /** The listeners of the handles that have not yet been used, counted with
      multiplicity. */
  function Active<L(==)>(hs: seq<Handle<L>>): multiset<L> {
    if |hs| == 0 then multiset{}
    else
      Active(hs[..|hs| - 1])
      + (if hs[|hs| - 1].isSubscribed then multiset{hs[|hs| - 1].listener} else multiset{})
  }

  /** The accounting invariant: while the collection is live, the live list
      holds exactly one entry per unused handle. */
  ghost predicate Inv<L>(c: Collection<L>) {
    c.Valid() && (!c.Cleared() ==> multiset(c.Live()) == Active(c.handles))
  }

  /** A notify snapshot `s` is safe when an in-place mutation of `next` cannot
      reach it: either it is still `current` (so the next mutation copies
      first) or `next` already refers to another array. */
  predicate SnapSafe<L>(c: Collection<L>, s: Ref) {
    Some(s) == c.current || Some(s) != c.next
  }

  // ---------------------------------------------------------------------------
  // Array helpers with JavaScript semantics
  // ---------------------------------------------------------------------------

  /** `Array.prototype.indexOf`: the first position of `x`, or -1. */
  function IndexOf<L(==)>(s: seq<L>, x: L): (i: int)
    ensures -1 <= i < |s|
    ensures i == -1 <==> x !in s
    ensures 0 <= i ==> s[i] == x && x !in s[..i]
  {
    if |s| == 0 then -1
    else if s[0] == x then 0
    else
      var j := IndexOf(s[1..], x);
      if j == -1 then -1 else j + 1
  }

  /** `s.splice(start, 1)` applied to a copy: a negative start counts from the
      end, so -1 removes the last element. */
  function SpliceOne<L>(s: seq<L>, start: int): seq<L> {
    var a :=
      if start < 0 then (if |s| + start < 0 then 0 else |s| + start)
      else (if start < |s| then start else |s|);
    if a < |s| then s[..a] + s[a + 1..] else s
  }

  /** Reference definition: drop the first occurrence of `x`, if any. */
  function RemoveFirst<L(==)>(s: seq<L>, x: L): seq<L> {
    if |s| == 0 then []
    else if s[0] == x then s[1..]
    else [s[0]] + RemoveFirst(s[1..], x)
  }

  lemma {:induction false} RemoveFirstCount<L>(s: seq<L>, x: L)
    requires x in s
    ensures multiset(RemoveFirst(s, x)) == multiset(s) - multiset{x}
    ensures |RemoveFirst(s, x)| == |s| - 1
  {
    if s[0] == x {
      assert s == [s[0]] + s[1..];
    } else {
      RemoveFirstCount(s[1..], x);
      assert s == [s[0]] + s[1..];
    }
  }

  lemma SpliceOneAt<L>(s: seq<L>, a: int)
    requires 0 <= a < |s|
    ensures SpliceOne(s, a) == s[..a] + s[a + 1..]
  {
  }

  /** `splice(indexOf(x), 1)` is the reference removal whenever `x` is present. */
  lemma {:induction false} SpliceIndexOfRemovesFirst<L>(s: seq<L>, x: L)
    requires x in s
    ensures SpliceOne(s, IndexOf(s, x)) == RemoveFirst(s, x)
  {
    if s[0] == x {
      SpliceOneAt(s, 0);
    } else {
      var t := s[1..];
      assert x in t;
      var j := IndexOf(t, x);
      assert IndexOf(s, x) == j + 1;
      SpliceIndexOfRemovesFirst(t, x);
      SpliceOneAt(t, j);
      SpliceOneAt(s, j + 1);
      assert s[..j + 1] == [s[0]] + t[..j];
      assert s[j + 2..] == t[j + 1..];
      assert RemoveFirst(s, x) == [s[0]] + RemoveFirst(t, x);
    }
  }

  /** When `x` is absent, the same expression removes the LAST element instead. */
  lemma SpliceOfAbsentRemovesLast<L>(s: seq<L>, x: L)
    requires x !in s && |s| > 0
    ensures SpliceOne(s, IndexOf(s, x)) == s[..|s| - 1]
  {
  }

  lemma {:induction false} ActiveAppend<L>(hs: seq<Handle<L>>, l: L)
    ensures Active(hs + [Handle(l, true)]) == Active(hs) + multiset{l}
  {
    assert (hs + [Handle(l, true)])[..|hs|] == hs;
  }

  lemma {:induction false} ActiveRetire<L>(hs: seq<Handle<L>>, h: nat)
    requires h < |hs| && hs[h].isSubscribed
    ensures Active(hs[h := Handle(hs[h].listener, false)])
         == Active(hs) - multiset{hs[h].listener}
    ensures hs[h].listener in Active(hs)
  {
    var hs' := hs[h := Handle(hs[h].listener, false)];
    var n := |hs| - 1;
    if h == n {
      assert hs'[..n] == hs[..n];
    } else {
      ActiveRetire(hs[..n], h);
      assert hs'[..n] == hs[..n][h := Handle(hs[h].listener, false)];
    }
  }

  /** Every listener counted as active was handed out by a still-active handle. */
  lemma {:induction false} ActiveIssued<L>(hs: seq<Handle<L>>, x: L)
    requires x in Active(hs)
    ensures exists j :: 0 <= j < |hs| && hs[j] == Handle(x, true)
  {
    var n := |hs| - 1;
    if x in Active(hs[..n]) {
      ActiveIssued(hs[..n], x);
      var j :| 0 <= j < n && hs[..n][j] == Handle(x, true);
      assert hs[j] == Handle(x, true);
    } else {
      assert hs[n] == Handle(x, true);
    }
  }

  /** Under the accounting invariant every live listener has an active handle. */
  lemma LiveIssued<L>(c: Collection<L>, x: L)
    requires Inv(c) && !c.Cleared() && x in c.Live()
    ensures exists j :: 0 <= j < |c.handles| && c.handles[j] == Handle(x, true)
  {
    assert x in multiset(c.Live());
    ActiveIssued(c.handles, x);
  }

  // ---------------------------------------------------------------------------
  // Operations
  // ---------------------------------------------------------------------------

  /** `createListenerCollection()`: two distinct empty arrays, not aliased. */
  function Create<L>(): (c: Collection<L>)
    ensures c.Valid() && !c.Cleared() && !c.Aliased()
    ensures c.arrays[c.current.value] == [] && c.Live() == [] && c.handles == []
  {
    Collection([[], []], Some(0), Some(1), [])
  }

  /** `next = current.slice()`: a fresh copy of the current array becomes `next`. */
  function Fork<L>(c: Collection<L>): (r: Collection<L>)
    requires c.Valid() && !c.Cleared()
    ensures r.Valid() && !r.Aliased()
    ensures r.current == c.current && r.handles == c.handles
    ensures |r.arrays| == |c.arrays| + 1 && r.arrays[..|c.arrays|] == c.arrays
    ensures r.Live() == c.arrays[c.current.value]
  {
    c.(arrays := c.arrays + [c.arrays[c.current.value]], next := Some(|c.arrays|))
  }

  /** An in-place write (`push`/`splice`) to the array `next` refers to. The
      precondition is the copy-on-write discipline: never while aliased. */
  function WriteNext<L>(c: Collection<L>, a: seq<L>): (r: Collection<L>)
    requires c.Valid() && !c.Cleared() && !c.Aliased()
    ensures r.Valid() && !r.Aliased() && r.Live() == a
    ensures r.current == c.current && r.next == c.next && r.handles == c.handles
    ensures |r.arrays| == |c.arrays|
    ensures forall s :: 0 <= s < |c.arrays| && Some(s) != c.next ==> r.arrays[s] == c.arrays[s]
  {
    c.(arrays := c.arrays[c.next.value := a])
  }

  /** `clear()`: both references become `CLEARED`. */
  function Clear<L>(c: Collection<L>): (r: Collection<L>)
    ensures r.Valid() && r.Cleared() && r.Live() == []
    ensures r.arrays == c.arrays && r.handles == c.handles
  {
    c.(current := None, next := None)
  }

  /** `notify()`: `current` becomes `next`, and that array is the snapshot the
      pass iterates. The listeners themselves are invoked by `RunPass`. */
  function Notify<L>(c: Collection<L>): (r: (Collection<L>, seq<L>))
    requires c.Valid() && !c.Cleared()
    ensures r.0.Valid() && r.0.Aliased()
    ensures r.1 == c.Live() && r.0.Live() == c.Live()
    ensures r.0.arrays == c.arrays && r.0.handles == c.handles
  {
    (c.(current := c.next), c.arrays[c.next.value])
  }

  /** `subscribe(listener)`: copy `next` if it is still `current`, then push.
      Returns the collection and the index of the new unsubscribe handle. */
  function Subscribe<L>(c: Collection<L>, l: L): (r: (Collection<L>, nat))
    requires c.Valid() && !c.Cleared()
    ensures r.0.Valid() && !r.0.Cleared() && !r.0.Aliased()
    ensures r.0.Live() == c.Live() + [l]
    ensures r.0.current == c.current
    ensures r.0.arrays[c.current.value] == c.arrays[c.current.value]
    ensures r.1 == |c.handles| && r.0.handles == c.handles + [Handle(l, true)]
    ensures c.Aliased() ==> r.0.next == Some(|c.arrays|) && r.0.arrays[..|c.arrays|] == c.arrays
    ensures !c.Aliased() ==> r.0.next == c.next && |r.0.arrays| == |c.arrays|
    ensures forall s :: 0 <= s < |c.arrays| && Some(s) != c.next ==> r.0.arrays[s] == c.arrays[s]
  {
    var c1 := if c.Aliased() then Fork(c) else c;
    (WriteNext(c1, c1.Live() + [l]).(handles := c1.handles + [Handle(l, true)]), |c.handles|)
  }

  /** The returned `unsubscribe()` for handle `h`: a no-op once used or once
      the collection is cleared; otherwise it retires the handle, copies `next`
      if it is still `current`, and splices out the first occurrence. */
  function Unsubscribe<L(==)>(c: Collection<L>, h: nat): (r: Collection<L>)
    requires c.Valid() && h < |c.handles|
    ensures r.Valid() && r.current == c.current && r.Cleared() == c.Cleared()
    ensures !c.handles[h].isSubscribed || c.Cleared() ==> r == c
    ensures c.handles[h].isSubscribed && !c.Cleared() ==>
      && r.handles == c.handles[h := Handle(c.handles[h].listener, false)]
      && r.Live() == SpliceOne(c.Live(), IndexOf(c.Live(), c.handles[h].listener))
      && !r.Aliased()
    ensures |r.handles| == |c.handles| && (!c.Cleared() ==> !r.handles[h].isSubscribed)
    ensures !c.Cleared() ==> r.arrays[c.current.value] == c.arrays[c.current.value]
    ensures forall s :: 0 <= s < |c.arrays| && Some(s) != c.next ==> s < |r.arrays| && r.arrays[s] == c.arrays[s]
  {
    if !c.handles[h].isSubscribed || c.Cleared() then c
    else
      var l := c.handles[h].listener;
      var c0 := c.(handles := c.handles[h := Handle(l, false)]);
      var c1 := if c0.Aliased() then Fork(c0) else c0;
      WriteNext(c1, SpliceOne(c1.Live(), IndexOf(c1.Live(), l)))
  }

  // ---------------------------------------------------------------------------
  // Properties of single operations
  // ---------------------------------------------------------------------------

  lemma CreateInv<L>()
    ensures Inv(Create<L>())
  {
  }

  /** Subscribing keeps the accounting invariant: one more entry, one more handle. */
  lemma SubscribeInv<L>(c: Collection<L>, l: L)
    requires Inv(c) && !c.Cleared()
    ensures Inv(Subscribe(c, l).0)
    ensures multiset(Subscribe(c, l).0.Live()) == multiset(c.Live()) + multiset{l}
  {
    ActiveAppend(c.handles, l);
  }

  /** With the invariant, an unused handle always finds its listener in the
      live list, so the as-written `splice(indexOf(l), 1)` is exactly the
      removal of the first occurrence — the -1 case is unreachable. */
  lemma UnsubscribeRemovesOne<L>(c: Collection<L>, h: nat)
    requires Inv(c) && h < |c.handles|
    ensures Inv(Unsubscribe(c, h))
    ensures c.handles[h].isSubscribed && !c.Cleared() ==>
      && c.handles[h].listener in c.Live()
      && Unsubscribe(c, h).Live() == RemoveFirst(c.Live(), c.handles[h].listener)
      && multiset(Unsubscribe(c, h).Live()) == multiset(c.Live()) - multiset{c.handles[h].listener}
  {
    if c.handles[h].isSubscribed && !c.Cleared() {
      var l := c.handles[h].listener;
      ActiveRetire(c.handles, h);
      assert l in multiset(c.Live());
      SpliceIndexOfRemovesFirst(c.Live(), l);
      RemoveFirstCount(c.Live(), l);
    }
  }

  /** Calling the same unsubscribe closure twice is the same as calling it once. */
  lemma UnsubscribeIdempotent<L>(c: Collection<L>, h: nat)
    requires c.Valid() && h < |c.handles|
    ensures Unsubscribe(Unsubscribe(c, h), h) == Unsubscribe(c, h)
  {
  }

  /** After `clear()`, every unsubscribe closure is a no-op. */
  lemma UnsubscribeAfterClear<L>(c: Collection<L>, h: nat)
    requires c.Valid() && h < |c.handles|
    ensures Unsubscribe(Clear(c), h) == Clear(c)
  {
  }

  lemma NotifyInv<L>(c: Collection<L>)
    requires Inv(c) && !c.Cleared()
    ensures Inv(Notify(c).0)
  {
  }

  lemma ClearInv<L>(c: Collection<L>)
    requires c.Valid()
    ensures Inv(Clear(c))
  {
  }

  // ---------------------------------------------------------------------------
  // Re-entrant mutation during a notify pass
  // ---------------------------------------------------------------------------

  /** What a listener does to this collection while it is being invoked:
      subscribe, call an unsubscribe closure (an index beyond this collection's
      handles is a closure of some other collection), clear it, or throw. */
  datatype Op<L> =
    | SubscribeOp(listener: L)
    | UnsubscribeOp(handle: nat)
    | ClearOp
    | ThrowOp

  /** One operation; the flag is true when it throws. `subscribe` on a cleared
      collection throws a TypeError (`null.slice`). */
  function ApplyOp<L(==)>(c: Collection<L>, op: Op<L>): (r: (Collection<L>, bool))
    requires c.Valid()
    ensures r.0.Valid()
    ensures forall s {:trigger SnapSafe(c, s)} :: 0 <= s < |c.arrays| && SnapSafe(c, s) ==>
      s < |r.0.arrays| && r.0.arrays[s] == c.arrays[s] && SnapSafe(r.0, s)
  {
    match op
    case SubscribeOp(l) => if c.Cleared() then (c, true) else (Subscribe(c, l).0, false)
    case UnsubscribeOp(h) => if h < |c.handles| then (Unsubscribe(c, h), false) else (c, false)
    case ClearOp => (Clear(c), false)
    case ThrowOp => (c, true)
  }

  /** The ops a listener performs, stopping at the first one that throws.
      Returns the collection, how many ops ran, and whether one threw. */
  function ApplyOps<L(==)>(c: Collection<L>, ops: seq<Op<L>>): (r: (Collection<L>, nat, bool))
    requires c.Valid()
    ensures r.0.Valid() && r.1 <= |ops|
    ensures !r.2 ==> r.1 == |ops|
    ensures forall s {:trigger SnapSafe(c, s)} :: 0 <= s < |c.arrays| && SnapSafe(c, s) ==>
      s < |r.0.arrays| && r.0.arrays[s] == c.arrays[s] && SnapSafe(r.0, s)
    decreases |ops|
  {
    if |ops| == 0 then (c, 0, false)
    else
      var (c1, threw) := ApplyOp(c, ops[0]);
      if threw then (c1, 1, true)
      else
        var (c2, k, t2) := ApplyOps(c1, ops[1..]);
        (c2, k + 1, t2)
  }

  /** The ops of the listeners at positions `i` to `j - 1`, one after another. */
  function Flat<L>(effects: nat -> seq<Op<L>>, i: nat, j: nat): seq<Op<L>>
    decreases j - i
  {
    if i >= j then [] else effects(i) + Flat(effects, i + 1, j)
  }

  datatype PassResult<L> = PassResult(invoked: seq<L>, coll: Collection<L>, performed: seq<Op<L>>, aborted: bool)

  /** The loop `for (i = 0; i < listeners.length; i++) listeners[i]()` over the
      snapshot array `snap`, from position `i`. `effects(k)` is what the k-th
      listener does when it runs; an exception ends the pass. */
  function RunPass<L(==)>(c: Collection<L>, snap: Ref, i: nat, effects: nat -> seq<Op<L>>): (r: PassResult<L>)
    requires c.Valid() && snap < |c.arrays| && SnapSafe(c, snap) && i <= |c.arrays[snap]|
    ensures r.coll.Valid()
    // the array being iterated is never written, whatever the listeners do
    ensures snap < |r.coll.arrays| && r.coll.arrays[snap] == c.arrays[snap] && SnapSafe(r.coll, snap)
    // at most the rest of the snapshot runs; a throw stops after its listener
    ensures |r.invoked| <= |c.arrays[snap]| - i
    ensures r.aborted ==> |r.invoked| > 0
    decreases |c.arrays[snap]| - i
  {
    if i == |c.arrays[snap]| then PassResult([], c, [], false)
    else
      var l := c.arrays[snap][i];
      var (c1, k, threw) := ApplyOps(c, effects(i));
      if threw then PassResult([l], c1, effects(i)[..k], true)
      else
        var rest := RunPass(c1, snap, i + 1, effects);
        PassResult([l] + rest.invoked, rest.coll, effects(i) + rest.performed, rest.aborted)
  }

  /** `notify()` with its listeners running: take the snapshot, then the pass.
      The listeners invoked are the live list at the call (a prefix of it if
      one throws), whatever they do to the collection. */
  function NotifyWith<L(==)>(c: Collection<L>, effects: nat -> seq<Op<L>>): (r: PassResult<L>)
    requires c.Valid() && !c.Cleared()
    ensures r.invoked <= c.Live()
    ensures !r.aborted ==> r.invoked == c.Live()
  {
    var (c1, _) := Notify(c);
    PassInvokesSnapshot(c1, c.next.value, 0, effects);
    assert c1.arrays[c.next.value][0..] == c.Live();
    RunPass(c1, c.next.value, 0, effects)
  }

  // ---------------------------------------------------------------------------
  // The reference semantics: plain lists, no aliasing
  // ---------------------------------------------------------------------------

  /** The collection as its users see it: the live list, the handles, and
      whether it has been cleared. */
  datatype AbsColl<L> = AbsColl(live: seq<L>, handles: seq<Handle<L>>, cleared: bool)

  function Abs<L>(c: Collection<L>): AbsColl<L>
    requires c.Valid()
  {
    AbsColl(c.Live(), c.handles, c.Cleared())
  }

  /** One operation on plain lists: append, remove the first occurrence, or
      empty for good. Throwing ops leave the state as it is. */
  function AbsStep<L(==)>(a: AbsColl<L>, op: Op<L>): AbsColl<L> {
    match op
    case SubscribeOp(l) =>
      if a.cleared then a else AbsColl(a.live + [l], a.handles + [Handle(l, true)], false)
    case UnsubscribeOp(h) =>
      if h >= |a.handles| || !a.handles[h].isSubscribed || a.cleared then a
      else AbsColl(RemoveFirst(a.live, a.handles[h].listener),
                   a.handles[h := Handle(a.handles[h].listener, false)], false)
    case ClearOp => AbsColl([], a.handles, true)
    case ThrowOp => a
  }

  function AbsRun<L(==)>(a: AbsColl<L>, ops: seq<Op<L>>): AbsColl<L>
    decreases |ops|
  {
    if |ops| == 0 then a else AbsRun(AbsStep(a, ops[0]), ops[1..])
  }

  /** The plain-list operations that throw: an explicit throw, and a
      subscribe once the collection is cleared (`null.slice`). */
  predicate AbsThrows<L>(a: AbsColl<L>, op: Op<L>) {
    op.ThrowOp? || (op.SubscribeOp? && a.cleared)
  }

  /** How many of `ops` run on plain lists before one throws (counting the
      throwing one), and whether one threw. */
  function AbsCut<L(==)>(a: AbsColl<L>, ops: seq<Op<L>>): (r: (nat, bool))
    ensures r.0 <= |ops|
    ensures !r.1 ==> r.0 == |ops|
    decreases |ops|
  {
    if |ops| == 0 then (0, false)
    else if AbsThrows(a, ops[0]) then (1, true)
    else
      var r := AbsCut(AbsStep(a, ops[0]), ops[1..]);
      (r.0 + 1, r.1)
  }

  lemma AbsRunAppend<L>(a: AbsColl<L>, xs: seq<Op<L>>, ys: seq<Op<L>>)
    ensures AbsRun(a, xs + ys) == AbsRun(AbsRun(a, xs), ys)
    decreases |xs|
  {
    if |xs| == 0 {
      assert xs + ys == ys;
    } else {
      assert (xs + ys)[1..] == xs[1..] + ys;
      AbsRunAppend(AbsStep(a, xs[0]), xs[1..], ys);
    }
  }

  /** Each concrete operation, aliasing and all, does what the plain-list
      operation does, and keeps the accounting invariant. */
  lemma ApplyOpRefines<L>(c: Collection<L>, op: Op<L>)
    requires Inv(c)
    ensures Inv(ApplyOp(c, op).0)
    ensures Abs(ApplyOp(c, op).0) == AbsStep(Abs(c), op)
    ensures ApplyOp(c, op).1 <==> (op.ThrowOp? || (op.SubscribeOp? && c.Cleared()))
  {
    match op
    case SubscribeOp(l) =>
      if !c.Cleared() { SubscribeInv(c, l); }
    case UnsubscribeOp(h) =>
      if h < |c.handles| { UnsubscribeRemovesOne(c, h); }
    case ClearOp =>
    case ThrowOp =>
  }

  lemma {:induction false} ApplyOpsRefines<L>(c: Collection<L>, ops: seq<Op<L>>)
    requires Inv(c)
    ensures Inv(ApplyOps(c, ops).0)
    ensures Abs(ApplyOps(c, ops).0) == AbsRun(Abs(c), ops[..ApplyOps(c, ops).1])
    // it stops exactly where the first plain-list throw is
    ensures (ApplyOps(c, ops).1, ApplyOps(c, ops).2) == AbsCut(Abs(c), ops)
    decreases |ops|
  {
    if |ops| == 0 {
      assert ops[..0] == [];
    } else {
      ApplyOpRefines(c, ops[0]);
      var r1 := ApplyOp(c, ops[0]);
      if r1.1 {
        assert ops[..1] == [ops[0]];
        assert AbsRun(Abs(c), [ops[0]]) == AbsRun(AbsStep(Abs(c), ops[0]), []);
      } else {
        ApplyOpsRefines(r1.0, ops[1..]);
        var k := ApplyOps(r1.0, ops[1..]).1;
        assert ops[..k + 1] == [ops[0]] + ops[1..][..k];
        assert AbsRun(Abs(c), ops[..k + 1]) == AbsRun(AbsStep(Abs(c), ops[0]), ops[1..][..k]);
      }
    }
  }

  /** The pass invokes a prefix of the snapshot array — all of it unless a
      listener threw — whatever the listeners do to the collection meanwhile. */
  lemma {:induction false} PassInvokesSnapshot<L>(c: Collection<L>, snap: Ref, i: nat, effects: nat -> seq<Op<L>>)
    requires c.Valid() && snap < |c.arrays| && SnapSafe(c, snap) && i <= |c.arrays[snap]|
    ensures RunPass(c, snap, i, effects).invoked <= c.arrays[snap][i..]
    ensures !RunPass(c, snap, i, effects).aborted ==> RunPass(c, snap, i, effects).invoked == c.arrays[snap][i..]
    ensures RunPass(c, snap, i, effects).aborted ==> |RunPass(c, snap, i, effects).invoked| > 0
    decreases |c.arrays[snap]| - i
  {
    if i < |c.arrays[snap]| {
      var (c1, k, threw) := ApplyOps(c, effects(i));
      var l := c.arrays[snap][i];
      assert c.arrays[snap][i..] == [l] + c.arrays[snap][i + 1..];
      if threw {
        assert RunPass(c, snap, i, effects).invoked == [l];
      } else {
        PassInvokesSnapshot(c1, snap, i + 1, effects);
        assert c1.arrays[snap] == c.arrays[snap];
        var rest := RunPass(c1, snap, i + 1, effects);
        assert RunPass(c, snap, i, effects) == PassResult([l] + rest.invoked, rest.coll, effects(i) + rest.performed, rest.aborted);
      }
    }
  }

  /** The pass leaves the collection exactly where the plain-list semantics of
      the operations it performed would. */
  lemma {:induction false} PassRefines<L>(c: Collection<L>, snap: Ref, i: nat, effects: nat -> seq<Op<L>>)
    requires Inv(c) && snap < |c.arrays| && SnapSafe(c, snap) && i <= |c.arrays[snap]|
    ensures Inv(RunPass(c, snap, i, effects).coll)
    ensures Abs(RunPass(c, snap, i, effects).coll) == AbsRun(Abs(c), RunPass(c, snap, i, effects).performed)
    decreases |c.arrays[snap]| - i
  {
    if i < |c.arrays[snap]| {
      ApplyOpsRefines(c, effects(i));
      var (c1, k, threw) := ApplyOps(c, effects(i));
      if !threw {
        PassRefines(c1, snap, i + 1, effects);
        assert effects(i)[..k] == effects(i);
        AbsRunAppend(Abs(c), effects(i), RunPass(c1, snap, i + 1, effects).performed);
      }
    }
  }

  /** Cutting `xs + ys` is cutting `xs`, then cutting `ys` from where `xs`
      left the lists, unless `xs` threw. */
  lemma {:induction false} AbsCutAppend<L>(a: AbsColl<L>, xs: seq<Op<L>>, ys: seq<Op<L>>)
    ensures AbsCut(a, xs).1 ==> AbsCut(a, xs + ys) == AbsCut(a, xs)
    ensures !AbsCut(a, xs).1 ==>
              var b := AbsCut(AbsRun(a, xs), ys);
              AbsCut(a, xs + ys) == (|xs| + b.0, b.1)
    decreases |xs|
  {
    if |xs| == 0 {
      assert xs + ys == ys;
    } else {
      assert (xs + ys)[0] == xs[0];
      assert (xs + ys)[1..] == xs[1..] + ys;
      if !AbsThrows(a, xs[0]) {
        AbsCutAppend(AbsStep(a, xs[0]), xs[1..], ys);
      }
    }
  }

  lemma TakeOfAppend<T>(xs: seq<T>, ys: seq<T>, k: nat)
    requires k <= |xs|
    ensures (xs + ys)[..k] == xs[..k]
  {
  }

  lemma TakePastAppend<T>(xs: seq<T>, ys: seq<T>, k: nat)
    requires k <= |ys|
    ensures (xs + ys)[..|xs| + k] == xs + ys[..k]
  {
  }

  /** One step of the pass: the listener at `i` runs its ops; the pass ends
      there if one threw and goes on from `i + 1` otherwise. */
  lemma PassStep<L>(c: Collection<L>, snap: Ref, i: nat, effects: nat -> seq<Op<L>>)
    requires c.Valid() && snap < |c.arrays| && SnapSafe(c, snap) && i < |c.arrays[snap]|
    ensures var a1 := ApplyOps(c, effects(i));
            var r := RunPass(c, snap, i, effects);
            && (a1.2 ==> r == PassResult([c.arrays[snap][i]], a1.0, effects(i)[..a1.1], true))
            && (!a1.2 ==>
                  && snap < |a1.0.arrays| && a1.0.arrays[snap] == c.arrays[snap] && SnapSafe(a1.0, snap)
                  && var r1 := RunPass(a1.0, snap, i + 1, effects);
                     r == PassResult([c.arrays[snap][i]] + r1.invoked, r1.coll, effects(i) + r1.performed, r1.aborted))
  {
  }

  /** One listener's share of the cut: if the listener's ops `e` are cut as
      `AbsCut` says, and what runs after them is the cut of `rest` from where
      `e` left the lists, then together they are the cut of `e + rest`. */
  lemma CutCombine<L>(a: AbsColl<L>, e: seq<Op<L>>, rest: seq<Op<L>>,
                      performed: seq<Op<L>>, aborted: bool, restPerformed: seq<Op<L>>)
    requires AbsCut(a, e).1 ==> performed == e[..AbsCut(a, e).0] && aborted
    requires !AbsCut(a, e).1 ==>
               var b := AbsCut(AbsRun(a, e), rest);
               performed == e + restPerformed && aborted == b.1 && restPerformed == rest[..b.0]
    ensures aborted == AbsCut(a, e + rest).1
    ensures performed == (e + rest)[..AbsCut(a, e + rest).0]
  {
    AbsCutAppend(a, e, rest);
    if AbsCut(a, e).1 {
      TakeOfAppend(e, rest, AbsCut(a, e).0);
    } else {
      TakePastAppend(e, rest, AbsCut(AbsRun(a, e), rest).0);
    }
  }

  /** The pass on plain lists, listener by listener from `i` to `n`: each
      runs its ops until one throws, and a throw ends the pass. Returns the
      ops performed, whether one threw, and how many listeners ran. */
  function AbsPass<L(==)>(a: AbsColl<L>, effects: nat -> seq<Op<L>>, i: nat, n: nat): (r: (seq<Op<L>>, bool, nat))
    decreases n - i
  {
    if i >= n then ([], false, 0)
    else
      var cut := AbsCut(a, effects(i));
      if cut.1 then (effects(i)[..cut.0], true, 1)
      else
        var rest := AbsPass(AbsRun(a, effects(i)), effects, i + 1, n);
        (effects(i) + rest.0, rest.1, rest.2 + 1)
  }

  /** One listener's step of `PassRefinesAbsPass`, on plain values: the
      listener's ops `e` ran as `AbsCut` says, and the rest of the pass agrees
      with the plain-list pass from where `e` left the lists. */
  lemma AbsPassStep<L>(a: AbsColl<L>, effects: nat -> seq<Op<L>>, i: nat, n: nat, r: PassResult<L>, r1: PassResult<L>)
    requires i < n
    requires AbsCut(a, effects(i)).1 ==>
               r.performed == effects(i)[..AbsCut(a, effects(i)).0] && r.aborted && |r.invoked| == 1
    requires !AbsCut(a, effects(i)).1 ==>
               var p1 := AbsPass(AbsRun(a, effects(i)), effects, i + 1, n);
               && r.performed == effects(i) + r1.performed && r.aborted == r1.aborted
               && |r.invoked| == |r1.invoked| + 1
               && r1.performed == p1.0 && r1.aborted == p1.1 && |r1.invoked| == p1.2
    ensures var p := AbsPass(a, effects, i, n);
            r.performed == p.0 && r.aborted == p.1 && |r.invoked| == p.2
  {
  }

  /** The concrete pass, aliasing and all, performs the ops, reports the throw
      and runs the number of listeners that the plain-list pass does. */
  lemma {:induction false} PassRefinesAbsPass<L>(c: Collection<L>, snap: Ref, i: nat, effects: nat -> seq<Op<L>>)
    requires Inv(c) && snap < |c.arrays| && SnapSafe(c, snap) && i <= |c.arrays[snap]|
    ensures var r := RunPass(c, snap, i, effects);
            var p := AbsPass(Abs(c), effects, i, |c.arrays[snap]|);
            r.performed == p.0 && r.aborted == p.1 && |r.invoked| == p.2
    decreases |c.arrays[snap]| - i
  {
    var n := |c.arrays[snap]|;
    if i < n {
      PassStep(c, snap, i, effects);
      ApplyOpsRefines(c, effects(i));
      var a1 := ApplyOps(c, effects(i));
      var r1 := PassResult([], c, [], false);
      if !a1.2 {
        assert effects(i)[..a1.1] == effects(i);
        PassRefinesAbsPass(a1.0, snap, i + 1, effects);
        r1 := RunPass(a1.0, snap, i + 1, effects);
      }
      AbsPassStep(Abs(c), effects, i, n, RunPass(c, snap, i, effects), r1);
    }
  }

  /** The plain-list pass is the listeners' ops laid end to end and cut at the
      first throw. */
  lemma {:induction false} AbsPassIsCut<L>(a: AbsColl<L>, effects: nat -> seq<Op<L>>, i: nat, n: nat)
    ensures var p := AbsPass(a, effects, i, n);
            var fl := Flat(effects, i, n);
            var cut := AbsCut(a, fl);
            p.1 == cut.1 && p.0 == fl[..cut.0]
    decreases n - i
  {
    if i >= n {
      assert Flat(effects, i, n) == [];
    } else {
      var rest := Flat(effects, i + 1, n);
      assert Flat(effects, i, n) == effects(i) + rest;
      var p := AbsPass(a, effects, i, n);
      if AbsCut(a, effects(i)).1 {
        CutCombine(a, effects(i), rest, p.0, p.1, []);
      } else {
        var a1 := AbsRun(a, effects(i));
        AbsPassIsCut(a1, effects, i + 1, n);
        CutCombine(a, effects(i), rest, p.0, p.1, AbsPass(a1, effects, i + 1, n).0);
      }
    }
  }

  /** One listener's step of `AbsPassRunsUntilThrow`, given the claim from
      `i + 1`. */
  lemma AbsRunsStep<L>(a: AbsColl<L>, effects: nat -> seq<Op<L>>, i: nat, j: nat, n: nat)
    requires i < j < n
    requires !AbsCut(a, effects(i)).1 ==>
               var a1 := AbsRun(a, effects(i));
               (j - (i + 1) < AbsPass(a1, effects, i + 1, n).2 <==> !AbsCut(a1, Flat(effects, i + 1, j)).1)
    ensures j - i < AbsPass(a, effects, i, n).2 <==> !AbsCut(a, Flat(effects, i, j)).1
  {
    assert Flat(effects, i, j) == effects(i) + Flat(effects, i + 1, j);
    AbsCutAppend(a, effects(i), Flat(effects, i + 1, j));
  }

  /** In the plain-list pass the listener at position `j` runs exactly when
      the ops of the listeners before it do not throw. */
  lemma {:induction false} AbsPassRunsUntilThrow<L>(a: AbsColl<L>, effects: nat -> seq<Op<L>>, i: nat, j: nat, n: nat)
    requires i <= j < n
    ensures j - i < AbsPass(a, effects, i, n).2 <==> !AbsCut(a, Flat(effects, i, j)).1
    decreases j - i
  {
    if i == j {
      assert Flat(effects, i, j) == [];
    } else {
      if !AbsCut(a, effects(i)).1 {
        AbsPassRunsUntilThrow(AbsRun(a, effects(i)), effects, i + 1, j, n);
      }
      AbsRunsStep(a, effects, i, j, n);
    }
  }

  /** The pass is the listeners' ops laid end to end and cut at the first
      plain-list throw: it performs exactly the ops before the cut and
      reports whether there was one. */
  lemma PassIsCutOfFlatEffects<L>(c: Collection<L>, snap: Ref, i: nat, effects: nat -> seq<Op<L>>)
    requires Inv(c) && snap < |c.arrays| && SnapSafe(c, snap) && i <= |c.arrays[snap]|
    ensures var r := RunPass(c, snap, i, effects);
            var fl := Flat(effects, i, |c.arrays[snap]|);
            var cut := AbsCut(Abs(c), fl);
            r.aborted == cut.1 && r.performed == fl[..cut.0]
  {
    PassRefinesAbsPass(c, snap, i, effects);
    AbsPassIsCut(Abs(c), effects, i, |c.arrays[snap]|);
  }

  /** In the pass, the listener at position `j` runs exactly when the ops of
      the listeners before it run on plain lists without a throw. */
  lemma PassRunsUntilThrow<L>(c: Collection<L>, snap: Ref, i: nat, effects: nat -> seq<Op<L>>, j: nat)
    requires Inv(c) && snap < |c.arrays| && SnapSafe(c, snap) && i <= j < |c.arrays[snap]|
    ensures j - i < |RunPass(c, snap, i, effects).invoked| <==> !AbsCut(Abs(c), Flat(effects, i, j)).1
  {
    PassRefinesAbsPass(c, snap, i, effects);
    AbsPassRunsUntilThrow(Abs(c), effects, i, j, |c.arrays[snap]|);
  }

  /** `notify()` invokes exactly the live list as it was when the call began
      (a prefix of it if a listener throws), and afterwards the collection is
      what the plain-list semantics of the performed operations say. */
  lemma NotifySnapshotSemantics<L>(c: Collection<L>, effects: nat -> seq<Op<L>>)
    requires Inv(c) && !c.Cleared()
    ensures Inv(NotifyWith(c, effects).coll)
    ensures Abs(NotifyWith(c, effects).coll) == AbsRun(Abs(c), NotifyWith(c, effects).performed)
  {
    var (c1, _) := Notify(c);
    PassRefines(c1, c.next.value, 0, effects);
  }

  /** `notify()` in plain-list terms, for every collection and every
      behaviour of the listeners: the ops of the live listeners, laid end to
      end, run until the first one that throws; the pass performs exactly
      those, reports the throw, and the listener at position `j` runs exactly
      when the ops of the listeners before it do not throw. */
  lemma NotifyIsCutOfEffects<L>(c: Collection<L>, effects: nat -> seq<Op<L>>)
    requires Inv(c) && !c.Cleared()
    ensures var p := NotifyWith(c, effects);
            var fl := Flat(effects, 0, |c.Live()|);
            var cut := AbsCut(Abs(c), fl);
            && p.aborted == cut.1
            && p.performed == fl[..cut.0]
            && Abs(p.coll) == AbsRun(Abs(c), p.performed)
            && forall j :: 0 <= j < |c.Live()| ==>
                 (j < |p.invoked| <==> !AbsCut(Abs(c), Flat(effects, 0, j)).1)
  {
    var c1 := Notify(c).0;
    NotifyInv(c);
    assert Abs(c1) == Abs(c);
    var snap := c.next.value;
    PassIsCutOfFlatEffects(c1, snap, 0, effects);
    PassRefines(c1, snap, 0, effects);
    forall j | 0 <= j < |c.Live()|
      ensures j < |NotifyWith(c, effects).invoked| <==> !AbsCut(Abs(c), Flat(effects, 0, j)).1
    {
      PassRunsUntilThrow(c1, snap, 0, effects, j);
    }
  }

  /** For every collection and every behaviour of the listeners: the listener
      at each position of the live list when `notify()` began runs in that
      pass, even if it is unsubscribed during it, unless the ops of the
      listeners before it throw; one that
      was not live does not run even if it is subscribed during it, and one
      that the plain-list semantics of the pass leaves live is invoked by the
      next `notify()`. */
  lemma PassMembershipIsFixedAtCall<L>(c: Collection<L>, effects: nat -> seq<Op<L>>, x: L)
    requires Inv(c) && !c.Cleared()
    ensures var p := NotifyWith(c, effects);
            && (forall j :: 0 <= j < |c.Live()| && !AbsCut(Abs(c), Flat(effects, 0, j)).1 ==>
                  c.Live()[j] in p.invoked)
            && (x in c.Live() && !p.aborted ==> x in p.invoked)
            && (x !in c.Live() ==> x !in p.invoked)
            && (x in AbsRun(Abs(c), p.performed).live ==>
                  && p.coll.Valid() && !p.coll.Cleared()
                  && x in Notify(p.coll).1)
  {
    var p := NotifyWith(c, effects);
    NotifySnapshotSemantics(c, effects);
    NotifyIsCutOfEffects(c, effects);
    forall j | 0 <= j < |c.Live()| && !AbsCut(Abs(c), Flat(effects, 0, j)).1
      ensures c.Live()[j] in p.invoked
    {
      assert p.invoked[j] == c.Live()[j];
    }
    if x in p.invoked {
      var i :| 0 <= i < |p.invoked| && p.invoked[i] == x;
      assert c.Live()[i] == x;
    }
  }

  // ---------------------------------------------------------------------------
  // Concrete scenarios
  // ---------------------------------------------------------------------------

  /** `a` then `b` subscribed to a fresh collection. */
  lemma TwoSubscribed()
    ensures var c0 := Subscribe(Subscribe(Create<char>(), 'a').0, 'b').0;
            && c0.arrays == [[], ['a', 'b']] && c0.current == Some(0) && c0.next == Some(1)
            && c0.handles == [Handle('a', true), Handle('b', true)]
  {
    var c := Create<char>();
    assert c.arrays == [[], []] && !c.Aliased();
    var ca := Subscribe(c, 'a').0;
    assert ca.next == Some(1) && ca.arrays[1] == ['a'] && ca.arrays[0] == [];
    assert ca.arrays == [[], ['a']];
    var c0 := Subscribe(ca, 'b').0;
    assert c0.next == Some(1) && c0.arrays[1] == ['a', 'b'] && c0.arrays[0] == [];
  }

  /** `a` subscribes `c` when invoked: `c` is not invoked in that pass, and
      the next `notify()` invokes `a`, `b`, `c` in insertion order. */
  lemma SubscribedDuringPassRunsNextTime()
    ensures var c0 := Subscribe(Subscribe(Create<char>(), 'a').0, 'b').0;
            var p := NotifyWith(c0, k => if k == 0 then [SubscribeOp('c')] else []);
            && p.invoked == ['a', 'b']
            && !p.aborted
            && !p.coll.Cleared()
            && Notify(p.coll).1 == ['a', 'b', 'c']
  {
    TwoSubscribed();
    var c0 := Subscribe(Subscribe(Create<char>(), 'a').0, 'b').0;
    var effects: nat -> seq<Op<char>> := k => if k == 0 then [SubscribeOp('c')] else [];
    var c1 := Notify(c0).0;
    assert c1.current == Some(1) && c1.Aliased();
    var c2 := Subscribe(c1, 'c').0;
    assert c2.next == Some(2) && c2.arrays[2] == ['a', 'b', 'c'] && c2.arrays[1] == ['a', 'b'];
    assert ApplyOps(c1, effects(0)) == (c2, 1, false);
    assert ApplyOps(c2, effects(1)) == (c2, 0, false);
    assert RunPass(c2, 1, 2, effects) == PassResult([], c2, [], false);
    assert RunPass(c2, 1, 1, effects) == PassResult(['b'], c2, [], false);
    assert RunPass(c1, 1, 0, effects).invoked == ['a', 'b'];
  }

  /** The collection in `UnsubscribedDuringPassStillRunsOnce` once the pass
      has started and `a` has unsubscribed `b`: the snapshot still holds
      both, the live list only `a`. */
  lemma UnsubscribeDuringPass()
    ensures var c1 := Notify(Subscribe(Subscribe(Create<char>(), 'a').0, 'b').0).0;
            var c2 := Unsubscribe(c1, 1);
            && c1.Valid() && c1.next == Some(1) && |c1.arrays| == 2 && c1.arrays[1] == ['a', 'b']
            && c2.next == Some(2) && |c2.arrays| == 3 && c2.arrays[1] == ['a', 'b'] && c2.arrays[2] == ['a']
            && c2.current == Some(1) && c2.Live() == ['a']
  {
    TwoSubscribed();
    var c0 := Subscribe(Subscribe(Create<char>(), 'a').0, 'b').0;
    var c1 := Notify(c0).0;
    assert c1.current == Some(1) && c1.Aliased();
    assert IndexOf(['a', 'b'], 'b') == 1;
    assert SpliceOne(['a', 'b'], 1) == ['a'];
  }

  /** `a` unsubscribes `b` when invoked: `b` still runs in the in-flight pass
      (it is in the snapshot) but is gone from the live list afterwards. */
  lemma UnsubscribedDuringPassStillRunsOnce()
    ensures var c0 := Subscribe(Subscribe(Create<char>(), 'a').0, 'b').0;
            var p := NotifyWith(c0, k => if k == 0 then [UnsubscribeOp(1)] else []);
            && p.invoked == ['a', 'b']
            && p.coll.Live() == ['a']
  {
    UnsubscribeDuringPass();
    var c0 := Subscribe(Subscribe(Create<char>(), 'a').0, 'b').0;
    var effects: nat -> seq<Op<char>> := k => if k == 0 then [UnsubscribeOp(1)] else [];
    var c1 := Notify(c0).0;
    var c2 := Unsubscribe(c1, 1);
    assert ApplyOps(c1, effects(0)) == (c2, 1, false);
    assert ApplyOps(c2, effects(1)) == (c2, 0, false);
    assert RunPass(c2, 1, 2, effects) == PassResult([], c2, [], false);
    assert RunPass(c2, 1, 1, effects) == PassResult(['b'], c2, [], false);
    assert RunPass(c1, 1, 0, effects).invoked == ['a', 'b'];
  }
}
