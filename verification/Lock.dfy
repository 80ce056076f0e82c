/**
  The mutual-exclusion lock of src/utils/lock.js: a release hands the lock to the waiter that
  has waited longest, and a waiter may give up after its timeout.
 */
module Locks {
  import opened Wire

  /** Waiters by acquire call, in insertion order. */
  datatype LockState = LockState(locked: bool, waiting: seq<nat>)

  const Unlocked := LockState(false, [])

  function Acquired(l: LockState, id: nat): LockState {
    if !l.locked then l.(locked := true) else l.(waiting := l.waiting + [id])
  }

  /** The waiter that a release wakes. */
  function Woken(l: LockState): Option<nat> {
    if l.waiting == [] then None else Some(l.waiting[0])
  }

  function Released(l: LockState): LockState {
    if l.waiting == [] then Unlocked else LockState(true, l.waiting[1..])
  }

  function Without(ids: seq<nat>, id: nat): (r: seq<nat>) {
    if ids == [] then [] else (if ids[0] == id then [] else [ids[0]]) + Without(ids[1..], id)
  }

  function GivenUp(l: LockState, id: nat): LockState { l.(waiting := Without(l.waiting, id)) }

  /** One lock object; every acquire call has its own id. */
  class Lock {
    var locked: bool
    var waiting: seq<nat>

    function View(): LockState
      reads this
    {
      LockState(locked, waiting)
    }

    constructor ()
      ensures View() == Unlocked
    {
      locked, waiting := false, [];
    }

    /** acquire: the promise resolves at once or the caller joins the waiters. */
    method Acquire(id: nat) returns (granted: bool)
      modifies this
      ensures View() == Acquired(old(View()), id) && granted == !old(locked)
    {
      granted := !locked;
      if !locked { locked := true; } else { waiting := waiting + [id]; }
    }

    /** A woken waiter's own attempt: it takes the lock if it is free and leaves the set. */
    method TryToAcquire(id: nat) returns (granted: bool)
      modifies this
      ensures granted == !old(locked) && locked
      ensures waiting == if granted then Without(old(waiting), id) else old(waiting)
    {
      granted := !locked;
      if granted {
        locked := true;
        waiting := Without(waiting, id);
      }
    }

    method Release() returns (woken: Option<nat>)
      requires Distinct(waiting)
      modifies this
      ensures View() == Released(old(View())) && woken == Woken(old(View()))
    {
      locked, woken := false, None;
      if |waiting| > 0 {
        woken := Some(waiting[0]);
        WithoutFirst(waiting);
        var _ := TryToAcquire(waiting[0]);
      }
    }

    method TimeOut(id: nat)
      modifies this
      ensures View() == GivenUp(old(View()), id)
    {
      waiting := Without(waiting, id);
    }
  }

  // ------------------------------------------------------------------ lists of callers

  ghost predicate Distinct(ids: seq<nat>) { forall i, j | 0 <= i < j < |ids| :: ids[i] != ids[j] }

  lemma DistinctAppend(ids: seq<nat>, id: nat)
    requires Distinct(ids) && id !in ids
    ensures Distinct(ids + [id])
  {}

  lemma {:induction false} WithoutOthers(ids: seq<nat>, id: nat)
    ensures id !in ids ==> Without(ids, id) == ids
    ensures forall x :: x in Without(ids, id) <==> x in ids && x != id
    ensures Distinct(ids) ==> Distinct(Without(ids, id))
  {
    if ids != [] {
      var rest := ids[1..];
      WithoutOthers(rest, id);
      assert ids == [ids[0]] + rest;
      if Distinct(ids) {
        assert forall i | 0 <= i < |rest| :: rest[i] == ids[i + 1];
        assert Distinct(rest) && ids[0] !in Without(rest, id);
      }
    }
  }

  lemma WithoutFirst(ids: seq<nat>)
    requires ids != [] && Distinct(ids)
    ensures Without(ids, ids[0]) == ids[1..] && ids[0] !in ids[1..] && Distinct(ids[1..])
  {
    WithoutOthers(ids[1..], ids[0]);
  }

  lemma {:induction false} WithoutAppend(xs: seq<nat>, ys: seq<nat>, id: nat)
    ensures Without(xs + ys, id) == Without(xs, id) + Without(ys, id)
  {
    if xs != [] {
      assert (xs + ys)[1..] == xs[1..] + ys;
      WithoutAppend(xs[1..], ys, id);
    } else {
      assert xs + ys == ys;
    }
  }

  // ------------------------------------------------------------------ runs

  datatype Event =
    | Acquiring(id: nat)
    | Releasing
    | TimingOut(id: nat)

  /** The lock, who is inside, all calls in order with those that gave up taken out, and all grants in order. */
  datatype History = History(lock: LockState, holder: Option<nat>, calls: seq<nat>, grants: seq<nat>, seen: set<nat>)

  const Fresh := History(Unlocked, None, [], [], {})

  function Step(h: History, e: Event): History {
    match e
    case Acquiring(id) =>
      var next := h.(lock := Acquired(h.lock, id), calls := h.calls + [id], seen := h.seen + {id});
      if h.lock.locked then next else next.(holder := Some(id), grants := h.grants + [id])
    case Releasing =>
      var woken := Woken(h.lock);
      h.(lock := Released(h.lock), holder := woken,
         grants := h.grants + (if woken.Some? then [woken.value] else []))
    case TimingOut(id) =>
      if id in h.lock.waiting then h.(lock := GivenUp(h.lock, id), calls := Without(h.calls, id)) else h
  }

  function Run(h: History, es: seq<Event>): History
    decreases |es|
  {
    if es == [] then h else Run(Step(h, es[0]), es[1..])
  }

  /** Each acquire call is new, and only the caller inside releases. */
  ghost predicate Allowed(h: History, es: seq<Event>)
    decreases |es|
  {
    es != [] ==>
      && (es[0].Acquiring? ==> es[0].id !in h.seen)
      && (es[0].Releasing? ==> h.holder.Some?)
      && Allowed(Step(h, es[0]), es[1..])
  }

  ghost predicate Inv(h: History) {
    && (h.lock.locked <==> h.holder.Some?)
    && (h.lock.waiting != [] ==> h.lock.locked)
    && h.calls == h.grants + h.lock.waiting
    && (h.holder.Some? ==> h.grants != [] && h.grants[|h.grants| - 1] == h.holder.value)
    && Distinct(h.calls) && forall id | id in h.calls :: id in h.seen
  }

  lemma WaitersNotGranted(h: History, id: nat)
    requires Inv(h) && id in h.lock.waiting
    ensures id !in h.grants
  {
    var i :| 0 <= i < |h.lock.waiting| && h.lock.waiting[i] == id;
    assert h.calls[|h.grants| + i] == id;
    assert forall j | 0 <= j < |h.grants| :: h.calls[j] == h.grants[j];
  }

  lemma TimingOutKeeps(h: History, id: nat)
    requires Inv(h) && id in h.lock.waiting
    ensures Inv(Step(h, TimingOut(id)))
  {
    hide Without, Distinct;
    WaitersNotGranted(h, id);
    WithoutAppend(h.grants, h.lock.waiting, id);
    WithoutOthers(h.grants, id);
    WithoutOthers(h.calls, id);
    WithoutOthers(h.lock.waiting, id);
  }

  lemma ReleasingKeeps(h: History)
    requires Inv(h) && h.holder.Some?
    ensures Inv(Step(h, Releasing))
  {
    hide Distinct;
    if h.lock.waiting != [] {
      assert h.lock.waiting == [h.lock.waiting[0]] + h.lock.waiting[1..];
      assert h.calls == Step(h, Releasing).grants + h.lock.waiting[1..];
    }
  }

  lemma AcquiringKeeps(h: History, id: nat)
    requires Inv(h) && id !in h.seen
    ensures Inv(Step(h, Acquiring(id)))
  {
    assert Distinct(h.calls + [id]);
  }

  lemma StepKeeps(h: History, e: Event)
    requires Inv(h) && (e.Acquiring? ==> e.id !in h.seen) && (e.Releasing? ==> h.holder.Some?)
    ensures Inv(Step(h, e))
  {
    hide Inv;
    match e
    case Acquiring(id) => AcquiringKeeps(h, id);
    case Releasing => ReleasingKeeps(h);
    case TimingOut(id) => if id in h.lock.waiting { TimingOutKeeps(h, id); }
  }

  lemma {:induction false} RunKeeps(h: History, es: seq<Event>)
    requires Inv(h) && Allowed(h, es)
    ensures Inv(Run(h, es))
    decreases |es|
  {
    hide Inv, Step;
    if es != [] {
      StepKeeps(h, es[0]);
      RunKeeps(Step(h, es[0]), es[1..]);
    }
  }

  /**
    In every run the lock is taken exactly when one caller is inside, a free lock has no
    waiters, and the calls that did not give up are granted in the order they were made.
   */
  lemma GrantsInOrder(es: seq<Event>)
    requires Allowed(Fresh, es)
    ensures
      var h := Run(Fresh, es);
      && (h.lock.locked <==> h.holder.Some?) && (!h.lock.locked ==> h.lock.waiting == [])
      && h.grants + h.lock.waiting == h.calls && Distinct(h.calls)
      && (h.holder.Some? ==> h.grants != [] && h.holder.value == h.grants[|h.grants| - 1])
  {
    hide Step;
    RunKeeps(Fresh, es);
  }
}
