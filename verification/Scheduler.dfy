/**
  Fetchers that share one assignment map, a shared work queue and workers: each fetched batch
  is claimed, queued, handled once and released, and a partition is in one place at a time.
 */
module Scheduler {
  import opened Offsets
  import opened Selections

  /** A batch on its way through the queue; ids are never reused. */
  datatype Item = Item(id: nat, tp: TopicPartition, node: int)

  /**
    `pushing` holds the fetchers that wait for their push, with the batches they pushed;
    `working` the batch each busy worker handles; `handled` how often a batch was settled.
   */
  datatype State = State(
    assignments: map<TopicPartition, int>, pushing: map<int, seq<Item>>, queue: seq<Item>,
    working: map<int, Item>, handled: multiset<nat>, nextId: nat)

  const Idle := State(map[], map[], [], map[], multiset{}, 0)

  // ------------------------------------------------------------------ steps

  /** filterUnassignedBatches: batches of partitions held by another fetcher are dropped. */
  function Available(assignments: map<TopicPartition, int>, node: int, tps: seq<TopicPartition>): seq<TopicPartition> {
    if tps == [] then []
    else
      var last := tps[|tps| - 1];
      Available(assignments, node, tps[..|tps| - 1])
      + if last in assignments && assignments[last] != node then [] else [last]
  }

  function ItemsOf(tps: seq<TopicPartition>, node: int, id: nat): (r: seq<Item>)
    ensures |r| == |tps| && forall i | 0 <= i < |r| :: r[i] == Item(id + i, tps[i], node)
  {
    if tps == [] then [] else [Item(id, tps[0], node)] + ItemsOf(tps[1..], node, id + 1)
  }

  function AssignAll(assignments: map<TopicPartition, int>, items: seq<Item>): map<TopicPartition, int>
    decreases |items|
  {
    if items == [] then assignments else AssignAll(assignments[items[0].tp := items[0].node], items[1..])
  }

  function UnassignAll(assignments: map<TopicPartition, int>, items: seq<Item>): map<TopicPartition, int> {
    assignments - (set it | it in items :: it.tp)
  }

  /** A fetch returns: the free batches are claimed and pushed. */
  function FetchReturns(s: State, node: int, tps: seq<TopicPartition>): State {
    var available := Available(s.assignments, node, tps);
    if node in s.pushing || available == [] then s
    else
      var items := ItemsOf(available, node, s.nextId);
      s.(assignments := AssignAll(s.assignments, items), pushing := s.pushing[node := items],
         queue := s.queue + items, nextId := s.nextId + |items|)
  }

  /** next(): an idle worker takes the head of the queue. */
  function WorkerTakes(s: State, worker: int): State {
    if worker in s.working || s.queue == [] then s
    else s.(working := s.working[worker := s.queue[0]], queue := s.queue[1..])
  }

  /** The handler resolves or rejects; either way the batch is settled. */
  function WorkerSettles(s: State, worker: int): State {
    if worker !in s.working then s
    else s.(working := s.working - {worker}, handled := s.handled + multiset{s.working[worker].id})
  }

  predicate AllSettled(s: State, node: int) {
    node in s.pushing && forall i | 0 <= i < |s.pushing[node]| :: s.pushing[node][i].id in s.handled
  }

  /** push returns or throws; in both cases the partitions are released. */
  function PushReturns(s: State, node: int): State {
    if !AllSettled(s, node) then s
    else s.(assignments := UnassignAll(s.assignments, s.pushing[node]), pushing := s.pushing - {node})
  }

  datatype Event =
    | Fetched(node: int, tps: seq<TopicPartition>)
    | Taken(worker: int)
    | Settled(worker: int)
    | Released(node: int)

  function Step(s: State, e: Event): State {
    match e
    case Fetched(node, tps) => FetchReturns(s, node, tps)
    case Taken(worker) => WorkerTakes(s, worker)
    case Settled(worker) => WorkerSettles(s, worker)
    case Released(node) => PushReturns(s, node)
  }

  function Run(s: State, es: seq<Event>): State
    decreases |es|
  {
    if es == [] then s else Run(Step(s, es[0]), es[1..])
  }

  ghost predicate Distinct<T(!new)>(xs: seq<T>) { forall i, j | 0 <= i < j < |xs| :: xs[i] != xs[j] }

  /** A fetch response lists a partition at most once. */
  ghost predicate Allowed(es: seq<Event>) { forall e | e in es :: e.Fetched? ==> Distinct(e.tps) }

  // ------------------------------------------------------------------ what every run keeps

  type Pushes = map<int, seq<Item>>

  ghost predicate Pushed(p: Pushes, it: Item) { it.node in p && it in p[it.node] }

  ghost predicate InWork(working: map<int, Item>, it: Item) { exists w :: w in working && working[w] == it }

  /** Claims and pushes agree, and every pushed batch has its own id and partition. */
  ghost predicate Claimed(assignments: map<TopicPartition, int>, p: Pushes, nextId: nat) {
    && (forall it | Pushed(p, it) :: it.id < nextId && it.tp in assignments && assignments[it.tp] == it.node)
    && (forall n | n in p :: forall it | it in p[n] :: it.node == n)
    && (forall tp | tp in assignments :: exists it :: Pushed(p, it) && it.tp == tp)
    && (forall x, y | Pushed(p, x) && Pushed(p, y) && (x.tp == y.tp || x.id == y.id) :: x == y)
  }

  ghost predicate QueueSound(p: Pushes, queue: seq<Item>, working: map<int, Item>, handled: multiset<nat>) {
    Distinct(queue) && forall it | it in queue :: Pushed(p, it) && it.id !in handled && !InWork(working, it)
  }

  ghost predicate WorkSound(p: Pushes, working: map<int, Item>, handled: multiset<nat>) {
    && (forall w | w in working :: Pushed(p, working[w]) && working[w].id !in handled)
    && (forall w, v | w in working && v in working && working[w] == working[v] :: w == v)
  }

  ghost predicate NoneLost(p: Pushes, queue: seq<Item>, working: map<int, Item>, handled: multiset<nat>) {
    forall it | Pushed(p, it) :: it in queue || InWork(working, it) || it.id in handled
  }

  ghost predicate HandledOnce(handled: multiset<nat>, nextId: nat) {
    forall id | id in handled :: id < nextId && handled[id] == 1
  }

  /** Each pushed batch is in exactly one of queue, work and handled, and no batch is handled twice. */
  ghost predicate Inv(s: State) {
    && Claimed(s.assignments, s.pushing, s.nextId)
    && QueueSound(s.pushing, s.queue, s.working, s.handled) && WorkSound(s.pushing, s.working, s.handled)
    && NoneLost(s.pushing, s.queue, s.working, s.handled) && HandledOnce(s.handled, s.nextId)
  }

  // ------------------------------------------------------------------ workers

  lemma InWorkAdded(working: map<int, Item>, worker: int, x: Item, it: Item)
    requires worker !in working
    ensures InWork(working[worker := x], it) <==> (InWork(working, it) || it == x)
  {
    var now := working[worker := x];
    if InWork(working, it) {
      var w :| w in working && working[w] == it;
      assert w in now && now[w] == it;
    }
    if it == x { assert now[worker] == it; }
  }

  lemma InWorkRemoved(working: map<int, Item>, worker: int, it: Item)
    requires worker in working && forall w, v | w in working && v in working && working[w] == working[v] :: w == v
    ensures InWork(working - {worker}, it) <==> (InWork(working, it) && it != working[worker])
  {
    var now := working - {worker};
    if InWork(working, it) && it != working[worker] {
      var w :| w in working && working[w] == it;
      assert w in now && now[w] == it;
    }
    if InWork(now, it) {
      var w :| w in now && now[w] == it;
      assert w in working && working[w] == it;
    }
  }

  lemma TakesKeeps(s: State, worker: int)
    requires Inv(s)
    ensures Inv(WorkerTakes(s, worker))
  {
    hide Claimed, InWork, Pushed, HandledOnce;
    if worker !in s.working && s.queue != [] {
      var first, rest := s.queue[0], s.queue[1..];
      forall it ensures InWork(s.working[worker := first], it) <==> (InWork(s.working, it) || it == first) {
        InWorkAdded(s.working, worker, first, it);
      }
      assert first in s.queue;
      HeadOnce(s.queue);
      forall w | w in s.working ensures s.working[w] != first { InWorkOf(s.working, w); }
    }
  }

  lemma InWorkOf(working: map<int, Item>, w: int)
    requires w in working
    ensures InWork(working, working[w])
  {}

  lemma HeadOnce(queue: seq<Item>)
    requires queue != [] && Distinct(queue)
    ensures Distinct(queue[1..]) && queue[0] !in queue[1..] && forall it :: it in queue <==> it == queue[0] || it in queue[1..]
  {
    assert forall i | 0 <= i < |queue[1..]| :: queue[1..][i] == queue[i + 1];
    assert queue == [queue[0]] + queue[1..];
  }

  lemma SettlesKeeps(s: State, worker: int)
    requires Inv(s)
    ensures Inv(WorkerSettles(s, worker))
  {
    hide Claimed, InWork, Distinct;
    if worker in s.working {
      var done := s.working[worker];
      forall it ensures InWork(s.working - {worker}, it) <==> (InWork(s.working, it) && it != done) {
        InWorkRemoved(s.working, worker, it);
      }
      InWorkOf(s.working, worker);
      forall it | Pushed(s.pushing, it) && it.id == done.id ensures it == done { SameBatch(s, it, done); }
      assert done.id < s.nextId by { IdBelow(s, done); }
    }
  }

  lemma SameBatch(s: State, x: Item, y: Item)
    requires Inv(s) && Pushed(s.pushing, x) && Pushed(s.pushing, y) && (x.id == y.id || x.tp == y.tp)
    ensures x == y
  {}

  lemma IdBelow(s: State, x: Item)
    requires Inv(s) && Pushed(s.pushing, x)
    ensures x.id < s.nextId && x.tp in s.assignments && s.assignments[x.tp] == x.node
  {}

  // ------------------------------------------------------------------ fetchers

  lemma {:induction false} AvailableIsFree(assignments: map<TopicPartition, int>, node: int, tps: seq<TopicPartition>)
    requires Distinct(tps)
    ensures Distinct(Available(assignments, node, tps))
    ensures forall tp | tp in Available(assignments, node, tps) ::
      tp in tps && (tp in assignments ==> assignments[tp] == node)
  {
    if tps != [] {
      AvailableIsFree(assignments, node, tps[..|tps| - 1]);
    }
  }

  ghost function FreeAt(assignments: map<TopicPartition, int>, node: int, tps: seq<TopicPartition>): set<nat> {
    set i: nat | i < |tps| && (tps[i] in assignments ==> assignments[tps[i]] == node)
  }

  /** The batches kept are those of partitions that nobody else holds, each once and in order. */
  lemma {:induction false} AvailableSelects(assignments: map<TopicPartition, int>, node: int, tps: seq<TopicPartition>)
    ensures Selects(tps, FreeAt(assignments, node, tps), Available(assignments, node, tps))
  {
    hide Selects;
    if tps == [] {
      SelectsNone<TopicPartition>();
      assert FreeAt(assignments, node, tps) == {};
    } else {
      var n, last := |tps| - 1, tps[|tps| - 1];
      var free := FreeAt(assignments, node, tps[..n]);
      AvailableSelects(assignments, node, tps[..n]);
      SelectsNext(tps[..n], free, Available(assignments, node, tps[..n]), last);
      assert tps == tps[..n] + [last];
      if last in assignments && assignments[last] != node {
        assert FreeAt(assignments, node, tps) == free;
        assert Available(assignments, node, tps) == Available(assignments, node, tps[..n]);
      } else {
        assert FreeAt(assignments, node, tps) == free + {n};
      }
    }
  }

  lemma {:induction false} AssignAllAdds(assignments: map<TopicPartition, int>, items: seq<Item>, node: int)
    requires forall it | it in items :: it.node == node
    ensures forall tp :: tp in AssignAll(assignments, items) <==> tp in assignments || exists it :: it in items && it.tp == tp
    ensures forall tp | tp in AssignAll(assignments, items) ::
      AssignAll(assignments, items)[tp] == if exists it :: it in items && it.tp == tp then node else assignments[tp]
    decreases |items|
  {
    if items != [] {
      AssignAllAdds(assignments[items[0].tp := items[0].node], items[1..], node);
      assert items == [items[0]] + items[1..];
    }
  }

  /** A fetcher that is not pushing holds no partition. */
  lemma IdleHoldsNothing(s: State, node: int, tp: TopicPartition)
    requires Inv(s) && node !in s.pushing && tp in s.assignments
    ensures s.assignments[tp] != node
  {
    var it :| Pushed(s.pushing, it) && it.tp == tp;
  }

  /** New batches: fresh ids, partitions nobody holds. */
  ghost predicate Fresh(s: State, items: seq<Item>, node: int) {
    && (forall i | 0 <= i < |items| :: items[i].node == node && items[i].id == s.nextId + i && items[i].tp !in s.assignments)
    && (forall i, j | 0 <= i < j < |items| :: items[i].tp != items[j].tp)
  }

  lemma NewItemsAreFresh(s: State, node: int, tps: seq<TopicPartition>)
    requires Inv(s) && node !in s.pushing && Distinct(tps)
    ensures Fresh(s, ItemsOf(Available(s.assignments, node, tps), node, s.nextId), node)
  {
    var available := Available(s.assignments, node, tps);
    AvailableIsFree(s.assignments, node, tps);
    forall i | 0 <= i < |available| ensures available[i] !in s.assignments {
      assert available[i] in available;
      if available[i] in s.assignments { IdleHoldsNothing(s, node, available[i]); }
    }
  }

  lemma PushedAdded(p: Pushes, node: int, items: seq<Item>, it: Item)
    requires node !in p && forall x | x in items :: x.node == node
    ensures Pushed(p[node := items], it) <==> (Pushed(p, it) || it in items)
  {}

  lemma ClaimKeeps(s: State, node: int, items: seq<Item>)
    requires Inv(s) && node !in s.pushing && Fresh(s, items, node)
    ensures Claimed(AssignAll(s.assignments, items), s.pushing[node := items], s.nextId + |items|)
  {
    hide Inv, AssignAll, Pushed;
    var p, a := s.pushing[node := items], AssignAll(s.assignments, items);
    AssignAllAdds(s.assignments, items, node);
    forall it ensures Pushed(p, it) <==> (Pushed(s.pushing, it) || it in items) { PushedAdded(s.pushing, node, items, it); }
    forall tp | tp in a ensures exists it :: Pushed(p, it) && it.tp == tp {
      HolderPushed(s, node, items, tp);
    }
    forall x, y | Pushed(p, x) && Pushed(p, y) && (x.tp == y.tp || x.id == y.id) ensures x == y {
      PairwiseFresh(s, items, node, x, y);
    }
    forall it | Pushed(p, it) ensures it.id < s.nextId + |items| && it.tp in a && a[it.tp] == it.node {
      PushedHolds(s, node, items, it);
    }
    forall n | n in p ensures forall it: Item | it in p[n] :: it.node == n { OwnersKept(s, node, items, n); }
  }

  lemma OwnersKept(s: State, node: int, items: seq<Item>, n: int)
    requires Inv(s) && Fresh(s, items, node) && n in s.pushing[node := items]
    ensures forall it | it in s.pushing[node := items][n] :: it.node == n
  {}

  lemma HolderPushed(s: State, node: int, items: seq<Item>, tp: TopicPartition)
    requires Inv(s) && node !in s.pushing && Fresh(s, items, node)
    requires tp in s.assignments || exists it :: it in items && it.tp == tp
    ensures exists it :: Pushed(s.pushing[node := items], it) && it.tp == tp
  {
    hide QueueSound, WorkSound, NoneLost, HandledOnce;
    if tp in s.assignments {
      var it :| Pushed(s.pushing, it) && it.tp == tp;
      PushedAdded(s.pushing, node, items, it);
    } else {
      var it :| it in items && it.tp == tp;
      PushedAdded(s.pushing, node, items, it);
    }
  }

  lemma PushedHolds(s: State, node: int, items: seq<Item>, it: Item)
    requires Inv(s) && Fresh(s, items, node) && (Pushed(s.pushing, it) || it in items)
    ensures it.id < s.nextId + |items| && it.tp in AssignAll(s.assignments, items)
    ensures AssignAll(s.assignments, items)[it.tp] == it.node
  {
    hide Inv, AssignAll;
    AssignAllAdds(s.assignments, items, node);
    if Pushed(s.pushing, it) { IdBelow(s, it); NotNew(items, it.tp, s.assignments); }
  }

  lemma NotNew(items: seq<Item>, tp: TopicPartition, assignments: map<TopicPartition, int>)
    requires tp in assignments && forall it | it in items :: it.tp !in assignments
    ensures !exists it :: it in items && it.tp == tp
  {}

  lemma PairwiseFresh(s: State, items: seq<Item>, node: int, x: Item, y: Item)
    requires Inv(s) && Fresh(s, items, node) && (x.tp == y.tp || x.id == y.id)
    requires (Pushed(s.pushing, x) || x in items) && (Pushed(s.pushing, y) || y in items)
    ensures x == y
  {
    if Pushed(s.pushing, x) && Pushed(s.pushing, y) {
      SameBatch(s, x, y);
    } else if Pushed(s.pushing, x) {
      IdBelow(s, x);
    } else if Pushed(s.pushing, y) {
      IdBelow(s, y);
    }
  }

  lemma FetchKeeps(s: State, node: int, tps: seq<TopicPartition>)
    requires Inv(s) && Distinct(tps)
    ensures Inv(FetchReturns(s, node, tps))
  {
    hide Claimed, Available, AssignAll;
    var available := Available(s.assignments, node, tps);
    if node !in s.pushing && available != [] {
      var items := ItemsOf(available, node, s.nextId);
      NewItemsAreFresh(s, node, tps);
      ClaimKeeps(s, node, items);
      EnqueueKeeps(s, node, items);
    }
  }

  lemma EnqueueKeeps(s: State, node: int, items: seq<Item>)
    requires Inv(s) && node !in s.pushing && Fresh(s, items, node)
    ensures
      var p, queue := s.pushing[node := items], s.queue + items;
      && QueueSound(p, queue, s.working, s.handled) && WorkSound(p, s.working, s.handled)
      && NoneLost(p, queue, s.working, s.handled) && HandledOnce(s.handled, s.nextId + |items|)
  {
    hide Claimed;
    var p, queue := s.pushing[node := items], s.queue + items;
    forall it ensures Pushed(p, it) <==> (Pushed(s.pushing, it) || it in items) { PushedAdded(s.pushing, node, items, it); }
    forall it | it in items ensures it.id !in s.handled && !Pushed(s.pushing, it) && !InWork(s.working, it) {
      if Pushed(s.pushing, it) { IdBelow(s, it); }
    }
  }

  lemma ReleaseKeeps(s: State, node: int)
    requires Inv(s)
    ensures Inv(PushReturns(s, node))
  {
    if AllSettled(s, node) {
      var items, p := s.pushing[node], s.pushing - {node};
      var a := UnassignAll(s.assignments, items);
      forall it ensures Pushed(p, it) <==> (Pushed(s.pushing, it) && it.node != node) {}
      forall it | Pushed(s.pushing, it) && it.node == node ensures it.id in s.handled {}
      forall it | Pushed(p, it) ensures it.tp in a {
        forall x | x in items ensures x.tp != it.tp { if x.tp == it.tp { SameBatch(s, x, it); } }
      }
      forall tp | tp in a ensures exists it :: Pushed(p, it) && it.tp == tp {
        var it :| Pushed(s.pushing, it) && it.tp == tp;
        assert Pushed(p, it);
      }
    }
  }

  lemma StepKeeps(s: State, e: Event)
    requires Inv(s) && (e.Fetched? ==> Distinct(e.tps))
    ensures Inv(Step(s, e))
  {
    hide Inv, FetchReturns, WorkerTakes, WorkerSettles, PushReturns;
    match e
    case Fetched(node, tps) => FetchKeeps(s, node, tps);
    case Taken(worker) => TakesKeeps(s, worker);
    case Settled(worker) => SettlesKeeps(s, worker);
    case Released(node) => ReleaseKeeps(s, node);
  }

  lemma {:induction false} RunKeeps(s: State, es: seq<Event>)
    requires Inv(s) && Allowed(es)
    ensures Inv(Run(s, es))
    decreases |es|
  {
    hide Inv, Step;
    if es != [] {
      StepKeeps(s, es[0]);
      RunKeeps(Step(s, es[0]), es[1..]);
    }
  }

  // ------------------------------------------------------------------ no batch is forgotten

  ghost predicate Waiting(p: Pushes, id: nat) { exists it :: Pushed(p, it) && it.id == id }

  /** Every id ever given out was handled or belongs to a push that still waits. */
  ghost predicate Accounted(s: State) { forall id: nat | id < s.nextId :: id in s.handled || Waiting(s.pushing, id) }

  lemma FetchAccounts(s: State, node: int, tps: seq<TopicPartition>)
    requires Accounted(s)
    ensures Accounted(FetchReturns(s, node, tps))
  {
    hide Available, AssignAll;
    var t, available := FetchReturns(s, node, tps), Available(s.assignments, node, tps);
    if node !in s.pushing && available != [] {
      var items := ItemsOf(available, node, s.nextId);
      assert t.pushing[node] == items;
      forall id: nat | id < t.nextId && id !in t.handled ensures Waiting(t.pushing, id) {
        if id < s.nextId {
          var it :| Pushed(s.pushing, it) && it.id == id;
          assert Pushed(t.pushing, it);
        } else {
          assert Pushed(t.pushing, items[id - s.nextId]);
        }
      }
    }
  }

  lemma ReleaseAccounts(s: State, node: int)
    requires Accounted(s)
    ensures Accounted(PushReturns(s, node))
  {
    var t := PushReturns(s, node);
    if AllSettled(s, node) {
      forall id: nat | id < t.nextId && id !in t.handled ensures Waiting(t.pushing, id) {
        var it :| Pushed(s.pushing, it) && it.id == id;
        assert Pushed(t.pushing, it);
      }
    }
  }

  lemma StepAccounts(s: State, e: Event)
    requires Accounted(s)
    ensures Accounted(Step(s, e))
  {
    hide FetchReturns, PushReturns;
    match e
    case Fetched(node, tps) => FetchAccounts(s, node, tps);
    case Taken(_) =>
    case Settled(_) =>
    case Released(node) => ReleaseAccounts(s, node);
  }

  lemma {:induction false} RunAccounts(s: State, es: seq<Event>)
    requires Accounted(s)
    ensures Accounted(Run(s, es))
    decreases |es|
  {
    hide Accounted, Step;
    if es != [] {
      StepAccounts(s, es[0]);
      RunAccounts(Step(s, es[0]), es[1..]);
    }
  }

  /** Queued or being handled. */
  ghost predicate Live(s: State, it: Item) { it in s.queue || InWork(s.working, it) }

  /**
    In every run, at most one batch of a partition is queued or being handled, no batch is
    handled twice, and a push returns only after each of its batches was handled exactly once:
    every batch ever pushed was handled or its push is still waiting.
   */
  lemma Scheduling(es: seq<Event>)
    requires Allowed(es)
    ensures
      var s := Run(Idle, es);
      && (forall x, y | Live(s, x) && Live(s, y) && x.tp == y.tp :: x == y)
      && (forall id :: s.handled[id] <= 1)
      && (forall node | AllSettled(s, node) :: forall i | 0 <= i < |s.pushing[node]| ::
            s.handled[s.pushing[node][i].id] == 1 && !Live(s, s.pushing[node][i]))
      && (forall node | node !in s.pushing :: forall it | Live(s, it) :: it.node != node)
      && (forall id: nat | id < s.nextId && !Waiting(s.pushing, id) :: s.handled[id] == 1)
  {
    hide Claimed;
    var s := Run(Idle, es);
    assert Inv(Idle) by { IdleHolds(); }
    RunKeeps(Idle, es);
    RunAccounts(Idle, es);
    forall x | Live(s, x) ensures Pushed(s.pushing, x) && x.id !in s.handled { LiveIsPushed(s, x); }
    forall x, y | Live(s, x) && Live(s, y) && x.tp == y.tp ensures x == y { SameBatch(s, x, y); }
  }

  lemma IdleHolds()
    ensures Inv(Idle)
  {}

  lemma LiveIsPushed(s: State, x: Item)
    requires Inv(s) && Live(s, x)
    ensures Pushed(s.pushing, x) && x.id !in s.handled
  {}

  // ------------------------------------------------------------------ order of the queue

  /** What waits are the batches pushed last, in the order of the pushes. */
  ghost predicate InLine(s: State) {
    |s.queue| <= s.nextId && forall i | 0 <= i < |s.queue| :: s.queue[i].id == s.nextId - |s.queue| + i
  }

  /** The batch a step hands to an idle worker. */
  function TakenBy(s: State, e: Event): seq<nat> {
    if e.Taken? && e.worker !in s.working && s.queue != [] then [Step(s, e).working[e.worker].id] else []
  }

  function TakenIn(s: State, es: seq<Event>): seq<nat>
    decreases |es|
  {
    if es == [] then [] else TakenBy(s, es[0]) + TakenIn(Step(s, es[0]), es[1..])
  }

  lemma StepTakesOldest(s: State, e: Event)
    requires InLine(s)
    ensures InLine(Step(s, e))
    ensures forall i | 0 <= i < |TakenBy(s, e)| :: TakenBy(s, e)[i] == s.nextId - |s.queue| + i
    ensures s.nextId - |s.queue| + |TakenBy(s, e)| == Step(s, e).nextId - |Step(s, e).queue|
  {
    hide Available, AssignAll, UnassignAll, AllSettled;
  }

  lemma {:induction false} RunTakesOldest(s: State, es: seq<Event>)
    requires InLine(s)
    ensures InLine(Run(s, es))
    ensures forall i | 0 <= i < |TakenIn(s, es)| :: TakenIn(s, es)[i] == s.nextId - |s.queue| + i
    ensures s.nextId - |s.queue| + |TakenIn(s, es)| == Run(s, es).nextId - |Run(s, es).queue|
    decreases |es|
  {
    hide Step, TakenBy;
    if es != [] {
      StepTakesOldest(s, es[0]);
      RunTakesOldest(Step(s, es[0]), es[1..]);
    }
  }

  /** In every run the workers get the batches in the order they were pushed, leaving none out. */
  lemma FirstPushedFirstTaken(es: seq<Event>)
    ensures
      var s, ids := Run(Idle, es), TakenIn(Idle, es);
      && (forall i | 0 <= i < |ids| :: ids[i] == i)
      && |ids| + |s.queue| == s.nextId
      && forall i | 0 <= i < |s.queue| :: s.queue[i].id == |ids| + i
  {
    RunTakesOldest(Idle, es);
  }

  // ------------------------------------------------------------------ the shared objects

  /** The assignment map that fetchers share, the queue and its workers. */
  class FetchScheduler {
    var assignments: map<TopicPartition, int>
    var pushing: map<int, seq<Item>>
    var queue: seq<Item>
    var working: map<int, Item>
    var handled: multiset<nat>
    var nextId: nat

    function View(): State
      reads this
    {
      State(assignments, pushing, queue, working, handled, nextId)
    }

    constructor ()
      ensures View() == Idle
    {
      assignments, pushing, queue, working, handled, nextId := map[], map[], [], map[], multiset{}, 0;
    }

    method FilterUnassigned(node: int, tps: seq<TopicPartition>) returns (available: seq<TopicPartition>)
      ensures available == Available(assignments, node, tps)
    {
      available := [];
      for i := 0 to |tps|
        invariant available == Available(assignments, node, tps[..i])
      {
        if !(tps[i] in assignments && assignments[tps[i]] != node) { available := available + [tps[i]]; }
        assert tps[..i + 1][..i] == tps[..i];
      }
      assert tps[..|tps|] == tps;
    }

    method AssignBatches(items: seq<Item>)
      modifies this`assignments
      ensures assignments == AssignAll(old(assignments), items)
    {
      for i := 0 to |items|
        invariant AssignAll(assignments, items[i..]) == AssignAll(old(assignments), items)
      {
        assert items[i..][1..] == items[i + 1..];
        assignments := assignments[items[i].tp := items[i].node];
      }
    }

    method UnassignBatches(items: seq<Item>)
      modifies this`assignments
      ensures assignments == UnassignAll(old(assignments), items)
    {
      for i := 0 to |items|
        invariant assignments == UnassignAll(old(assignments), items[..i])
      {
        assert items[..i + 1] == items[..i] + [items[i]];
        assignments := assignments - {items[i].tp};
      }
      assert items[..|items|] == items;
    }

    /** What a fetcher does when its fetch returns, up to waiting for its push. */
    method FetchReturned(node: int, tps: seq<TopicPartition>)
      modifies this
      ensures View() == Step(old(View()), Fetched(node, tps))
    {
      if node in pushing { return; }
      var available := FilterUnassigned(node, tps);
      if |available| > 0 {
        var items := ItemsOf(available, node, nextId);
        AssignBatches(items);
        queue, pushing, nextId := queue + items, pushing[node := items], nextId + |items|;
      }
    }

    method TakeNext(worker: int)
      modifies this
      ensures View() == Step(old(View()), Taken(worker))
    {
      if worker !in working && |queue| > 0 {
        working, queue := working[worker := queue[0]], queue[1..];
      }
    }

    method Settle(worker: int)
      modifies this
      ensures View() == Step(old(View()), Settled(worker))
    {
      if worker in working {
        handled, working := handled + multiset{working[worker].id}, working - {worker};
      }
    }

    /** Once every batch of the push has settled, the fetcher releases the partitions. */
    method PushReturned(node: int)
      modifies this
      ensures View() == Step(old(View()), Released(node))
    {
      if AllSettled(View(), node) {
        UnassignBatches(pushing[node]);
        pushing := pushing - {node};
      }
    }
  }
}
