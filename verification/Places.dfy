/**
  The fetch scheduler seen from one partition: free, or claimed by one fetcher with its batch
  queued, being handled, or settled and waiting for the fetcher to release the partition.
 */
module Places {
  import opened Offsets
  import Selections
  import opened Scheduler

  datatype Place =
    | Free
    | Queued(node: int)
    | Working(node: int)
    | Done(node: int)

  datatype Move = Claim(node: int) | Take | Settle | Release | Stay

  /** A claim on a partition that is not free drops the batch. */
  function Moved(p: Place, m: Move): Place {
    match m
    case Claim(node) => if p.Free? then Queued(node) else p
    case Take => if p.Queued? then Working(p.node) else p
    case Settle => if p.Working? then Done(p.node) else p
    case Release => if p.Done? then Free else p
    case Stay => p
  }

  ghost predicate Of(it: Item, tp: TopicPartition, node: int) { it.tp == tp && it.node == node }

  /** Where the shared claim map, the queue, the workers and the settled batches put a partition. */
  ghost predicate At(s: State, tp: TopicPartition, p: Place) {
    match p
    case Free => tp !in s.assignments
    case Queued(node) => exists it :: it in s.queue && Of(it, tp, node)
    case Working(node) => exists it :: InWork(s.working, it) && Of(it, tp, node)
    case Done(node) => exists it :: Pushed(s.pushing, it) && it.id in s.handled && Of(it, tp, node)
  }

  ghost function MoveOf(s: State, e: Event, tp: TopicPartition): Move {
    match e
    case Fetched(node, tps) => if node !in s.pushing && tp in tps then Claim(node) else Stay
    case Taken(worker) => if worker !in s.working && s.queue != [] && s.queue[0].tp == tp then Take else Stay
    case Settled(worker) => if worker in s.working && s.working[worker].tp == tp then Settle else Stay
    case Released(node) => if AllSettled(s, node) && exists it :: Of(it, tp, node) && it in s.pushing[node] then Release else Stay
  }

  /** The pushed batch that a claimed partition belongs to. */
  lemma PlacedItem(s: State, tp: TopicPartition, p: Place) returns (it: Item)
    requires Inv(s) && At(s, tp, p) && !p.Free?
    ensures Pushed(s.pushing, it) && Of(it, tp, p.node)
    ensures p.Queued? ==> it in s.queue
    ensures p.Working? ==> InWork(s.working, it)
    ensures p.Done? ==> it.id in s.handled
  {
    hide Claimed, NoneLost, HandledOnce;
    match p
    case Queued(node) => it :| it in s.queue && Of(it, tp, node);
    case Working(node) => it :| InWork(s.working, it) && Of(it, tp, node);
    case Done(node) => it :| Pushed(s.pushing, it) && it.id in s.handled && Of(it, tp, node);
  }

  /** Every partition is in exactly one place. */
  lemma OnePlace(s: State, tp: TopicPartition)
    requires Inv(s)
    ensures exists p :: At(s, tp, p)
    ensures forall p, q | At(s, tp, p) && At(s, tp, q) :: p == q
  {
    if tp !in s.assignments {
      assert At(s, tp, Free);
    } else {
      var it :| Pushed(s.pushing, it) && it.tp == tp;
      assert Of(it, tp, it.node);
      if it in s.queue { assert At(s, tp, Queued(it.node)); }
      else if InWork(s.working, it) { assert At(s, tp, Working(it.node)); }
      else { assert At(s, tp, Done(it.node)); }
    }
    forall p, q | At(s, tp, p) && At(s, tp, q) ensures p == q { SamePlace(s, tp, p, q); }
  }

  lemma SamePlace(s: State, tp: TopicPartition, p: Place, q: Place)
    requires Inv(s) && At(s, tp, p) && At(s, tp, q)
    ensures p == q
  {
    hide Inv, At;
    if !p.Free? && !q.Free? {
      var x := PlacedItem(s, tp, p);
      var y := PlacedItem(s, tp, q);
      SameBatch(s, x, y);
      Apart(s, x);
    } else if !p.Free? {
      ClaimedIsNotFree(s, tp, p);
      FreeIsUnclaimed(s, tp, q);
    } else if !q.Free? {
      ClaimedIsNotFree(s, tp, q);
      FreeIsUnclaimed(s, tp, p);
    }
  }

  lemma FreeIsUnclaimed(s: State, tp: TopicPartition, p: Place)
    requires At(s, tp, p) && p.Free?
    ensures tp !in s.assignments
  {}

  lemma ClaimedIsNotFree(s: State, tp: TopicPartition, p: Place)
    requires Inv(s) && At(s, tp, p) && !p.Free?
    ensures tp in s.assignments && s.assignments[tp] == p.node && p.node in s.pushing
  {
    hide Inv, At;
    var it := PlacedItem(s, tp, p);
    IdBelow(s, it);
  }

  lemma Apart(s: State, it: Item)
    requires Inv(s) && Pushed(s.pushing, it)
    ensures it in s.queue ==> !InWork(s.working, it) && it.id !in s.handled
    ensures InWork(s.working, it) ==> it.id !in s.handled
  {
    hide Claimed, NoneLost, HandledOnce;
  }

  // ------------------------------------------------------------------ steps

  lemma FreeIsAvailable(assignments: map<TopicPartition, int>, node: int, tps: seq<TopicPartition>, tp: TopicPartition)
    requires tp !in assignments
    ensures tp in Available(assignments, node, tps) <==> tp in tps
  {
    hide Available, Selections.Selects;
    AvailableSelects(assignments, node, tps);
    Selections.SelectsMembers(tps, FreeAt(assignments, node, tps), Available(assignments, node, tps), tp);
  }

  lemma FetchMoves(s: State, node: int, tps: seq<TopicPartition>, tp: TopicPartition, p: Place)
    requires Inv(s) && Distinct(tps) && At(s, tp, p)
    ensures At(FetchReturns(s, node, tps), tp, Moved(p, MoveOf(s, Fetched(node, tps), tp)))
  {
    hide Inv, Available, AssignAll;
    var available, t := Available(s.assignments, node, tps), FetchReturns(s, node, tps);
    if node !in s.pushing && available != [] {
      var items := ItemsOf(available, node, s.nextId);
      if p.Free? {
        FreeIsAvailable(s.assignments, node, tps, tp);
        if tp in tps {
          var i :| 0 <= i < |available| && available[i] == tp;
          assert items[i] in t.queue && Of(items[i], tp, node);
        } else {
          StaysUnclaimed(s, node, items, tp);
        }
      } else {
        var it := PlacedItem(s, tp, p);
        assert Pushed(t.pushing, it);
      }
    } else if p.Free? {
      FreeIsAvailable(s.assignments, node, tps, tp);
    }
  }

  lemma StaysUnclaimed(s: State, node: int, items: seq<Item>, tp: TopicPartition)
    requires tp !in s.assignments && forall it | it in items :: it.node == node && it.tp != tp
    ensures tp !in AssignAll(s.assignments, items)
  {
    AssignAllAdds(s.assignments, items, node);
  }

  lemma TakeMoves(s: State, worker: int, tp: TopicPartition, p: Place)
    requires Inv(s) && At(s, tp, p)
    ensures At(WorkerTakes(s, worker), tp, Moved(p, MoveOf(s, Taken(worker), tp)))
  {
    hide Inv, InWork;
    var t := WorkerTakes(s, worker);
    if worker !in s.working && s.queue != [] && !p.Free? {
      var first := s.queue[0];
      var it := PlacedItem(s, tp, p);
      InWorkAdded(s.working, worker, first, it);
      assert s.queue == [first] + s.queue[1..];
      if first.tp == tp {
        HeadIsPlaced(s, it);
        assert it == first;
      } else if p.Queued? {
        assert it in t.queue;
      }
    } else if worker !in s.working && s.queue != [] {
      HeadClaimed(s);
    }
  }

  lemma HeadClaimed(s: State)
    requires Inv(s) && s.queue != []
    ensures s.queue[0].tp in s.assignments
  {
    assert s.queue[0] in s.queue;
    IdBelow(s, s.queue[0]);
  }

  lemma HeadIsPlaced(s: State, it: Item)
    requires Inv(s) && s.queue != [] && Pushed(s.pushing, it) && it.tp == s.queue[0].tp
    ensures it == s.queue[0] && !InWork(s.working, it) && it.id !in s.handled
  {
    assert s.queue[0] in s.queue;
    SameBatch(s, it, s.queue[0]);
    Apart(s, it);
  }

  lemma SettleMoves(s: State, worker: int, tp: TopicPartition, p: Place)
    requires Inv(s) && At(s, tp, p)
    ensures At(WorkerSettles(s, worker), tp, Moved(p, MoveOf(s, Settled(worker), tp)))
  {
    hide Inv, InWork;
    if worker in s.working {
      var done := s.working[worker];
      WorkedIsPushed(s, worker);
      if !p.Free? {
        var it := PlacedItem(s, tp, p);
        InWorkRemoved(s.working, worker, it);
        if done.tp == tp {
          SameBatch(s, it, done);
          Apart(s, it);
        }
      }
    }
  }

  lemma WorkedIsPushed(s: State, worker: int)
    requires Inv(s) && worker in s.working
    ensures Pushed(s.pushing, s.working[worker]) && InWork(s.working, s.working[worker])
    ensures s.working[worker].tp in s.assignments
    ensures forall w, v | w in s.working && v in s.working && s.working[w] == s.working[v] :: w == v
  {
    InWorkOf(s.working, worker);
    IdBelow(s, s.working[worker]);
  }

  lemma ReleaseMoves(s: State, node: int, tp: TopicPartition, p: Place)
    requires Inv(s) && At(s, tp, p)
    ensures At(PushReturns(s, node), tp, Moved(p, MoveOf(s, Released(node), tp)))
  {
    hide Inv, InWork;
    var t := PushReturns(s, node);
    if AllSettled(s, node) && !p.Free? {
      var it := PlacedItem(s, tp, p);
      if it.node == node {
        Apart(s, it);
        assert it in s.pushing[node] && Of(it, tp, node);
      } else {
        NotInPush(s, node, it);
        assert Pushed(t.pushing, it);
      }
    }
  }

  lemma NotInPush(s: State, node: int, it: Item)
    requires Inv(s) && Pushed(s.pushing, it) && it.node != node && node in s.pushing
    ensures forall x | x in s.pushing[node] :: x.tp != it.tp && x.node == node
  {
    hide QueueSound, WorkSound, NoneLost, HandledOnce;
  }

  /** Every step moves a partition along the circle free, queued, working, done, free, or not at all. */
  lemma PlaceMoves(s: State, e: Event, tp: TopicPartition, p: Place)
    requires Inv(s) && (e.Fetched? ==> Distinct(e.tps)) && At(s, tp, p)
    ensures At(Step(s, e), tp, Moved(p, MoveOf(s, e, tp)))
  {
    hide Inv, At, MoveOf, FetchReturns, WorkerTakes, WorkerSettles, PushReturns;
    match e
    case Fetched(node, tps) => FetchMoves(s, node, tps, tp, p);
    case Taken(worker) => TakeMoves(s, worker, tp, p);
    case Settled(worker) => SettleMoves(s, worker, tp, p);
    case Released(node) => ReleaseMoves(s, node, tp, p);
  }
}
