/**
  Read-committed filtering: one pass over the fetched messages that drops those of aborted
  transactions, and exactly when that one pass is right.
 */
module AbortedFilter {
  import opened Wire

  datatype Message = Message(offset: int, key: Option<bytes>, producerId: int, inTransaction: bool, isControlRecord: bool)

  /** An entry of the aborted-transactions list of a fetch response. */
  datatype Aborted = Aborted(producerId: int, firstOffset: int)

  predicate IsAbortMarker(m: Message) { m.key == Some([0, 0, 0, 0]) }

  // ------------------------------------------------------------------ the one pass

  /** How many list entries were taken, and the producers whose transactions are being skipped. */
  datatype Pass = Pass(taken: nat, active: set<int>)

  /** At most one entry of the list is taken for each message. */
  function Enter(p: Pass, m: Message, ab: seq<Aborted>): Pass {
    if p.taken < |ab| && m.offset >= ab[p.taken].firstOffset
    then Pass(p.taken + 1, p.active + {ab[p.taken].producerId}) else p
  }

  function Leave(p: Pass, m: Message): Pass {
    if IsAbortMarker(m) then p.(active := p.active - {m.producerId}) else p
  }

  /** After the first i messages. */
  function After(ms: seq<Message>, ab: seq<Aborted>, i: nat): Pass
    requires i <= |ms|
  {
    if i == 0 then Pass(0, {}) else Leave(Enter(After(ms, ab, i - 1), ms[i - 1], ab), ms[i - 1])
  }

  predicate Drops(ms: seq<Message>, ab: seq<Aborted>, i: nat)
    requires i < |ms|
  {
    !IsAbortMarker(ms[i]) && ms[i].producerId in Enter(After(ms, ab, i), ms[i], ab).active && ms[i].inTransaction
  }

  function Kept(ms: seq<Message>, ab: seq<Aborted>, i: nat): seq<Message>
    requires i <= |ms|
  {
    if i == 0 then [] else Kept(ms, ab, i - 1) + (if Drops(ms, ab, i - 1) then [] else [ms[i - 1]])
  }

  function FilterAborted(ms: seq<Message>, ab: seq<Aborted>): seq<Message> { Kept(ms, ab, |ms|) }

  lemma {:induction false} NothingAborted(ms: seq<Message>, i: nat)
    requires i <= |ms|
    ensures After(ms, [], i) == Pass(0, {}) && Kept(ms, [], i) == ms[..i]
  {
    if i > 0 { NothingAborted(ms, i - 1); }
  }

  /** filterAbortedMessages: returns early without a list, otherwise filters with a shrinking list. */
  method Filter(messages: seq<Message>, abortedTransactions: seq<Aborted>) returns (kept: seq<Message>)
    ensures kept == FilterAborted(messages, abortedTransactions)
  {
    if abortedTransactions == [] {
      NothingAborted(messages, |messages|);
      return messages;
    }
    var remaining := abortedTransactions;
    var current: map<int, bool> := map[];
    kept := [];
    for i := 0 to |messages|
      invariant
        var p := After(messages, abortedTransactions, i);
        p.taken <= |abortedTransactions| && remaining == abortedTransactions[p.taken..] && current.Keys == p.active
      invariant kept == Kept(messages, abortedTransactions, i)
    {
      var message := messages[i];
      if remaining != [] && message.offset >= remaining[0].firstOffset {
        current := current[remaining[0].producerId := true];
        remaining := remaining[1..];
      }
      if IsAbortMarker(message) {
        current := current - {message.producerId};
        kept := kept + [message];
      } else if !(message.producerId in current && message.inTransaction) {
        kept := kept + [message];
      }
    }
  }

  // ------------------------------------------------------------------ what it should do

  /** A real abort marker is a control record. */
  predicate EndsAbort(m: Message) { m.isControlRecord && IsAbortMarker(m) }

  /** The transaction of list entry j covers message i: begun, and not ended in between. */
  ghost predicate Covers(ms: seq<Message>, ab: seq<Aborted>, j: nat, i: nat)
    requires i < |ms|
  {
    && j < |ab| && ab[j].producerId == ms[i].producerId && ab[j].firstOffset <= ms[i].offset
    && forall k | 0 <= k < i && ms[k].offset >= ab[j].firstOffset && ms[k].producerId == ms[i].producerId :: !EndsAbort(ms[k])
  }

  /** A message of an aborted transaction. */
  ghost predicate InAborted(ms: seq<Message>, ab: seq<Aborted>, i: nat)
    requires i < |ms|
  {
    ms[i].inTransaction && !EndsAbort(ms[i]) && exists j: nat :: Covers(ms, ab, j, i)
  }

  /** The result holds exactly the messages outside aborted transactions, in offset order. */
  ghost predicate Right(ms: seq<Message>, ab: seq<Aborted>) {
    var kept := FilterAborted(ms, ab);
    && (forall m :: m in kept <==> exists i :: 0 <= i < |ms| && ms[i] == m && !InAborted(ms, ab, i))
    && ByOffset(kept)
  }

  ghost predicate ByOffset(ms: seq<Message>) { forall i, j | 0 <= i < j < |ms| :: ms[i].offset < ms[j].offset }

  /** The pass decides rightly about every message. */
  ghost predicate DecidesRightly(ms: seq<Message>, ab: seq<Aborted>) {
    forall i | 0 <= i < |ms| :: Drops(ms, ab, i) <==> InAborted(ms, ab, i)
  }

  lemma {:induction false} KeptMembers(ms: seq<Message>, ab: seq<Aborted>, n: nat, m: Message)
    requires n <= |ms|
    ensures m in Kept(ms, ab, n) <==> exists k :: 0 <= k < n && ms[k] == m && !Drops(ms, ab, k)
  {
    hide Drops;
    if n > 0 {
      KeptMembers(ms, ab, n - 1, m);
      if m == ms[n - 1] && !Drops(ms, ab, n - 1) { assert m in Kept(ms, ab, n); }
    }
  }

  lemma {:induction false} KeptAscends(ms: seq<Message>, ab: seq<Aborted>, offsets: seq<int>, n: nat)
    requires HasOffsets(ms, offsets) && Ascending(offsets) && n <= |ms|
    ensures ByOffset(Kept(ms, ab, n))
  {
    hide Drops, ByOffset;
    assert ByOffset([]) by { NoneAscend(); }
    if n > 0 {
      KeptAscends(ms, ab, offsets, n - 1);
      var before := Kept(ms, ab, n - 1);
      forall i | 0 <= i < |before| ensures before[i].offset < ms[n - 1].offset {
        KeptMembers(ms, ab, n - 1, before[i]);
        var k :| 0 <= k < n - 1 && ms[k] == before[i];
        assert offsets[k] < offsets[n - 1];
      }
      AscendOne(before, ms[n - 1]);
    }
  }

  lemma NoneAscend()
    ensures ByOffset([])
  {}

  lemma AscendOne(ms: seq<Message>, m: Message)
    requires ByOffset(ms) && forall i | 0 <= i < |ms| :: ms[i].offset < m.offset
    ensures ByOffset(ms + [m]) && ByOffset(ms + [])
  {
    assert ms + [] == ms;
  }

  /** The result is right exactly when every decision is. */
  lemma RightByDecisions(ms: seq<Message>, ab: seq<Aborted>, offsets: seq<int>)
    requires HasOffsets(ms, offsets) && Ascending(offsets)
    ensures Right(ms, ab) <==> DecidesRightly(ms, ab)
  {
    hide Drops, InAborted, ByOffset;
    var kept := FilterAborted(ms, ab);
    KeptAscends(ms, ab, offsets, |ms|);
    forall m ensures m in kept <==> exists k :: 0 <= k < |ms| && ms[k] == m && !Drops(ms, ab, k) { KeptMembers(ms, ab, |ms|, m); }
    forall i, k | 0 <= i < |ms| && 0 <= k < |ms| && ms[i] == ms[k] ensures i == k { assert offsets[i] == offsets[k]; }
    forall i | 0 <= i < |ms| ensures ms[i] in kept <==> !Drops(ms, ab, i) {}
    if DecidesRightly(ms, ab) {
      forall m ensures m in kept <==> exists i :: 0 <= i < |ms| && ms[i] == m && !InAborted(ms, ab, i) {
        if k :| 0 <= k < |ms| && ms[k] == m && !Drops(ms, ab, k) { assert !InAborted(ms, ab, k); }
        if i :| 0 <= i < |ms| && ms[i] == m && !InAborted(ms, ab, i) { assert !Drops(ms, ab, i); }
      }
    }
    if Right(ms, ab) {
      forall i | 0 <= i < |ms| ensures Drops(ms, ab, i) <==> InAborted(ms, ab, i) {
        assert !InAborted(ms, ab, i) ==> ms[i] in kept;
        if ms[i] in kept {
          var k :| 0 <= k < |ms| && ms[k] == ms[i] && !InAborted(ms, ab, k);
          assert k == i;
        }
      }
    }
  }

  /** Only abort markers carry the all-zero key. */
  ghost predicate CleanKeys(ms: seq<Message>) {
    forall m | m in ms :: IsAbortMarker(m) ==> m.isControlRecord
  }

  ghost predicate HasOffsets(ms: seq<Message>, offsets: seq<int>) {
    |ms| == |offsets| && forall i | 0 <= i < |ms| :: ms[i].offset == offsets[i]
  }

  ghost predicate HasFirsts(ab: seq<Aborted>, firsts: seq<int>) {
    |ab| == |firsts| && forall j | 0 <= j < |ab| :: ab[j].firstOffset == firsts[j]
  }

  ghost predicate Ascending(xs: seq<int>) { forall i, j | 0 <= i < j < |xs| :: xs[i] < xs[j] }

  ghost predicate Sorted(xs: seq<int>) { forall i, j | 0 <= i < j < |xs| :: xs[i] <= xs[j] }

  /** Two aborted transactions begin after message i - 1 and no later than message i. */
  ghost predicate Crowded(offsets: seq<int>, firsts: seq<int>, i: nat, j: nat)
  {
    i < |offsets| && j + 1 < |firsts| && firsts[j + 1] <= offsets[i] && (i > 0 ==> offsets[i - 1] < firsts[j])
  }

  /** At most one aborted transaction begins in each gap between messages, or before the first. */
  ghost predicate OnePerGap(offsets: seq<int>, firsts: seq<int>) {
    forall i: nat, j: nat :: !Crowded(offsets, firsts, i, j)
  }

  // ------------------------------------------------------------------ enough

  /** With one start per gap the list is always taken up to the current message. */
  lemma {:induction false} TakenUpTo(ms: seq<Message>, ab: seq<Aborted>, offsets: seq<int>, firsts: seq<int>, i: nat)
    requires HasOffsets(ms, offsets) && HasFirsts(ab, firsts) && Ascending(offsets) && Sorted(firsts) && OnePerGap(offsets, firsts)
    requires i < |ms|
    ensures
      var t := Enter(After(ms, ab, i), ms[i], ab).taken;
      t <= |ab| && forall j | 0 <= j < |ab| :: j < t <==> firsts[j] <= offsets[i]
  {
    var before := After(ms, ab, i).taken;
    if i > 0 { TakenUpTo(ms, ab, offsets, firsts, i - 1); }
    assert before <= |ab| && forall j | 0 <= j < |ab| :: j < before <==> i > 0 && firsts[j] <= offsets[i - 1];
    if before + 1 < |ab| { assert !Crowded(offsets, firsts, i, before); }
  }

  /** Being skipped, after the list is consulted for message i. */
  ghost predicate Skipped(ms: seq<Message>, ab: seq<Aborted>, p: int, upTo: nat, i: nat, j: nat)
    requires i <= |ms|
  {
    && j < |ab| && j < upTo && ab[j].producerId == p
    && forall k | 0 <= k < i && ms[k].offset >= ab[j].firstOffset && ms[k].producerId == p :: !IsAbortMarker(ms[k])
  }

  ghost predicate AnySkipped(ms: seq<Message>, ab: seq<Aborted>, p: int, upTo: nat, i: nat)
    requires i <= |ms|
  {
    exists j: nat :: Skipped(ms, ab, p, upTo, i, j)
  }

  lemma {:induction false} ActiveIsSkipped(ms: seq<Message>, ab: seq<Aborted>, offsets: seq<int>, firsts: seq<int>, i: nat, p: int)
    requires HasOffsets(ms, offsets) && HasFirsts(ab, firsts) && Ascending(offsets) && Sorted(firsts) && OnePerGap(offsets, firsts)
    requires i <= |ms|
    ensures p in After(ms, ab, i).active <==> AnySkipped(ms, ab, p, After(ms, ab, i).taken, i)
  {
    if i > 0 {
      ActiveIsSkipped(ms, ab, offsets, firsts, i - 1, p);
      EnterIsSkipped(ms, ab, offsets, firsts, i - 1, p);
      LeaveIsSkipped(ms, ab, offsets, firsts, i - 1, p);
    }
  }

  /** A transaction is taken from the list before any message at or after its start has gone by. */
  lemma NewStart(ms: seq<Message>, ab: seq<Aborted>, offsets: seq<int>, firsts: seq<int>, i: nat)
    requires HasOffsets(ms, offsets) && HasFirsts(ab, firsts) && Ascending(offsets) && Sorted(firsts) && OnePerGap(offsets, firsts)
    requires i < |ms|
    ensures
      var was, now := After(ms, ab, i), Enter(After(ms, ab, i), ms[i], ab);
      now.taken <= |ab| && (now.taken > was.taken ==> forall k | 0 <= k < i :: ms[k].offset < ab[was.taken].firstOffset)
  {
    hide OnePerGap, Sorted;
    TakenUpTo(ms, ab, offsets, firsts, i);
    if i > 0 { TakenUpTo(ms, ab, offsets, firsts, i - 1); }
  }

  lemma EnterIsSkipped(ms: seq<Message>, ab: seq<Aborted>, offsets: seq<int>, firsts: seq<int>, i: nat, p: int)
    requires HasOffsets(ms, offsets) && HasFirsts(ab, firsts) && Ascending(offsets) && Sorted(firsts) && OnePerGap(offsets, firsts)
    requires i < |ms|
    requires p in After(ms, ab, i).active <==> AnySkipped(ms, ab, p, After(ms, ab, i).taken, i)
    ensures
      var now := Enter(After(ms, ab, i), ms[i], ab);
      p in now.active <==> AnySkipped(ms, ab, p, now.taken, i)
  {
    hide After, HasOffsets, HasFirsts, Ascending, Sorted, OnePerGap;
    var was, now := After(ms, ab, i), Enter(After(ms, ab, i), ms[i], ab);
    NewStart(ms, ab, offsets, firsts, i);
    if now.taken > was.taken && ab[was.taken].producerId == p {
      assert Skipped(ms, ab, p, now.taken, i, was.taken);
    }
    forall j: nat | Skipped(ms, ab, p, was.taken, i, j) ensures Skipped(ms, ab, p, now.taken, i, j) {}
    forall j: nat | Skipped(ms, ab, p, now.taken, i, j) && (now.taken == was.taken || ab[was.taken].producerId != p)
      ensures Skipped(ms, ab, p, was.taken, i, j) {}
  }

  lemma LeaveIsSkipped(ms: seq<Message>, ab: seq<Aborted>, offsets: seq<int>, firsts: seq<int>, i: nat, p: int)
    requires HasOffsets(ms, offsets) && HasFirsts(ab, firsts) && Ascending(offsets) && Sorted(firsts) && OnePerGap(offsets, firsts)
    requires i < |ms|
    requires
      var now := Enter(After(ms, ab, i), ms[i], ab);
      p in now.active <==> AnySkipped(ms, ab, p, now.taken, i)
    ensures p in After(ms, ab, i + 1).active <==> AnySkipped(ms, ab, p, After(ms, ab, i + 1).taken, i + 1)
  {
    var now := Enter(After(ms, ab, i), ms[i], ab);
    TakenUpTo(ms, ab, offsets, firsts, i);
    if IsAbortMarker(ms[i]) && ms[i].producerId == p {
      forall j: nat | j < now.taken && j < |ab| && ab[j].producerId == p ensures !Skipped(ms, ab, p, now.taken, i + 1, j) {
        assert ms[i].offset >= ab[j].firstOffset;
      }
    } else {
      if AnySkipped(ms, ab, p, now.taken, i) {
        var j: nat :| Skipped(ms, ab, p, now.taken, i, j);
        assert Skipped(ms, ab, p, now.taken, i + 1, j);
      }
      if AnySkipped(ms, ab, p, now.taken, i + 1) {
        var j: nat :| Skipped(ms, ab, p, now.taken, i + 1, j);
        assert Skipped(ms, ab, p, now.taken, i, j);
      }
      assert After(ms, ab, i + 1) == Leave(now, ms[i]);
    }
  }

  /** With one start per gap the one pass keeps exactly the messages outside aborted transactions, in order. */
  lemma OnePassIsRight(ms: seq<Message>, ab: seq<Aborted>, offsets: seq<int>, firsts: seq<int>)
    requires HasOffsets(ms, offsets) && HasFirsts(ab, firsts) && Ascending(offsets) && Sorted(firsts)
    requires OnePerGap(offsets, firsts) && CleanKeys(ms)
    ensures Right(ms, ab)
  {
    RightByDecisions(ms, ab, offsets);
    forall i | 0 <= i < |ms| ensures Drops(ms, ab, i) <==> InAborted(ms, ab, i) {
      var p := ms[i].producerId;
      ActiveIsSkipped(ms, ab, offsets, firsts, i, p);
      EnterIsSkipped(ms, ab, offsets, firsts, i, p);
      TakenUpTo(ms, ab, offsets, firsts, i);
      var taken := Enter(After(ms, ab, i), ms[i], ab).taken;
      assert ms[i] in ms;
      forall j: nat ensures Skipped(ms, ab, p, taken, i, j) <==> Covers(ms, ab, j, i) {
        assert forall k | 0 <= k < i :: ms[k] in ms;
      }
    }
  }

  // ------------------------------------------------------------------ and needed

  lemma {:induction false} TakenAtMost(ms: seq<Message>, ab: seq<Aborted>, i: nat)
    requires i <= |ms|
    ensures After(ms, ab, i).taken <= |ab|
    ensures forall p | p in After(ms, ab, i).active :: exists j :: 0 <= j < After(ms, ab, i).taken && ab[j].producerId == p
  {
    if i > 0 {
      TakenAtMost(ms, ab, i - 1);
      var was := After(ms, ab, i - 1);
      var now := Enter(was, ms[i - 1], ab);
      forall p | p in now.active ensures exists j :: 0 <= j < now.taken && ab[j].producerId == p {
        if p in was.active {
          var j :| 0 <= j < was.taken && ab[j].producerId == p;
          assert 0 <= j < now.taken && ab[j].producerId == p;
        } else {
          assert ab[was.taken].producerId == p;
        }
      }
    }
  }

  /** The list is never taken past the current message. */
  lemma {:induction false} TakenBegun(ms: seq<Message>, ab: seq<Aborted>, offsets: seq<int>, firsts: seq<int>, i: nat)
    requires HasOffsets(ms, offsets) && HasFirsts(ab, firsts) && Ascending(offsets) && i <= |ms|
    ensures After(ms, ab, i).taken <= |ab|
    ensures forall j | 0 <= j < After(ms, ab, i).taken :: i > 0 && firsts[j] <= offsets[i - 1]
  {
    if i > 0 { TakenBegun(ms, ab, offsets, firsts, i - 1); }
  }

  function Messages(offsets: seq<int>, producerId: int): (ms: seq<Message>)
    ensures |ms| == |offsets| && forall i | 0 <= i < |ms| :: ms[i] == Message(offsets[i], None, producerId, true, false)
  {
    if offsets == [] then [] else [Message(offsets[0], None, producerId, true, false)] + Messages(offsets[1..], producerId)
  }

  /** All entries belong to producer 0, except entry j, which belongs to producer 1. */
  function Entries(firsts: seq<int>, j: int): (ab: seq<Aborted>)
    ensures |ab| == |firsts| && forall k | 0 <= k < |ab| :: ab[k] == Aborted(if k == j then 1 else 0, firsts[k])
    decreases |firsts|
  {
    if firsts == [] then [] else [Aborted(if j == 0 then 1 else 0, firsts[0])] + Entries(firsts[1..], j - 1)
  }

  /**
    Where two aborted transactions begin in one gap, the second is taken too late: some
    content of these very offsets lets a message of an aborted transaction through.
   */
  lemma CrowdedGoesWrong(offsets: seq<int>, firsts: seq<int>, i: nat, j: nat) returns (ms: seq<Message>, ab: seq<Aborted>)
    requires Ascending(offsets) && Sorted(firsts) && Crowded(offsets, firsts, i, j)
    ensures HasOffsets(ms, offsets) && HasFirsts(ab, firsts) && CleanKeys(ms) && !Right(ms, ab)
  {
    ms, ab := Messages(offsets, 1), Entries(firsts, j + 1);
    TakenBegun(ms, ab, offsets, firsts, i);
    var was, now := After(ms, ab, i), Enter(After(ms, ab, i), ms[i], ab);
    assert was.taken <= j;
    assert now.taken <= j + 1;
    TakenAtMost(ms, ab, i);
    assert 1 !in now.active;
    assert Covers(ms, ab, j + 1, i);
    assert InAborted(ms, ab, i) && !Drops(ms, ab, i);
    RightByDecisions(ms, ab, offsets);
  }

  /**
    The one pass is right for every content of messages and entries with these offsets if
    and only if at most one aborted transaction begins in each gap between messages.
   */
  lemma OnePassExact(offsets: seq<int>, firsts: seq<int>)
    requires Ascending(offsets) && Sorted(firsts)
    ensures OnePerGap(offsets, firsts) <==>
      forall ms, ab | HasOffsets(ms, offsets) && HasFirsts(ab, firsts) && CleanKeys(ms) :: Right(ms, ab)
  {
    if OnePerGap(offsets, firsts) {
      forall ms, ab | HasOffsets(ms, offsets) && HasFirsts(ab, firsts) && CleanKeys(ms) ensures Right(ms, ab) {
        OnePassIsRight(ms, ab, offsets, firsts);
      }
    } else {
      var i: nat, j: nat :| Crowded(offsets, firsts, i, j);
      var ms, ab := CrowdedGoesWrong(offsets, firsts, i, j);
    }
  }

  /** Messages outside transactions are never dropped, whatever the list says. */
  lemma PlainMessagesPass(ms: seq<Message>, ab: seq<Aborted>, i: nat)
    requires i < |ms| && !ms[i].inTransaction
    ensures !Drops(ms, ab, i)
  {}
}
