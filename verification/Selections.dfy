/** What it means that a list keeps some elements of another one, in order. */
module Selections {
  /** Strictly increasing positions below n. */
  ghost predicate Positions(at: seq<nat>, n: nat) {
    (forall k | 0 <= k < |at| :: at[k] < n) && forall i, j | 0 <= i < j < |at| :: at[i] < at[j]
  }

  ghost predicate Picks<T>(all: seq<T>, at: seq<nat>, chosen: seq<T>) {
    Positions(at, |all|) && |at| == |chosen| && forall k | 0 <= k < |at| :: chosen[k] == all[at[k]]
  }

  /** `chosen` holds exactly the elements at the marked positions, each once, in order. */
  ghost predicate Selects<T(!new)>(all: seq<T>, marked: set<nat>, chosen: seq<T>) {
    exists at: seq<nat> :: Picks(all, at, chosen) && forall i: nat :: i in at <==> i in marked
  }

  lemma SelectsNone<T(!new)>()
    ensures Selects<T>([], {}, [])
  {
    var none: seq<T> := [];
    var nowhere: seq<nat> := [];
    assert Picks(none, nowhere, none);
  }

  /** One element more, which is either marked or not. */
  lemma SelectsNext<T(!new)>(all: seq<T>, marked: set<nat>, chosen: seq<T>, x: T)
    requires Selects(all, marked, chosen)
    ensures Selects(all + [x], marked + {|all|}, chosen + [x]) && Selects(all + [x], marked, chosen)
  {
    var at: seq<nat> :| Picks(all, at, chosen) && forall i: nat :: i in at <==> i in marked;
    assert Picks(all + [x], at, chosen);
    var more: seq<nat> := at + [|all|];
    assert Picks(all + [x], more, chosen + [x]);
    assert forall i: nat :: i in more <==> i in at || i == |all|;
  }

  /** Every marked element is chosen, and nothing else. */
  lemma SelectsMembers<T(!new)>(all: seq<T>, marked: set<nat>, chosen: seq<T>, x: T)
    requires Selects(all, marked, chosen)
    ensures x in chosen <==> exists i: nat :: i in marked && i < |all| && all[i] == x
  {
    var at: seq<nat> :| Picks(all, at, chosen) && forall i: nat :: i in at <==> i in marked;
    if x in chosen {
      var k :| 0 <= k < |chosen| && chosen[k] == x;
      assert at[k] in at;
    }
    if i: nat :| i in marked && i < |all| && all[i] == x {
      assert i in at;
      var k :| 0 <= k < |at| && at[k] == i;
      assert chosen[k] == x;
    }
  }
}
