/** A fetched batch: the offset window, what is left after filtering, and the offset it resolves to. */
module Batches {
  import opened Wire
  import opened AbortedFilter

  function Where<T>(f: T -> bool, s: seq<T>): seq<T> {
    if s == [] then [] else (if f(s[0]) then [s[0]] else []) + Where(f, s[1..])
  }

  lemma {:induction false} WhereMembers<T>(f: T -> bool, s: seq<T>, x: T)
    ensures x in Where(f, s) <==> x in s && f(x)
  {
    if s != [] {
      WhereMembers(f, s[1..], x);
      assert x in s <==> x == s[0] || x in s[1..];
    }
  }

  lemma {:induction false} WhereByOffset(f: Message -> bool, ms: seq<Message>)
    requires ByOffset(ms)
    ensures ByOffset(Where(f, ms))
  {
    if ms != [] {
      WhereByOffset(f, ms[1..]);
      forall i | 0 <= i < |Where(f, ms[1..])| ensures Where(f, ms[1..])[i].offset > ms[0].offset {
        WhereMembers(f, ms[1..], Where(f, ms[1..])[i]);
      }
    }
  }

  lemma {:induction false} KeptByOffset(ms: seq<Message>, ab: seq<Aborted>, n: nat)
    requires n <= |ms| && ByOffset(ms)
    ensures ByOffset(Kept(ms, ab, n))
    ensures forall m | m in Kept(ms, ab, n) :: exists k :: 0 <= k < n && ms[k] == m
  {
    if n > 0 {
      KeptByOffset(ms, ab, n - 1);
      var before := Kept(ms, ab, n - 1);
      forall i | 0 <= i < |before| ensures before[i].offset < ms[n - 1].offset {
        assert before[i] in before;
      }
    }
  }

  datatype Batch = Batch(fetchedOffset: int, highWatermark: int, rawMessages: seq<Message>, aborted: seq<Aborted>) {
    function MessagesWithinOffset(): seq<Message> {
      Where((m: Message) => m.offset >= fetchedOffset, rawMessages)
    }

    /** Aborted messages and control records are not exposed. */
    function Messages(): seq<Message> {
      Where((m: Message) => !m.isControlRecord, FilterAborted(MessagesWithinOffset(), aborted))
    }

    predicate IsEmpty() { Messages() == [] }

    predicate IsEmptyIncludingFiltered() { MessagesWithinOffset() == [] }

    predicate IsEmptyDueToFiltering() { IsEmpty() && rawMessages != [] }

    predicate IsEmptyDueToLogCompactedMessages() { rawMessages != [] && IsEmptyIncludingFiltered() }

    function LastOffset(): int {
      if IsEmptyDueToLogCompactedMessages() then fetchedOffset
      else if IsEmptyIncludingFiltered() then highWatermark - 1
      else MessagesWithinOffset()[|MessagesWithinOffset()| - 1].offset
    }
  }

  /** Messages come out in offset order, from the window, and are neither control nor dropped. */
  lemma MessagesInOrder(b: Batch)
    requires ByOffset(b.rawMessages)
    ensures ByOffset(b.Messages()) && ByOffset(b.MessagesWithinOffset())
    ensures forall m | m in b.Messages() :: m in b.rawMessages && m.offset >= b.fetchedOffset && !m.isControlRecord
    ensures forall m | m in b.MessagesWithinOffset() :: m.offset <= b.LastOffset()
  {
    var window := (m: Message) => m.offset >= b.fetchedOffset;
    var visible := (m: Message) => !m.isControlRecord;
    var within := b.MessagesWithinOffset();
    WhereByOffset(window, b.rawMessages);
    KeptByOffset(within, b.aborted, |within|);
    WhereByOffset(visible, FilterAborted(within, b.aborted));
    forall m | m in b.Messages() ensures m in b.rawMessages && m.offset >= b.fetchedOffset && !m.isControlRecord {
      WhereMembers(visible, FilterAborted(within, b.aborted), m);
      var k :| 0 <= k < |within| && within[k] == m;
      WhereMembers(window, b.rawMessages, m);
    }
  }

  /** A raw message in the window that is not control and not dropped is exposed. */
  lemma MessagesComplete(b: Batch, m: Message)
    requires m in b.rawMessages && m.offset >= b.fetchedOffset && !m.isControlRecord
    requires forall i | 0 <= i < |b.MessagesWithinOffset()| && b.MessagesWithinOffset()[i] == m ::
      !Drops(b.MessagesWithinOffset(), b.aborted, i)
    ensures m in b.MessagesWithinOffset() && m in b.Messages()
  {
    var window := (m: Message) => m.offset >= b.fetchedOffset;
    var visible := (m: Message) => !m.isControlRecord;
    var within := b.MessagesWithinOffset();
    WhereMembers(window, b.rawMessages, m);
    var i :| 0 <= i < |within| && within[i] == m;
    KeptMembers(within, b.aborted, |within|, m);
    WhereMembers(visible, FilterAborted(within, b.aborted), m);
  }

  /** The offsets of a list of messages, and the start offsets of a list of aborted transactions. */
  function OffsetsOf(ms: seq<Message>): (r: seq<int>)
    ensures |r| == |ms| && forall i | 0 <= i < |r| :: r[i] == ms[i].offset
  {
    seq(|ms|, i requires 0 <= i < |ms| => ms[i].offset)
  }

  function FirstsOf(ab: seq<Aborted>): (r: seq<int>)
    ensures |r| == |ab| && forall j | 0 <= j < |r| :: r[j] == ab[j].firstOffset
  {
    seq(|ab|, j requires 0 <= j < |ab| => ab[j].firstOffset)
  }

  /**
    What a handler gets to see: exactly the raw messages in the window that are neither control
    records nor part of an aborted transaction.
   */
  lemma ExposedExactly(b: Batch, m: Message)
    requires ByOffset(b.rawMessages) && CleanKeys(b.MessagesWithinOffset()) && Sorted(FirstsOf(b.aborted))
    requires OnePerGap(OffsetsOf(b.MessagesWithinOffset()), FirstsOf(b.aborted))
    ensures
      var within := b.MessagesWithinOffset();
      && (m in within <==> m in b.rawMessages && m.offset >= b.fetchedOffset)
      && (m in b.Messages() <==> !m.isControlRecord && exists i :: 0 <= i < |within| && within[i] == m && !InAborted(within, b.aborted, i))
  {
    hide CleanKeys, OnePerGap, Sorted, InAborted;
    var within := b.MessagesWithinOffset();
    var window, visible := (x: Message) => x.offset >= b.fetchedOffset, (x: Message) => !x.isControlRecord;
    WhereByOffset(window, b.rawMessages);
    WhereMembers(window, b.rawMessages, m);
    OnePassIsRight(within, b.aborted, OffsetsOf(within), FirstsOf(b.aborted));
    WhereMembers(visible, FilterAborted(within, b.aborted), m);
  }
}
