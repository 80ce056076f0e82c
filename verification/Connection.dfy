/**
  The receiving side of a broker connection: length-prefixed responses reassembled from
  arbitrary chunks, and the correlation ids handed out to requests.
 */
module Connections {
  import opened Bits
  import opened Wire
  import opened Varint

  const INT32_SIZE := 4
  const INT_32_MAX_VALUE := TWO_31 - 1

  /** What is handed to the request queue for one response. */
  datatype Response = Response(correlationId: int, payload: bytes, size: int)

  /** The outcome of parsing: the stream parsed so far, or a response that could not be read. */
  datatype Outcome = Waiting | Malformed

  datatype Parsed = Parsed(responses: seq<Response>, rest: bytes, outcome: Outcome)

  // ------------------------------------------------------------------ the whole stream at once

  function FrameSize(s: bytes): int
    requires |s| >= INT32_SIZE
  {
    ReadInt32(s, 0).value
  }

  /** A complete frame at the front of the stream. A size below zero never waits for more bytes. */
  predicate HasFrame(s: bytes) {
    |s| >= INT32_SIZE && |s| - INT32_SIZE >= FrameSize(s)
  }

  /** A response must hold at least its correlation id. */
  function Parse(s: bytes): Parsed {
    if !HasFrame(s) then Parsed([], s, Waiting)
    else if FrameSize(s) < INT32_SIZE then Parsed([], s, Malformed)
    else
      var size := FrameSize(s);
      var frame := s[INT32_SIZE..INT32_SIZE + size];
      var rest := Parse(s[INT32_SIZE + size..]);
      Parsed([ResponseOf(frame)] + rest.responses, rest.rest, rest.outcome)
  }

  function ResponseOf(frame: bytes): Response
    requires |frame| >= INT32_SIZE
  {
    Response(ReadInt32(frame, 0).value, frame[INT32_SIZE..], |frame|)
  }

  /** Bytes that arrive later do not change the frame at the front. */
  lemma FrameStable(s: bytes, more: bytes)
    requires |s| >= INT32_SIZE
    ensures FrameSize(s + more) == FrameSize(s)
    ensures HasFrame(s) ==> HasFrame(s + more)
  {
    assert forall i | 0 <= i < 4 :: (s + more)[i] == s[i];
  }

  /** Parsing a prefix, keeping its unparsed tail, and going on with more bytes is parsing everything. */
  lemma {:induction false} ParseAppend(s: bytes, more: bytes)
    requires Parse(s).outcome.Waiting?
    ensures
      var later := Parse(Parse(s).rest + more);
      Parse(s + more) == Parsed(Parse(s).responses + later.responses, later.rest, later.outcome)
    decreases |s|
  {
    hide ReadInt32;
    if HasFrame(s) {
      var end := INT32_SIZE + FrameSize(s);
      FrameStable(s, more);
      FrameSplits(s, more, end);
      ParseAppend(s[end..], more);
    }
  }

  lemma FrameSplits(s: bytes, more: bytes, end: nat)
    requires INT32_SIZE <= end <= |s|
    ensures (s + more)[INT32_SIZE..end] == s[INT32_SIZE..end] && (s + more)[end..] == s[end..] + more
  {}

  /** The encoded form of a response. */
  function FrameBytes(id: int32, payload: bytes): bytes {
    Int32Bytes(INT32_SIZE + |payload|) + (Int32Bytes(id) + payload)
  }

  datatype Frame = Frame(id: int32, payload: bytes)

  function StreamOf(fs: seq<Frame>): bytes {
    if fs == [] then [] else FrameBytes(fs[0].id, fs[0].payload) + StreamOf(fs[1..])
  }

  function ResponsesOf(fs: seq<Frame>): seq<Response> {
    if fs == [] then []
    else [Response(fs[0].id, fs[0].payload, INT32_SIZE + |fs[0].payload|)] + ResponsesOf(fs[1..])
  }

  lemma FrameReads(f: Frame, more: bytes)
    requires |f.payload| + INT32_SIZE < TWO_31
    ensures
      var s := FrameBytes(f.id, f.payload) + more;
      var end := |FrameBytes(f.id, f.payload)|;
      HasFrame(s) && FrameSize(s) == end - INT32_SIZE && s[end..] == more
      && ResponseOf(s[INT32_SIZE..end]) == Response(f.id, f.payload, INT32_SIZE + |f.payload|)
  {
    hide ReadInt32, Int32Bytes, Holds;
    var size, id := Int32Bytes(INT32_SIZE + |f.payload|), Int32Bytes(f.id);
    var s := FrameBytes(f.id, f.payload) + more;
    assert s == size + (id + f.payload + more);
    HoldsFront(size, id + f.payload + more);
    Int32RoundTrip(s, 0, INT32_SIZE + |f.payload|);
    var frame := s[INT32_SIZE..INT32_SIZE + INT32_SIZE + |f.payload|];
    assert frame == id + f.payload;
    HoldsFront(id, f.payload);
    Int32RoundTrip(frame, 0, f.id);
    assert frame[INT32_SIZE..] == f.payload;
  }

  lemma HoldsFront(p: bytes, q: bytes)
    ensures Holds(p + q, 0, p)
  {
    assert (p + q)[0..|p|] == p;
  }

  /** The whole-stream parser inverts the framing of any list of responses. */
  lemma {:induction false} ParseInvertsFraming(fs: seq<Frame>)
    requires forall f | f in fs :: |f.payload| + INT32_SIZE < TWO_31
    ensures Parse(StreamOf(fs)) == Parsed(ResponsesOf(fs), [], Waiting)
  {
    hide FrameBytes, FrameSize, HasFrame, ResponseOf;
    if fs == [] {
      assert !HasFrame([]) by { NoFrame(); }
    } else {
      assert fs[0] in fs;
      FrameReads(fs[0], StreamOf(fs[1..]));
      FrameLength(fs[0]);
      ParseInvertsFraming(fs[1..]);
    }
  }

  lemma NoFrame()
    ensures !HasFrame([])
  {}

  lemma FrameLength(f: Frame)
    ensures |FrameBytes(f.id, f.payload)| == 2 * INT32_SIZE + |f.payload|
  {}

  // ------------------------------------------------------------------ the connection

  function Join(chunks: seq<bytes>): bytes { Flat(chunks) }

  class Connection {
    var chunks: seq<bytes>
    var bytesBuffered: nat
    var bytesNeeded: int
    var fulfilled: seq<Response> // calls of requestQueue.fulfillRequest
    var correlationId: nat

    constructor ()
      ensures Valid() && fulfilled == [] && Join(chunks) == [] && correlationId == 0
    {
      chunks := [];
      bytesBuffered := 0;
      bytesNeeded := INT32_SIZE;
      fulfilled := [];
      correlationId := 0;
    }

    /** Buffering bytes that hold no complete frame, and knowing how many are needed. */
    ghost predicate Valid()
      reads this
    {
      && bytesBuffered == |Join(chunks)|
      && !HasFrame(Join(chunks))
      && bytesNeeded == (if |Join(chunks)| >= INT32_SIZE && bytesNeeded > INT32_SIZE
                         then INT32_SIZE + FrameSize(Join(chunks)) else INT32_SIZE)
      && (|Join(chunks)| >= INT32_SIZE ==> bytesNeeded > |Join(chunks)|)
    }

    /**
      processData outside authentication. Responses are delivered exactly as the whole-stream
      parser finds them in the buffered bytes followed by the new chunk, and what stays
      buffered is exactly what that parser leaves.
     */
    method ProcessData(rawData: bytes) returns (outcome: Outcome)
      requires Valid()
      modifies this
      ensures
        var p := Parse(old(Join(chunks)) + rawData);
        outcome == p.outcome && fulfilled == old(fulfilled) + p.responses
        && (outcome.Waiting? ==> Valid() && Join(chunks) == p.rest)
      ensures correlationId == old(correlationId)
    {
      hide ReadInt32, Parse, Join;
      ghost var stream := Join(chunks) + rawData;
      JoinPush(chunks, rawData);
      if |Join(chunks)| >= INT32_SIZE { FrameStable(Join(chunks), rawData); }
      chunks := chunks + [rawData];
      bytesBuffered := bytesBuffered + |rawData|;
      while bytesNeeded <= bytesBuffered
        invariant bytesBuffered == |Join(chunks)|
        invariant bytesNeeded == INT32_SIZE
          || (|Join(chunks)| >= INT32_SIZE && bytesNeeded == INT32_SIZE + FrameSize(Join(chunks)))
        invariant bytesNeeded >= INT32_SIZE
        invariant correlationId == old(correlationId)
        invariant Deliver(old(fulfilled), stream) == Deliver(fulfilled, Join(chunks))
        decreases |Join(chunks)|
      {
        var buffer := Joined();
        var expectedResponseSize := FrameSize(buffer);
        if |buffer| - INT32_SIZE < expectedResponseSize || expectedResponseSize < INT32_SIZE {
          DeliverEnds(fulfilled, buffer);
        }
        if |buffer| - INT32_SIZE < expectedResponseSize {
          JoinOne(buffer);
          chunks := [buffer];
          bytesBuffered := |buffer|;
          bytesNeeded := INT32_SIZE + expectedResponseSize;
          return Waiting;
        }
        if expectedResponseSize < INT32_SIZE {
          return Malformed;
        }
        var response := buffer[INT32_SIZE..INT32_SIZE + expectedResponseSize];
        var remainderBuffer := buffer[INT32_SIZE + expectedResponseSize..];
        JoinOne(remainderBuffer);
        chunks := [remainderBuffer];
        bytesBuffered := |remainderBuffer|;
        bytesNeeded := INT32_SIZE;
        DeliverStep(fulfilled, buffer);
        fulfilled := fulfilled + [ResponseOf(response)];
      }
      DeliverEnds(fulfilled, Join(chunks));
      outcome := Waiting;
    }

    /** Buffer.concat, or the only chunk. */
    method Joined() returns (buffer: bytes)
      ensures buffer == Join(chunks)
    {
      buffer := [];
      for i := 0 to |chunks|
        invariant buffer == Join(chunks[..i])
      {
        assert chunks[..i + 1][..i] == chunks[..i];
        buffer := buffer + chunks[i];
      }
      assert chunks[..|chunks|] == chunks;
    }

    /** nextCorrelationId: never negative, wraps before the largest 32-bit value. */
    method NextCorrelationId() returns (id: nat)
      requires correlationId <= INT_32_MAX_VALUE
      modifies this`correlationId
      ensures id == NextId(old(correlationId)) && correlationId == id + 1
    {
      if correlationId >= INT_32_MAX_VALUE {
        correlationId := 0;
      }
      id := correlationId;
      correlationId := correlationId + 1;
    }
  }

  /** What has been delivered and what parsing the rest would still deliver. */
  ghost function Deliver(done: seq<Response>, s: bytes): Parsed {
    Parsed(done + Parse(s).responses, Parse(s).rest, Parse(s).outcome)
  }

  lemma DeliverStep(done: seq<Response>, s: bytes)
    requires HasFrame(s) && FrameSize(s) >= INT32_SIZE
    ensures
      var end := INT32_SIZE + FrameSize(s);
      Deliver(done, s) == Deliver(done + [ResponseOf(s[INT32_SIZE..end])], s[end..])
  {
    var end := INT32_SIZE + FrameSize(s);
    var response := ResponseOf(s[INT32_SIZE..end]);
    assert done + ([response] + Parse(s[end..]).responses) == (done + [response]) + Parse(s[end..]).responses;
  }

  lemma DeliverEnds(done: seq<Response>, s: bytes)
    requires !HasFrame(s) || FrameSize(s) < INT32_SIZE
    ensures Deliver(done, s) == Parsed(done, s, if HasFrame(s) then Malformed else Waiting)
  {
    assert done + [] == done;
  }

  lemma JoinPush(chunks: seq<bytes>, chunk: bytes)
    ensures Join(chunks + [chunk]) == Join(chunks) + chunk
  {
    assert (chunks + [chunk])[..|chunks|] == chunks;
  }

  lemma JoinOne(chunk: bytes)
    ensures Join([chunk]) == chunk
  {
    JoinPush([], chunk);
    assert [] + [chunk] == [chunk] && Join([]) == [];
  }

  /** Nothing that follows a malformed frame is looked at. */
  lemma {:induction false} ParseStops(s: bytes, more: bytes)
    requires Parse(s).outcome.Malformed?
    ensures Parse(s + more).responses == Parse(s).responses && Parse(s + more).outcome.Malformed?
    decreases |s|
  {
    hide ReadInt32;
    FrameStable(s, more);
    if FrameSize(s) >= INT32_SIZE {
      var end := INT32_SIZE + FrameSize(s);
      assert (s + more)[INT32_SIZE..end] == s[INT32_SIZE..end];
      assert (s + more)[end..] == s[end..] + more;
      ParseStops(s[end..], more);
    }
  }

  lemma ParseIdle(s: bytes)
    requires !HasFrame(s)
    ensures Parse(s) == Parsed([], s, Waiting)
  {}

  /**
    Feeding a stream in pieces, however it is split: the responses delivered are those of
    parsing the whole stream at once, and the chunks kept are exactly its unparsed tail.
   */
  method Receive(c: Connection, pieces: seq<bytes>) returns (outcome: Outcome)
    requires c.Valid()
    modifies c
    ensures
      var p := Parse(old(Join(c.chunks)) + Flat(pieces));
      outcome == p.outcome && c.fulfilled == old(c.fulfilled) + p.responses
      && (outcome.Waiting? ==> c.Valid() && Join(c.chunks) == p.rest)
  {
    hide HasFrame, Parse;
    outcome := Waiting;
    ghost var start := Join(c.chunks);
    assert start + Flat(pieces[..0]) == start;
    ParseIdle(start);
    for i := 0 to |pieces|
      invariant c.Valid() && outcome.Waiting?
      invariant
        var p := Parse(start + Flat(pieces[..i]));
        p.outcome.Waiting? && c.fulfilled == old(c.fulfilled) + p.responses && Join(c.chunks) == p.rest
    {
      ghost var before := start + Flat(pieces[..i]);
      FlatNext(pieces, i);
      assert before + pieces[i] == start + Flat(pieces[..i + 1]);
      ParseAppend(before, pieces[i]);
      outcome := c.ProcessData(pieces[i]);
      if outcome.Malformed? {
        FlatSplit(pieces, i + 1);
        assert start + Flat(pieces) == (start + Flat(pieces[..i + 1])) + Flat(pieces[i + 1..]);
        ParseStops(start + Flat(pieces[..i + 1]), Flat(pieces[i + 1..]));
        return;
      }
    }
    assert pieces[..|pieces|] == pieces;
  }

  lemma FlatNext(parts: seq<bytes>, i: nat)
    requires i < |parts|
    ensures Flat(parts[..i + 1]) == Flat(parts[..i]) + parts[i]
  {
    assert parts[..i + 1][..i] == parts[..i];
  }

  lemma {:induction false} FlatSplit(parts: seq<bytes>, i: nat)
    requires i <= |parts|
    ensures Flat(parts) == Flat(parts[..i]) + Flat(parts[i..])
    decreases |parts|
  {
    if i == |parts| {
      assert parts[..i] == parts && parts[i..] == [];
    } else {
      var n := |parts| - 1;
      FlatSplit(parts[..n], i);
      assert parts[..n][..i] == parts[..i] && parts[..n][i..] == parts[i..][..n - i];
      Assoc(Flat(parts[..i]), Flat(parts[i..][..n - i]), parts[n]);
    }
  }

  /** Every split of every list of well-formed frames delivers that list. */
  method ReceiveFrames(frames: seq<Frame>, pieces: seq<bytes>) returns (delivered: seq<Response>)
    requires forall f | f in frames :: |f.payload| + INT32_SIZE < TWO_31
    requires Flat(pieces) == StreamOf(frames)
    ensures delivered == ResponsesOf(frames)
  {
    hide Parse, HasFrame, StreamOf;
    var c := new Connection();
    assert [] + Flat(pieces) == StreamOf(frames);
    ParseInvertsFraming(frames);
    var _ := Receive(c, pieces);
    delivered := c.fulfilled;
  }

  // ------------------------------------------------------------------ correlation ids

  function NextId(counter: nat): nat { if counter >= INT_32_MAX_VALUE then 0 else counter }

  /** The counter before the n-th call, on a new connection. */
  function Counter(n: nat): nat { if n == 0 then 0 else NextId(Counter(n - 1)) + 1 }

  /** The n-th id handed out. */
  function IdOf(n: nat): nat { NextId(Counter(n)) }

  lemma {:induction false} IdsCycle(n: nat)
    ensures IdOf(n) == n % INT_32_MAX_VALUE && Counter(n) <= INT_32_MAX_VALUE
  {
    if n > 0 { IdsCycle(n - 1); }
  }

  /** Two ids collide exactly when a whole number of cycles lies between the calls. */
  lemma IdsDistinct(m: nat, n: nat)
    requires m < n
    ensures IdOf(m) == IdOf(n) <==> (n - m) % INT_32_MAX_VALUE == 0
    ensures n - m < INT_32_MAX_VALUE ==> IdOf(m) != IdOf(n)
  {
    hide IdOf;
    IdsCycle(m);
    IdsCycle(n);
    SameRemainder(m, n, INT_32_MAX_VALUE);
  }

  lemma SameRemainder(m: nat, n: nat, k: nat)
    requires m < n && k > 0
    ensures m % k == n % k <==> (n - m) % k == 0
    ensures n - m < k ==> m % k != n % k
  {
    var q := n / k - m / k;
    assert n - m == k * q + (n % k - m % k);
    if m % k == n % k {
      ModUnique(n - m, k, q, 0);
    } else if m % k < n % k {
      ModUnique(n - m, k, q, n % k - m % k);
    } else {
      ModUnique(n - m, k, q - 1, k + n % k - m % k);
    }
    if n - m < k { ModUnique(n - m, k, 0, n - m); }
  }
}
