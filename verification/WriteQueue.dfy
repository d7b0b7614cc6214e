/** The bounded output queue of an event socket: a deque of chunks, an offset
    into the front chunk, a byte counter and a limit.  The abstract value of a
    queue is the byte string Pending(q); every operation below is shown to act
    on it as the corresponding operation of a byte FIFO. */
module WriteQueue {
  import opened Bytes

  const COALESCE_LIMIT: nat := 16 * 1024

  datatype Queue = Queue(chunks: seq<seq<byte>>, frontOffset: nat, bytes: nat, limit: nat)

  const EmptyQueue := Queue([], 0, 0, 1024 * 1024)

  function Flat(chunks: seq<seq<byte>>): seq<byte> {
    if chunks == [] then [] else chunks[0] + Flat(chunks[1..])
  }

  /** The bytes accepted and not yet written or discarded, oldest first. */
  function Pending(q: Queue): seq<byte> {
    var flat := Flat(q.chunks);
    if q.frontOffset <= |flat| then flat[q.frontOffset..] else []
  }

  ghost predicate Coalesced(chunks: seq<seq<byte>>) {
    forall i, j :: 0 <= i < j < |chunks| && j == i + 1 ==> |chunks[i]| + |chunks[j]| > COALESCE_LIMIT
  }

  ghost predicate Valid(q: Queue) {
    && (forall i :: 0 <= i < |q.chunks| ==> q.chunks[i] != [])
    && (if q.chunks == [] then q.frontOffset == 0 else q.frontOffset < |q.chunks[0]|)
    && q.frontOffset <= |Flat(q.chunks)|
    && q.bytes == |Pending(q)|
    && q.bytes <= q.limit
    && Coalesced(q.chunks)
  }

  // ----- operations --------------------------------------------------------

  predicate Fits(q: Queue, data: seq<byte>) {
    |data| <= q.limit - q.bytes
  }

  predicate SharesBack(q: Queue, data: seq<byte>) {
    && q.chunks != []
    && |q.chunks[|q.chunks| - 1]| < COALESCE_LIMIT
    && |data| <= COALESCE_LIMIT - |q.chunks[|q.chunks| - 1]|
  }

  function Push(q: Queue, data: seq<byte>): Queue {
    var last := |q.chunks| - 1;
    q.(chunks := if SharesBack(q, data) then q.chunks[last := q.chunks[last] + data]
                 else q.chunks + [data],
       bytes := q.bytes + |data|)
  }

  function Available(q: Queue): nat
    requires q.chunks != [] && q.frontOffset <= |q.chunks[0]|
  {
    |q.chunks[0]| - q.frontOffset
  }

  function Consume(q: Queue, count: nat): Queue
    requires q.chunks != [] && count <= q.bytes
  {
    if q.frontOffset + count == |q.chunks[0]|
    then q.(chunks := q.chunks[1..], frontOffset := 0, bytes := q.bytes - count)
    else q.(frontOffset := q.frontOffset + count, bytes := q.bytes - count)
  }

  function Clear(q: Queue): Queue {
    q.(chunks := [], frontOffset := 0, bytes := 0)
  }

  // ----- the byte FIFO view ------------------------------------------------

  lemma {:induction false} FlatAppend(a: seq<seq<byte>>, b: seq<seq<byte>>)
    ensures Flat(a + b) == Flat(a) + Flat(b)
  {
    if a == [] {
      assert a + b == b;
    } else {
      FlatStep(a);
      FlatStep(a + b);
      hide Flat;
      FlatAppend(a[1..], b);
      assert (a + b)[0] == a[0] && (a + b)[1..] == a[1..] + b;
      assert a[0] + (Flat(a[1..]) + Flat(b)) == a[0] + Flat(a[1..]) + Flat(b);
    }
  }

  lemma FlatStep(a: seq<seq<byte>>)
    requires a != []
    ensures Flat(a) == a[0] + Flat(a[1..])
  {
  }

  lemma FlatSnoc(a: seq<seq<byte>>, c: seq<byte>)
    ensures Flat(a + [c]) == Flat(a) + c
  {
    FlatAppend(a, [c]);
    assert Flat([c]) == c + Flat([]);
  }

  /** A valid queue is empty exactly when its counter is zero. */
  lemma EmptyIffNoBytes(q: Queue)
    requires Valid(q)
    ensures q.bytes == 0 <==> q.chunks == []
    ensures q.bytes == 0 <==> Pending(q) == []
  {
    if q.chunks != [] {
      assert Flat(q.chunks) == q.chunks[0] + Flat(q.chunks[1..]);
    }
  }

  lemma PushFlat(q: Queue, data: seq<byte>)
    ensures Flat(Push(q, data).chunks) == Flat(q.chunks) + data
  {
    var last := |q.chunks| - 1;
    if SharesBack(q, data) {
      var init := q.chunks[..last];
      assert q.chunks == init + [q.chunks[last]];
      assert Push(q, data).chunks == init + [q.chunks[last] + data];
      FlatSnoc(init, q.chunks[last]);
      FlatSnoc(init, q.chunks[last] + data);
    } else {
      FlatSnoc(q.chunks, data);
    }
  }

  lemma PushCoalesces(q: Queue, data: seq<byte>)
    requires Coalesced(q.chunks) && data != []
    ensures Coalesced(Push(q, data).chunks)
  {
    hide Flat;
    var c := Push(q, data).chunks;
    forall i, j | 0 <= i < j < |c| && j == i + 1
      ensures |c[i]| + |c[j]| > COALESCE_LIMIT
    {
      assert j < |q.chunks| ==> |q.chunks[i]| + |q.chunks[j]| > COALESCE_LIMIT;
    }
  }

  /** Accepting data appends exactly it to the FIFO, whatever chunk it lands in. */
  lemma PushAppends(q: Queue, data: seq<byte>)
    requires Valid(q) && data != [] && Fits(q, data)
    ensures Valid(Push(q, data))
    ensures Pending(Push(q, data)) == Pending(q) + data
  {
    hide Flat, Coalesced;
    PushFlat(q, data);
    PushCoalesces(q, data);
  }

  /** The bytes offered to the transport are the oldest pending ones. */
  lemma OfferIsOldest(q: Queue, count: nat)
    requires Valid(q) && q.chunks != [] && count <= Available(q)
    ensures count <= q.bytes
    ensures q.chunks[0][q.frontOffset..q.frontOffset + count] == Pending(q)[..count]
  {
    assert Flat(q.chunks) == q.chunks[0] + Flat(q.chunks[1..]);
  }

  /** Writing count bytes of the front chunk removes exactly the oldest count bytes. */
  lemma ConsumeRemoves(q: Queue, count: nat)
    requires Valid(q) && q.chunks != [] && 0 < count <= Available(q)
    ensures count <= q.bytes
    ensures Valid(Consume(q, count))
    ensures Pending(Consume(q, count)) == Pending(q)[count..]
  {
    OfferIsOldest(q, count);
    assert Flat(q.chunks) == q.chunks[0] + Flat(q.chunks[1..]);
    var c := Consume(q, count);
    if q.frontOffset + count == |q.chunks[0]| {
      if c.chunks != [] {
        assert c.chunks[0] == q.chunks[1] && c.chunks[0] != [];
      }
      assert forall i :: 0 <= i < |c.chunks| ==> c.chunks[i] == q.chunks[i + 1];
    }
  }

  /** An unsent offer stays an offer: growing the queue never changes the front
      bytes a blocked write has to present again. */
  lemma PushKeepsFront(q: Queue, data: seq<byte>, count: nat)
    requires Valid(q) && q.chunks != [] && count <= Available(q)
    ensures Push(q, data).chunks != [] && Push(q, data).frontOffset == q.frontOffset
    ensures q.frontOffset <= |Push(q, data).chunks[0]|
    ensures count <= Available(Push(q, data))
    ensures Push(q, data).chunks[0][q.frontOffset..q.frontOffset + count]
         == q.chunks[0][q.frontOffset..q.frontOffset + count]
  {
  }

  // ----- the number of chunks ----------------------------------------------

  lemma {:induction false} PairsAreLarge(chunks: seq<seq<byte>>)
    requires Coalesced(chunks)
    requires forall i :: 0 <= i < |chunks| ==> chunks[i] != []
    ensures |Flat(chunks)| >= (COALESCE_LIMIT + 1) * (|chunks| / 2) + |chunks| % 2
  {
    if |chunks| == 1 {
      assert Flat(chunks) == chunks[0] + Flat(chunks[1..]);
    } else if |chunks| >= 2 {
      assert Flat(chunks) == chunks[0] + Flat(chunks[1..]);
      assert Flat(chunks[1..]) == chunks[1] + Flat(chunks[1..][1..]);
      assert chunks[1..][1..] == chunks[2..];
      PairsAreLarge(chunks[2..]);
    }
  }

  /** However small the accepted writes were, a queue of n > 0 bytes never holds
      more than 2 * floor((n - 1) / 16385) + 2 chunks. */
  lemma ChunkCountBound(q: Queue)
    requires Valid(q) && q.bytes > 0
    ensures |q.chunks| <= 2 * ((q.bytes - 1) / (COALESCE_LIMIT + 1)) + 2
  {
    EmptyIffNoBytes(q);
    assert Flat(q.chunks) == q.chunks[0] + Flat(q.chunks[1..]);
    var rest := q.chunks[1..];
    assert forall i :: 0 <= i < |rest| ==> rest[i] == q.chunks[i + 1];
    PairsAreLarge(rest);
    var k := |rest| / 2;
    assert q.bytes - 1 >= (COALESCE_LIMIT + 1) * k;
    assert (q.bytes - 1) / (COALESCE_LIMIT + 1) >= k;
  }

  /** k + 1 times a full chunk and one more byte, as queue_write takes them. */
  function Alternating(full: seq<byte>, b: byte, k: nat, limit: nat): Queue {
    var before := if k == 0 then Queue([], 0, 0, limit) else Alternating(full, b, k - 1, limit);
    Push(Push(before, full), [b])
  }

  /** A full chunk never joins the byte before it, nor a byte the full chunk before it. */
  lemma PairStartsChunks(q: Queue, full: seq<byte>, b: byte)
    requires Valid(q) && |full| == COALESCE_LIMIT && q.bytes + COALESCE_LIMIT + 1 <= q.limit
    requires q.chunks == [] || q.chunks[|q.chunks| - 1] == [b]
    ensures var r := Push(Push(q, full), [b]);
            && Valid(r) && r == q.(chunks := q.chunks + [full, [b]], bytes := q.bytes + COALESCE_LIMIT + 1)
  {
    hide Flat, Coalesced, Pending, Valid;
    assert !SharesBack(q, full);
    PushAppends(q, full);
    var longer := Push(q, full);
    assert longer.chunks == q.chunks + [full];
    assert !SharesBack(longer, [b]);
    PushAppends(longer, [b]);
    assert q.chunks + [full] + [[b]] == q.chunks + [full, [b]];
  }

  lemma {:induction false} AlternatingShape(full: seq<byte>, b: byte, k: nat, limit: nat)
    requires |full| == COALESCE_LIMIT && limit >= (COALESCE_LIMIT + 1) * (k + 1)
    ensures var q := Alternating(full, b, k, limit);
            && Valid(q) && q.frontOffset == 0 && q.limit == limit
            && |q.chunks| == 2 * k + 2 && q.chunks[0] == full && q.chunks[|q.chunks| - 1] == [b]
            && q.bytes == (COALESCE_LIMIT + 1) * (k + 1)
  {
    hide Flat, Coalesced, Valid, Push;
    if k == 0 {
      EmptyIsValid(limit);
      PairStartsChunks(Queue([], 0, 0, limit), full, b);
    } else {
      AlternatingShape(full, b, k - 1, limit);
      PairStartsChunks(Alternating(full, b, k - 1, limit), full, b);
    }
  }

  lemma EmptyIsValid(limit: nat)
    ensures Valid(Queue([], 0, 0, limit))
  {
  }

  /** A partial send that leaves one byte of the front chunk. */
  lemma AllButOneSent(q: Queue)
    requires Valid(q) && q.frontOffset == 0 && q.chunks != [] && |q.chunks[0]| == COALESCE_LIMIT
    ensures COALESCE_LIMIT - 1 <= q.bytes
    ensures var r := Consume(q, COALESCE_LIMIT - 1);
            Valid(r) && r.chunks == q.chunks && r.bytes == q.bytes - (COALESCE_LIMIT - 1)
  {
    hide Flat, Coalesced, Pending;
    ConsumeRemoves(q, COALESCE_LIMIT - 1);
  }

  /** The bound is reached for every k: queue writes and one partial send lead to a queue
      of 16385 * k + 2 bytes in 2 * k + 2 chunks. */
  lemma ChunkCountBoundReached(full: seq<byte>, b: byte, k: nat, limit: nat)
    requires |full| == COALESCE_LIMIT && limit >= (COALESCE_LIMIT + 1) * (k + 1)
    ensures var filled := Alternating(full, b, k, limit);
            && Valid(filled) && filled.chunks != [] && COALESCE_LIMIT - 1 <= filled.bytes
            && var q := Consume(filled, COALESCE_LIMIT - 1);
               && Valid(q) && q.bytes == (COALESCE_LIMIT + 1) * k + 2
               && |q.chunks| == 2 * k + 2 == 2 * ((q.bytes - 1) / (COALESCE_LIMIT + 1)) + 2
  {
    hide Valid, Consume, Alternating;
    AlternatingShape(full, b, k, limit);
    AllButOneSent(Alternating(full, b, k, limit));
    assert ((COALESCE_LIMIT + 1) * k + 1) / (COALESCE_LIMIT + 1) == k;
  }
}
