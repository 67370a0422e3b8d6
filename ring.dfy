/** The receive ring buffer: `_recvBuffer` with the indices `_recvBufferHead` (next byte
    to read) and `_recvBufferTail` (next slot to fill). One slot always stays empty, so a
    ring of `N` slots holds at most `N - 1` bytes. */
module RingQueue {
  import opened Bytes

  datatype Ring = Ring(slots: seq<Byte>, head: nat, tail: nat)
  {
    ghost predicate Valid() {
      1 <= |slots| <= 256 && head < |slots| && tail < |slots|
    }

    /** `(tail + N - head) % N`, what `available()` returns. */
    function Count(): (n: nat)
      requires Valid()
      ensures n < |slots|
      ensures n == 0 <==> head == tail
      ensures n == |slots| - 1 <==> Full()
    {
      ModBelowTwice(tail + |slots| - head, |slots|);
      ModBelowTwice(tail + 1, |slots|);
      (tail + |slots| - head) % |slots|
    }

    /** The condition under which the stop-bit handler drops the byte. */
    predicate Full()
      requires Valid()
    {
      (tail + 1) % |slots| == head
    }

    /** The bytes waiting to be read, oldest first. */
    function Items(): (xs: seq<Byte>)
      requires Valid()
      ensures |xs| == Count()
    {
      ModBelowTwice(tail + |slots| - head, |slots|);
      if head <= tail then slots[head..tail] else slots[head..] + slots[..tail]
    }
  }

  function Empty(n: nat): (q: Ring)
    requires 1 <= n <= 256
    ensures q.Valid() && |q.slots| == n && q.Items() == []
  {
    Ring(seq(n, _ => 0), 0, 0)
  }

  /** The store in the stop-bit branch of `recv()`: the byte goes into the tail slot and
      the tail moves on, unless that would make the tail meet the head. */
  function Push(q: Ring, b: Byte): (q': Ring)
    requires q.Valid()
    ensures q'.Valid() && |q'.slots| == |q.slots| && q'.head == q.head
  {
    var n := |q.slots|;
    ModBelowTwice(q.tail + 1, n);
    var newTail := (q.tail + 1) % n;
    if newTail != q.head then Ring(q.slots[q.tail := b], q.head, newTail) else q
  }

  /** A full ring drops the byte; otherwise the byte joins the end of the queue. */
  lemma PushItems(q: Ring, b: Byte)
    requires q.Valid()
    ensures q.Full() ==> Push(q, b) == q
    ensures !q.Full() ==> Push(q, b).Items() == q.Items() + [b]
  {
    var n := |q.slots|;
    ModBelowTwice(q.tail + 1, n);
    var newTail := (q.tail + 1) % n;
    if newTail != q.head {
      var q' := Ring(q.slots[q.tail := b], q.head, newTail);
      if q.head <= q.tail {
        if q.tail + 1 < n {
          assert q'.slots[q.head..newTail] == q.slots[q.head..q.tail] + [b];
        } else {
          assert newTail == 0 && q.head > 0;
          assert q'.slots[q.head..] + q'.slots[..0] == q.slots[q.head..q.tail] + [b];
        }
      } else {
        assert newTail == q.tail + 1 < q.head;
        assert q'.slots[q.head..] == q.slots[q.head..];
        assert q'.slots[..newTail] == q.slots[..q.tail] + [b];
      }
    }
  }

  /** What `read()` does: `-1` on an empty ring, otherwise the oldest byte, removed. */
  function Pop(q: Ring): (r: (int, Ring))
    requires q.Valid()
    ensures r.1.Valid() && r.1.slots == q.slots && r.1.tail == q.tail
    ensures r.0 == -1 <==> q.Items() == []
    ensures r.0 == -1 ==> r.1 == q
    ensures r.0 != -1 ==> r.0 == q.Items()[0] && r.1.Items() == q.Items()[1..]
  {
    if q.head == q.tail then
      (-1 as int, q)
    else
      ModBelowTwice(q.head + 1, |q.slots|);
      var q' := q.(head := (q.head + 1) % |q.slots|);
      assert q'.Items() == q.Items()[1..] by {
        if q.head < q.tail {
          assert q'.head == q.head + 1;
        } else if q.head + 1 < |q.slots| {
          assert q'.slots[q'.head..] == q.slots[q.head..][1..];
        } else {
          assert q'.head == 0;
          assert q.slots[q.head..] == [q.slots[q.head]];
        }
      }
      (q.slots[q.head], q')
  }

  /** Pushes the bytes of `xs` in order, as consecutive stop bits do. */
  function PushAll(q: Ring, xs: seq<Byte>): (q': Ring)
    requires q.Valid()
    ensures q'.Valid() && |q'.slots| == |q.slots|
    decreases |xs|
  {
    if xs == [] then q else PushAll(Push(q, xs[0]), xs[1..])
  }

  /** Bounded FIFO: the ring keeps the oldest bytes, up to `N - 1` of them, in arrival
      order, and drops every byte that arrives while it is full. */
  lemma {:induction false} PushAllItems(q: Ring, xs: seq<Byte>)
    requires q.Valid()
    ensures var all := q.Items() + xs;
      PushAll(q, xs).Items() == all[..Min(|all|, |q.slots| - 1)]
    decreases |xs|
  {
    if xs != [] {
      var q1 := Push(q, xs[0]);
      PushItems(q, xs[0]);
      PushAllItems(q1, xs[1..]);
      var all := q.Items() + xs;
      if q.Full() {
        assert |q.Items()| == |q.slots| - 1;
        assert (q1.Items() + xs[1..])[..|q.slots| - 1] == q.Items();
        assert all[..|q.slots| - 1] == q.Items();
      } else {
        assert q1.Items() + xs[1..] == all;
      }
    }
  }

  function Min(a: int, b: int): int
  {
    if a < b then a else b
  }

  /** Popping returns the bytes in the order they were pushed. */
  function PopAll(q: Ring, k: nat): (r: seq<int>)
    requires q.Valid()
    decreases k
  {
    if k == 0 then [] else [Pop(q).0] + PopAll(Pop(q).1, k - 1)
  }

  lemma {:induction false} PopAllItems(q: Ring, k: nat)
    requires q.Valid() && k <= |q.Items()|
    ensures PopAll(q, k) == q.Items()[..k]
    decreases k
  {
    if k > 0 {
      var q' := Pop(q).1;
      PopAllItems(q', k - 1);
      assert PopAll(q, k) == [q.Items()[0]] + q'.Items()[..k - 1];
      assert q.Items()[..k] == [q.Items()[0]] + q.Items()[1..][..k - 1];
    }
  }
}
