/**
 * The clients' `LinkedBlockingQueue<byte[]>` of audio chunks between the
 * receiver loop (producer) and the player (consumer), as a bounded FIFO with
 * the non-blocking `offer`, `poll`, `peek` and `clear`.
 */
module AudioQueue {
  import opened Wrappers
  import opened Bytes

  type Chunk = seq<byte>

  /** The chunks of `queued`, in order, without their sequence numbers. */
  function Chunks(queued: seq<(int, Chunk)>): (cs: seq<Chunk>)
    ensures |cs| == |queued|
    ensures forall k :: 0 <= k < |queued| ==> cs[k] == queued[k].1
  {
    seq(|queued|, k requires 0 <= k < |queued| => queued[k].1)
  }

  /** Queuing one more delivery adds its chunk at the end. */
  lemma ChunksSnoc(queued: seq<(int, Chunk)>, d: (int, Chunk))
    ensures Chunks(queued + [d]) == Chunks(queued) + [d.1]
  {
  }

  class BoundedQueue {
    /** Queued chunks, head first. */
    var items: seq<Chunk>
    /** The capacity given to the `LinkedBlockingQueue` constructor. */
    const capacity: nat
    /** Every chunk ever offered, oldest first, whether the queue took it or not. */
    ghost var offered: seq<Chunk>

    ghost predicate Valid()
      reads this
    {
      |items| <= capacity
    }

    constructor (capacity: nat)
      ensures Valid() && this.capacity == capacity && items == [] && offered == []
    {
      this.capacity := capacity;
      items := [];
      offered := [];
    }

    /** `offer(x)`: appends when there is room and reports whether it did; a full queue drops `x`. */
    method Offer(x: Chunk) returns (accepted: bool)
      requires Valid()
      modifies this
      ensures Valid()
      ensures accepted <==> |old(items)| < capacity
      ensures items == if accepted then old(items) + [x] else old(items)
      ensures offered == old(offered) + [x]
    {
      offered := offered + [x];
      accepted := |items| < capacity;
      if accepted {
        items := items + [x];
      }
    }

    /** `poll()`: removes and returns the head, or `null` when empty. */
    method Poll() returns (x: Option<Chunk>)
      requires Valid()
      modifies this
      ensures Valid()
      ensures old(items) == [] ==> x == None && items == []
      ensures old(items) != [] ==> x == Some(old(items)[0]) && items == old(items)[1..]
      ensures offered == old(offered)
    {
      if items == [] {
        x := None;
      } else {
        x := Some(items[0]);
        items := items[1..];
      }
    }

    /** `peek()`: the head without removing it, or `null` when empty. */
    method Peek() returns (x: Option<Chunk>)
      requires Valid()
      ensures items == [] ==> x == None
      ensures items != [] ==> x == Some(items[0])
    {
      x := if items == [] then None else Some(items[0]);
    }

    /** `clear()`: drops every queued chunk. */
    method Clear()
      requires Valid()
      modifies this
      ensures Valid() && items == [] && offered == old(offered)
    {
      items := [];
    }
  }
}
