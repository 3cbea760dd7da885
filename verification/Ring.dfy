// The 128-byte rings of XMEGA/usart_driver.c.  `& MASK` is written `% SIZE`, the size
// being a power of two.

module Ring {

  const SIZE := 128

  type Byte = bv8

  function Advance(i: nat): nat {
    (i + 1) % SIZE
  }

  /** The number of bytes between tail and head. */
  function Used(head: nat, tail: nat): (n: nat)
    requires head < SIZE && tail < SIZE
    ensures n < SIZE && (n == 0 <==> head == tail)
    ensures n == SIZE - 1 <==> Advance(head) == tail
    ensures (tail + n) % SIZE == head
  {
    if tail <= head then head - tail else head + SIZE - tail
  }

  /** The n bytes from tail on, in the order they will leave. */
  function Span(ring: seq<Byte>, tail: nat, n: nat): (r: seq<Byte>)
    requires |ring| == SIZE
    ensures |r| == n
    ensures forall k :: 0 <= k < n ==> r[k] == ring[(tail + k) % SIZE]
  {
    seq(n, k requires 0 <= k < n => ring[(tail + k) % SIZE])
  }

  function Content(ring: seq<Byte>, head: nat, tail: nat): seq<Byte>
    requires |ring| == SIZE && head < SIZE && tail < SIZE
  {
    Span(ring, tail, Used(head, tail))
  }

  /** Writing the free slot at head does not disturb the content ... */
  lemma StoreKeepsContent(ring: seq<Byte>, head: nat, tail: nat, b: Byte)
    requires |ring| == SIZE && head < SIZE && tail < SIZE
    ensures Content(ring[head := b], head, tail) == Content(ring, head, tail)
  {
    var n := Used(head, tail);
    forall k | 0 <= k < n ensures Span(ring[head := b], tail, n)[k] == Span(ring, tail, n)[k] {
      assert (tail + k) % SIZE != head;
    }
  }

  /** ... and advancing head then appends the byte, unless the ring was full. */
  lemma AdvanceHead(ring: seq<Byte>, head: nat, tail: nat)
    requires |ring| == SIZE && head < SIZE && tail < SIZE && Advance(head) != tail
    ensures Content(ring, Advance(head), tail) == Content(ring, head, tail) + [ring[head]]
  {
    var n := Used(head, tail);
    assert Used(Advance(head), tail) == n + 1;
    assert Span(ring, tail, n + 1) == Span(ring, tail, n) + [ring[head]];
  }

  /** Advancing tail removes the oldest byte. */
  lemma AdvanceTail(ring: seq<Byte>, head: nat, tail: nat)
    requires |ring| == SIZE && head < SIZE && tail < SIZE && head != tail
    ensures Content(ring, head, tail) == [ring[tail]] + Content(ring, head, Advance(tail))
    ensures Advance(head) != tail ==> Advance(head) != Advance(tail)
  {
    UsedAfterTail(head, tail);
    SpanFirst(ring, tail, Used(head, tail));
  }

  lemma UsedAfterTail(head: nat, tail: nat)
    requires head < SIZE && tail < SIZE && head != tail
    ensures Used(head, Advance(tail)) == Used(head, tail) - 1
  {
  }

  lemma SpanFirst(ring: seq<Byte>, tail: nat, n: nat)
    requires |ring| == SIZE && tail < SIZE && n > 0
    ensures Span(ring, tail, n) == [ring[tail]] + Span(ring, Advance(tail), n - 1)
  {
    var r, s := Span(ring, tail, n), Span(ring, Advance(tail), n - 1);
    forall k | 0 <= k < n ensures r[k] == ([ring[tail]] + s)[k] {
      if k > 0 {
        assert (Advance(tail) + (k - 1)) % SIZE == (tail + k) % SIZE;
      }
    }
  }
}
