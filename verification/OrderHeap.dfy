/**
  The order objects of the engine and the two binary heaps of pointers to them. A heap is the
  slice itself: a `seq<Order>` that push and pop rearrange by swapping neighbours.
*/
module OrderHeap {
  import opened Model
  import opened Matching
  import opened Book

  /** A heap entry is shared: the engine's order map points to the same object. */
  class Order {
    const ticket: Ticket
    var remaining: int
    var status: Status

    constructor (ticket: Ticket, remaining: int, status: Status)
      ensures this.ticket == ticket && this.remaining == remaining && this.status == status
    {
      this.ticket := ticket;
      this.remaining := remaining;
      this.status := status;
    }
  }

  function Parent(i: int): int {
    (i - 1) / 2
  }

  /** No order in the first `n` slots comes before its parent. Tickets never change, so fills cannot break this. */
  ghost predicate HeapOrdered(h: seq<Order>, n: int)
    requires n <= |h|
  {
    forall i | 0 < i < n :: !Before(h[i].ticket, h[Parent(i)].ticket)
  }

  ghost predicate AllOn(h: seq<Order>, side: Side) {
    forall i | 0 <= i < |h| :: h[i].ticket.side == side
  }

  ghost predicate IsHeap(h: seq<Order>, side: Side) {
    HeapOrdered(h, |h|) && AllOn(h, side)
  }

  /** The top of a heap has no order before it. */
  lemma {:induction false} TopIsBest(h: seq<Order>, side: Side, i: nat)
    requires IsHeap(h, side) && i < |h|
    ensures !Before(h[i].ticket, h[0].ticket)
  {
    if i > 0 {
      TopIsBest(h, side, Parent(i));
    }
  }

  function Swapped(h: seq<Order>, i: int, j: int): seq<Order>
    requires 0 <= i < |h| && 0 <= j < |h|
  {
    h[i := h[j]][j := h[i]]
  }

  lemma SwapKeepsMultiset(h: seq<Order>, i: int, j: int)
    requires 0 <= i < |h| && 0 <= j < |h|
    ensures multiset(Swapped(h, i, j)) == multiset(h) && |Swapped(h, i, j)| == |h|
    ensures forall side :: AllOn(h, side) ==> AllOn(Swapped(h, i, j), side)
  {
  }

  lemma PermutationKeepsSide(h: seq<Order>, r: seq<Order>, side: Side)
    requires AllOn(h, side) && multiset(r) <= multiset(h)
    ensures AllOn(r, side)
  {
    forall i | 0 <= i < |r| ensures r[i].ticket.side == side {
      assert r[i] in multiset(r);
      assert r[i] in h;
    }
  }

  /** A heap except that slot `j` may come before its parent. */
  ghost predicate HeapButUp(h: seq<Order>, j: int) {
    && 0 <= j < |h|
    && (forall i | 0 < i < |h| && i != j :: !Before(h[i].ticket, h[Parent(i)].ticket))
    && (j > 0 ==> forall i | 0 < i < |h| && Parent(i) == j :: !Before(h[i].ticket, h[Parent(j)].ticket))
  }

  lemma StepUp(h: seq<Order>, j: int, side: Side)
    requires HeapButUp(h, j) && AllOn(h, side) && j > 0
    requires Before(h[j].ticket, h[Parent(j)].ticket)
    ensures HeapButUp(Swapped(h, Parent(j), j), Parent(j))
  {
    var p := Parent(j);
    var r := Swapped(h, p, j);
    forall i | 0 < i < |r| && i != p ensures !Before(r[i].ticket, r[Parent(i)].ticket) {
      if i != j && Parent(i) == p { assert !Before(h[i].ticket, h[p].ticket); }
    }
    if p > 0 {
      forall i | 0 < i < |r| && Parent(i) == p ensures !Before(r[i].ticket, r[Parent(p)].ticket) {
        assert !Before(h[p].ticket, h[Parent(p)].ticket);
        if i != j { assert !Before(h[i].ticket, h[p].ticket); }
      }
    }
  }

  /** A heap on the first `n` slots except that slot `j` may come after its children. */
  ghost predicate HeapButDown(h: seq<Order>, n: int, j: int)
    requires n <= |h|
  {
    && 0 <= j
    && (forall i | 0 < i < n && Parent(i) != j :: !Before(h[i].ticket, h[Parent(i)].ticket))
    && (j > 0 ==> forall i | 0 < i < n && Parent(i) == j :: !Before(h[i].ticket, h[Parent(j)].ticket))
  }

  lemma StepDown(h: seq<Order>, n: int, i: int, j: int, side: Side)
    requires n <= |h| && HeapButDown(h, n, i) && AllOn(h, side)
    requires BestChild(h, n, i, j) && Before(h[j].ticket, h[i].ticket)
    ensures HeapButDown(Swapped(h, i, j), n, j)
  {
    BestOfTwo(h, n, i, j);
    var r := Swapped(h, i, j);
    forall k | 0 < k < n && Parent(k) != j ensures !Before(r[k].ticket, r[Parent(k)].ticket) {
      if k == i {
        assert !Before(h[j].ticket, h[Parent(i)].ticket);
      } else if Parent(k) == i && k != j {
        assert !Before(h[k].ticket, h[j].ticket);
      }
    }
    forall k | 0 < k < n && Parent(k) == j ensures !Before(r[k].ticket, r[Parent(j)].ticket) {
      assert !Before(h[k].ticket, h[j].ticket);
    }
  }

  /** Slot `j` holds the better of the children of slot `i`. */
  ghost predicate BestChild(h: seq<Order>, n: int, i: int, j: int)
    requires n <= |h|
  {
    && 0 <= i < j < n
    && (j == 2 * i + 1 || j == 2 * i + 2)
    && !Before(h[2 * i + 1].ticket, h[j].ticket)
    && (2 * i + 2 < n ==> !Before(h[2 * i + 2].ticket, h[j].ticket))
  }

  /** The child that `down` compares: the left one unless the right one comes before it. */
  function BetterChild(h: seq<Order>, n: int, i: int, ghost side: Side): (j: int)
    requires n <= |h| && AllOn(h, side) && 0 <= i && 2 * i + 1 < n
    ensures BestChild(h, n, i, j)
  {
    if 2 * i + 2 < n && Before(h[2 * i + 2].ticket, h[2 * i + 1].ticket) then 2 * i + 2 else 2 * i + 1
  }

  lemma BestOfTwo(h: seq<Order>, n: int, i: int, j: int)
    requires n <= |h| && BestChild(h, n, i, j)
    ensures Parent(j) == i
    ensures forall k | 0 < k < n && Parent(k) == i :: !Before(h[k].ticket, h[j].ticket)
  {
    forall k | 0 < k < n && Parent(k) == i ensures !Before(h[k].ticket, h[j].ticket) {
      assert k == 2 * i + 1 || k == 2 * i + 2;
    }
  }

  lemma SettledDown(h: seq<Order>, n: int, i: int, j: int, side: Side)
    requires n <= |h| && AllOn(h, side) && HeapButDown(h, n, i)
    requires BestChild(h, n, i, j) && !Before(h[j].ticket, h[i].ticket)
    ensures HeapOrdered(h, n)
  {
    BestOfTwo(h, n, i, j);
  }

  /** `container/heap.up`: moves the order in slot `start` up to its place. */
  method SiftUp(h: seq<Order>, start: nat, side: Side) returns (r: seq<Order>)
    requires HeapButUp(h, start) && AllOn(h, side)
    ensures multiset(r) == multiset(h)
    ensures IsHeap(r, side)
  {
    r := h;
    var j := start;
    while j > 0 && Before(r[j].ticket, r[Parent(j)].ticket)
      invariant |r| == |h| && HeapButUp(r, j) && AllOn(r, side)
      invariant multiset(r) == multiset(h)
    {
      StepUp(r, j, side);
      SwapKeepsMultiset(r, Parent(j), j);
      r := Swapped(r, Parent(j), j);
      j := Parent(j);
    }
  }

  /** `container/heap.down` from the root, on the first `n` slots. */
  method SiftDown(h: seq<Order>, n: nat, side: Side) returns (r: seq<Order>)
    requires n <= |h| && HeapButDown(h, n, 0) && AllOn(h, side)
    ensures multiset(r) == multiset(h) && |r| == |h|
    ensures n < |h| ==> r[n] == h[n]
    ensures HeapOrdered(r, n) && AllOn(r, side)
  {
    r := h;
    var i := 0;
    while 2 * i + 1 < n
      invariant |r| == |h| && (n < |h| ==> r[n] == h[n])
      invariant HeapButDown(r, n, i) && AllOn(r, side)
      invariant multiset(r) == multiset(h)
      decreases n - i
    {
      var j := BetterChild(r, n, i, side);
      if !Before(r[j].ticket, r[i].ticket) {
        SettledDown(r, n, i, j, side);
        return;
      }
      StepDown(r, n, i, j, side);
      SwapKeepsMultiset(r, i, j);
      r := Swapped(r, i, j);
      i := j;
    }
  }

  /** `heap.Push`: append, then sift up. */
  method Push(h: seq<Order>, o: Order, side: Side) returns (r: seq<Order>)
    requires IsHeap(h, side) && o.ticket.side == side
    ensures IsHeap(r, side)
    ensures multiset(r) == multiset(h) + multiset{o}
  {
    r := SiftUp(h + [o], |h|, side);
  }

  /** `heap.Pop`: swap the root with the last slot, sift the root down, cut the last slot off. */
  method Pop(h: seq<Order>, side: Side) returns (r: seq<Order>, top: Order)
    requires IsHeap(h, side) && h != []
    ensures IsHeap(r, side)
    ensures top == h[0] && multiset(h) == multiset(r) + multiset{top}
  {
    var n := |h| - 1;
    SwapKeepsMultiset(h, 0, n);
    var swapped := Swapped(h, 0, n);
    var sifted := SiftDown(swapped, n, side);
    assert sifted == sifted[..n] + [sifted[n]];
    r, top := sifted[..n], sifted[n];
    PermutationKeepsSide(h, r, side);
  }
}
