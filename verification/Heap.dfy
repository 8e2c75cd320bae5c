/**
  The contract of Python's `heapq` on a list of timeouts ordered by deadline. A list is a heap if no entry is
  earlier than its parent; pushing and popping sift one entry up or down. Timeouts have identities, so that
  entries with equal deadlines are told apart.
 */
module Heap {

  /** A timeout; `id` is its identity, `deadline` the time from which it is due. */
  datatype Timeout = Timeout(id: nat, deadline: int)

  function Parent(i: nat): (p: nat)
    requires i >= 1
    ensures p < i
  {
    (i - 1) / 2
  }

  ghost predicate Ordered(h: seq<Timeout>) {
    forall i :: 1 <= i < |h| ==> h[Parent(i)].deadline <= h[i].deadline
  }

  ghost predicate Distinct(h: seq<Timeout>) {
    forall i, j :: 0 <= i < j < |h| ==> h[i].id != h[j].id
  }

  function Elems(h: seq<Timeout>): set<Timeout> {
    set t | t in h
  }

  function Swap(h: seq<Timeout>, i: nat, j: nat): (g: seq<Timeout>)
    requires i < |h| && j < |h|
    ensures |g| == |h| && Elems(g) == Elems(h) && (Distinct(h) ==> Distinct(g))
    ensures g[i] == h[j] && g[j] == h[i] && forall k :: 0 <= k < |h| && k != i && k != j ==> g[k] == h[k]
  {
    var g := h[i := h[j]][j := h[i]];
    assert forall t :: t in g <==> t in h by {
      assert g[i] == h[j] && g[j] == h[i];
      forall t | t in h ensures t in g {
        var k :| 0 <= k < |h| && h[k] == t;
        assert g[k] == t || k == i || k == j;
      }
    }
    g
  }

  /** Ordered but for the entry at `pos`, which may be too small for its place. */
  ghost predicate OrderedAbove(h: seq<Timeout>, pos: nat) {
    (forall i :: 1 <= i < |h| && i != pos ==> h[Parent(i)].deadline <= h[i].deadline)
    && (forall i :: 1 <= i < |h| && Parent(i) == pos && 0 < pos < |h| ==> h[Parent(pos)].deadline <= h[i].deadline)
  }

  /** Ordered but for the entry at `pos`, which may be too large for its place. */
  ghost predicate OrderedBelow(h: seq<Timeout>, pos: nat) {
    (forall i :: 1 <= i < |h| && Parent(i) != pos ==> h[Parent(i)].deadline <= h[i].deadline)
    && (forall i :: 1 <= i < |h| && Parent(i) == pos && 0 < pos < |h| ==> h[Parent(pos)].deadline <= h[i].deadline)
  }

  function Rise(h: seq<Timeout>, pos: nat): (g: seq<Timeout>)
    requires pos < |h| && OrderedAbove(h, pos)
    ensures Ordered(g) && |g| == |h| && Elems(g) == Elems(h) && (Distinct(h) ==> Distinct(g))
    decreases pos
  {
    if pos > 0 && h[pos].deadline < h[Parent(pos)].deadline then Rise(Swap(h, pos, Parent(pos)), Parent(pos)) else h
  }

  /** The child of `pos` with the smaller deadline. */
  function SmallerChild(h: seq<Timeout>, pos: nat): (c: nat)
    requires 2 * pos + 1 < |h|
    ensures c < |h| && c > pos && Parent(c) == pos
    ensures forall i :: 1 <= i < |h| && Parent(i) == pos ==> h[c].deadline <= h[i].deadline
  {
    assert forall i :: 1 <= i < |h| && Parent(i) == pos ==> i == 2 * pos + 1 || i == 2 * pos + 2;
    if 2 * pos + 2 < |h| && h[2 * pos + 2].deadline < h[2 * pos + 1].deadline then 2 * pos + 2 else 2 * pos + 1
  }

  function Sink(h: seq<Timeout>, pos: nat): (g: seq<Timeout>)
    requires pos < |h| && OrderedBelow(h, pos)
    ensures Ordered(g) && |g| == |h| && Elems(g) == Elems(h) && (Distinct(h) ==> Distinct(g))
    decreases |h| - pos
  {
    if 2 * pos + 1 >= |h| then
      assert forall i :: 1 <= i < |h| ==> Parent(i) != pos;
      h
    else
      var c := SmallerChild(h, pos);
      if h[c].deadline < h[pos].deadline then Sink(Swap(h, pos, c), c) else h
  }

  /** `heapq.heappush`. */
  function Push(h: seq<Timeout>, t: Timeout): (g: seq<Timeout>)
    requires Ordered(h)
    ensures Ordered(g) && |g| == |h| + 1 && Elems(g) == Elems(h) + {t}
    ensures Distinct(h) && (forall u :: u in h ==> u.id != t.id) ==> Distinct(g)
  {
    assert Elems(h + [t]) == Elems(h) + {t};
    assert Distinct(h) && (forall u :: u in h ==> u.id != t.id) ==> Distinct(h + [t]);
    Rise(h + [t], |h|)
  }

  /** What `heapq.heappop` leaves behind; it returns `h[0]`. */
  function Pop(h: seq<Timeout>): (g: seq<Timeout>)
    requires h != [] && Ordered(h) && Distinct(h)
    ensures Ordered(g) && |g| == |h| - 1 && Distinct(g) && Elems(g) == Elems(h) - {h[0]}
  {
    if |h| == 1 then
      assert Elems(h) == {h[0]};
      []
    else
      var last := |h| - 1;
      var g := [h[last]] + h[1..last];
      assert h == [h[0]] + h[1..last] + [h[last]];
      assert forall k :: 0 <= k < last ==> g[k] == if k == 0 then h[last] else h[k];
      assert h[0] !in g;
      assert Elems(g) == Elems(h) - {h[0]};
      assert Distinct(g);
      Sink(g, 0)
  }

  /** `heapq.heapify`. */
  function Heapify(ts: seq<Timeout>): (g: seq<Timeout>)
    ensures Ordered(g) && |g| == |ts| && Elems(g) == Elems(ts) && (Distinct(ts) ==> Distinct(g))
  {
    if ts == [] then []
    else
      var rest := ts[..|ts| - 1];
      assert ts == rest + [ts[|ts| - 1]];
      assert Elems(ts) == Elems(rest) + {ts[|ts| - 1]};
      var g := Heapify(rest);
      assert forall u :: u in g <==> u in Elems(g);
      assert forall u :: u in rest <==> u in Elems(rest);
      Push(g, ts[|ts| - 1])
  }

  /** The first entry of a heap is the earliest. */
  lemma {:induction false} FirstIsEarliest(h: seq<Timeout>, i: nat)
    requires Ordered(h) && i < |h|
    ensures h[0].deadline <= h[i].deadline
  {
    if i > 0 {
      FirstIsEarliest(h, Parent(i));
    }
  }
}
