/**
  A binary heap cross-indexed with a slab, as values: what moving an item up or down the heap
  means, and the removal of an item at any place.
*/
module IndexedHeap {
  import opened Options

  /** An item of the heap: the key and the epoch that order it, and its node in the slab. */
  datatype Item = Item(key: int, epoch: nat, slabIdx: nat)

  datatype Node<V> = FreeNode(next: Option<nat>) | HeapNode(value: V, heapIdx: nat)

  datatype Core<V> = Core(heap: seq<Item>, slab: seq<Node<V>>)

  /** The order of unique keys: by key, then by insertion. */
  predicate Less(a: Item, b: Item) {
    a.key < b.key || (a.key == b.key && a.epoch < b.epoch)
  }

  function Parent(i: nat): nat
    requires i > 0
  {
    (i - 1) / 2
  }

  /** The item at `i` is in its node, which points back to `i`. */
  predicate Placed<V>(c: Core<V>, i: nat) {
    i < |c.heap| ==>
      var j := c.heap[i].slabIdx;
      j < |c.slab| && c.slab[j].HeapNode? && c.slab[j].heapIdx == i
  }

  /** The node `j` points to its item. */
  predicate Backed<V>(c: Core<V>, j: nat) {
    j < |c.slab| && c.slab[j].HeapNode? ==> c.slab[j].heapIdx < |c.heap| && c.heap[c.slab[j].heapIdx].slabIdx == j
  }

  ghost predicate Indexed<V>(c: Core<V>) {
    && (forall i {:trigger Placed(c, i)} :: 0 <= i < |c.heap| ==> Placed(c, i))
    && (forall j {:trigger Backed(c, j)} :: 0 <= j < |c.slab| ==> Backed(c, j))
  }

  predicate OrderedAt(heap: seq<Item>, i: nat) {
    0 < i < |heap| ==> Less(heap[Parent(i)], heap[i])
  }

  ghost predicate Ordered(heap: seq<Item>) {
    forall i {:trigger OrderedAt(heap, i)} :: 0 < i < |heap| ==> OrderedAt(heap, i)
  }

  /** A node that now stands at `i`. */
  function MovedTo<V>(node: Node<V>, i: nat): Node<V> {
    match node
    case HeapNode(v, _) => HeapNode(v, i)
    case FreeNode(_) => node
  }

  /** Exchanges two items, and updates their nodes. */
  function Swap<V>(c: Core<V>, a: nat, b: nat): Core<V>
    requires a < |c.heap| && b < |c.heap| && Placed(c, a) && Placed(c, b)
  {
    var x, y := c.heap[a], c.heap[b];
    Core(c.heap[a := y][b := x],
         c.slab[y.slabIdx := MovedTo(c.slab[y.slabIdx], a)][x.slabIdx := MovedTo(c.slab[x.slabIdx], b)])
  }

  lemma {:induction false} SwapKeepsPlaced<V>(c: Core<V>, a: nat, b: nat, i: nat)
    requires a < |c.heap| && b < |c.heap| && a != b && Placed(c, a) && Placed(c, b) && Placed(c, i)
    ensures Placed(Swap(c, a, b), i)
  {
  }

  lemma {:induction false} SwapKeepsBacked<V>(c: Core<V>, a: nat, b: nat, j: nat)
    requires a < |c.heap| && b < |c.heap| && a != b && Placed(c, a) && Placed(c, b) && Backed(c, j)
    ensures Backed(Swap(c, a, b), j)
  {
  }

  lemma {:induction false} SwapKeepsIndexed<V>(c: Core<V>, a: nat, b: nat)
    requires Indexed(c) && a < |c.heap| && b < |c.heap| && a != b && Placed(c, a) && Placed(c, b)
    ensures Indexed(Swap(c, a, b))
  {
    var d := Swap(c, a, b);
    forall i | 0 <= i < |d.heap| ensures Placed(d, i) {
      SwapKeepsPlaced(c, a, b, i);
    }
    forall j | 0 <= j < |d.slab| ensures Backed(d, j) {
      SwapKeepsBacked(c, a, b, j);
    }
  }

  // ----- The entries that a core stands for -----

  /** A key-value pair in the queue, and the node that holds it. */
  datatype Entry<V> = Entry(key: int, value: V, slabIdx: nat)

  ghost predicate TiedAt<V>(c: Core<V>, entries: map<nat, Entry<V>>, i: nat) {
    i < |c.heap| ==>
      var item := c.heap[i];
      && item.slabIdx < |c.slab| && c.slab[item.slabIdx].HeapNode?
      && item.epoch in entries && entries[item.epoch] == Entry(item.key, c.slab[item.slabIdx].value, item.slabIdx)
  }

  ghost predicate LiveAt<V>(c: Core<V>, entries: map<nat, Entry<V>>, e: nat) {
    e in entries ==>
      var j := entries[e].slabIdx;
      && j < |c.slab| && c.slab[j].HeapNode?
      && c.slab[j].heapIdx < |c.heap| && c.heap[c.slab[j].heapIdx].epoch == e
  }

  /** The items of the heap are the entries, each under its own epoch. */
  ghost predicate Tied<V>(c: Core<V>, entries: map<nat, Entry<V>>) {
    && (forall i {:trigger TiedAt(c, entries, i)} :: 0 <= i < |c.heap| ==> TiedAt(c, entries, i))
    && (forall e {:trigger LiveAt(c, entries, e)} :: e in entries ==> LiveAt(c, entries, e))
  }

  lemma {:induction false} EpochsDiffer<V>(c: Core<V>, entries: map<nat, Entry<V>>, a: nat, b: nat)
    requires Indexed(c) && Tied(c, entries) && a < |c.heap| && b < |c.heap| && a != b
    ensures c.heap[a].epoch != c.heap[b].epoch
    ensures !Less(c.heap[a], c.heap[b]) ==> Less(c.heap[b], c.heap[a])
  {
    assert Placed(c, a) && Placed(c, b) && TiedAt(c, entries, a) && TiedAt(c, entries, b);
  }

  lemma {:induction false} SwapKeepsTiedAt<V>(c: Core<V>, a: nat, b: nat, entries: map<nat, Entry<V>>, i: nat)
    requires a < |c.heap| && b < |c.heap| && a != b && Placed(c, a) && Placed(c, b)
    requires TiedAt(c, entries, a) && TiedAt(c, entries, b) && TiedAt(c, entries, i)
    ensures TiedAt(Swap(c, a, b), entries, i)
  {
  }

  lemma {:induction false} SwapKeepsLiveAt<V>(c: Core<V>, a: nat, b: nat, entries: map<nat, Entry<V>>, e: nat)
    requires a < |c.heap| && b < |c.heap| && a != b && Placed(c, a) && Placed(c, b)
    requires LiveAt(c, entries, e) && (e in entries ==> Backed(c, entries[e].slabIdx))
    ensures LiveAt(Swap(c, a, b), entries, e)
  {
  }

  lemma {:induction false} SwapKeepsTied<V>(c: Core<V>, a: nat, b: nat, entries: map<nat, Entry<V>>)
    requires Indexed(c) && Tied(c, entries) && a < |c.heap| && b < |c.heap| && a != b && Placed(c, a) && Placed(c, b)
    ensures Tied(Swap(c, a, b), entries)
  {
    var d := Swap(c, a, b);
    assert TiedAt(c, entries, a) && TiedAt(c, entries, b);
    forall i | 0 <= i < |d.heap| ensures TiedAt(d, entries, i) {
      SwapKeepsTiedAt(c, a, b, entries, i);
    }
    forall e | e in entries ensures LiveAt(d, entries, e) {
      assert LiveAt(c, entries, e) && Backed(c, entries[e].slabIdx);
      SwapKeepsLiveAt(c, a, b, entries, e);
    }
  }

  /** The free nodes are the same. */
  ghost predicate SameFree<V>(c: Core<V>, d: Core<V>) {
    && |d.heap| == |c.heap| && |d.slab| == |c.slab|
    && forall j {:trigger d.slab[j]} {:trigger c.slab[j]} :: 0 <= j < |c.slab| ==>
         (c.slab[j].FreeNode? <==> d.slab[j].FreeNode?) && (c.slab[j].FreeNode? ==> d.slab[j].next == c.slab[j].next)
  }

  // ----- Moving up -----

  /** The heap is ordered, except that the item at `h` may be less than its parent. */
  predicate UpOrderedAt(heap: seq<Item>, h: nat, i: nat)
    requires h < |heap|
  {
    && (i != h ==> OrderedAt(heap, i))
    && (0 < i < |heap| && Parent(i) == h && h > 0 ==> Less(heap[Parent(h)], heap[i]))
  }

  ghost predicate UpOrdered(heap: seq<Item>, h: nat)
    requires h < |heap|
  {
    forall i {:trigger UpOrderedAt(heap, h, i)} :: 0 < i < |heap| ==> UpOrderedAt(heap, h, i)
  }

  /** Moves the item at `h` up while its parent is larger. */
  ghost function SiftedUp<V>(c: Core<V>, h: nat): Core<V>
    requires h < |c.heap| && Indexed(c)
    decreases h
  {
    if h == 0 || !Less(c.heap[h], c.heap[Parent(h)]) then c
    else
      assert Placed(c, h) && Placed(c, Parent(h));
      SwapKeepsIndexed(c, h, Parent(h));
      SiftedUp(Swap(c, h, Parent(h)), Parent(h))
  }

  lemma {:induction false} SwapUpOrders(heap: seq<Item>, h: nat, up: seq<Item>, i: nat)
    requires 0 < h < |heap| && UpOrdered(heap, h) && Less(heap[h], heap[Parent(h)])
    requires up == heap[h := heap[Parent(h)]][Parent(h) := heap[h]]
    requires 0 < i < |heap|
    ensures UpOrderedAt(up, Parent(h), i)
  {
    var p := Parent(h);
    assert UpOrderedAt(heap, h, i);
    if p > 0 {
      assert UpOrderedAt(heap, h, p);
    }
    if Parent(i) == p {
      assert OrderedAt(heap, i) || i == h;
    }
  }

  /** Moving an item up orders the heap, and neither loses nor changes an entry. */
  lemma {:induction false} SiftUpOrders<V>(c: Core<V>, h: nat, entries: map<nat, Entry<V>>)
    requires h < |c.heap| && Indexed(c) && Tied(c, entries) && UpOrdered(c.heap, h)
    ensures var d := SiftedUp(c, h); Indexed(d) && Tied(d, entries) && Ordered(d.heap) && SameFree(c, d)
    decreases h
  {
    if h == 0 || !Less(c.heap[h], c.heap[Parent(h)]) {
      forall i | 0 < i < |c.heap| ensures OrderedAt(c.heap, i) {
        assert UpOrderedAt(c.heap, h, i);
        if i == h {
          EpochsDiffer(c, entries, h, Parent(h));
        }
      }
    } else {
      var p := Parent(h);
      assert Placed(c, h) && Placed(c, p);
      var d := Swap(c, h, p);
      SwapKeepsIndexed(c, h, p);
      SwapKeepsTied(c, h, p, entries);
      forall i | 0 < i < |d.heap| ensures UpOrderedAt(d.heap, p, i) {
        SwapUpOrders(c.heap, h, d.heap, i);
      }
      SiftUpOrders(d, p, entries);
    }
  }

  // ----- Moving down -----

  /** The heap is ordered, except that the item at `h` may be larger than its children. */
  predicate DownOrderedAt(heap: seq<Item>, h: nat, i: nat)
    requires h < |heap|
  {
    && (0 < i < |heap| && Parent(i) != h ==> OrderedAt(heap, i))
    && (0 < i < |heap| && Parent(i) == h && h > 0 ==> Less(heap[Parent(h)], heap[i]))
  }

  ghost predicate DownOrdered(heap: seq<Item>, h: nat)
    requires h < |heap|
  {
    forall i {:trigger DownOrderedAt(heap, h, i)} :: 0 < i < |heap| ==> DownOrderedAt(heap, h, i)
  }

  /** The child of `h` with the smaller key. */
  function SmallerChild(heap: seq<Item>, h: nat): (k: nat)
    requires 2 * h + 1 < |heap|
    ensures h < k < |heap| && Parent(k) == h
    ensures forall i {:trigger heap[i]} :: 0 < i < |heap| && Parent(i) == h && i != k ==> !Less(heap[i], heap[k])
  {
    if 2 * h + 2 < |heap| && Less(heap[2 * h + 2], heap[2 * h + 1]) then 2 * h + 2 else 2 * h + 1
  }

  /** Moves the item at `h` down while a child is smaller. */
  ghost function SiftedDown<V>(c: Core<V>, h: nat): Core<V>
    requires h < |c.heap| && Indexed(c)
    decreases |c.heap| - h
  {
    if 2 * h + 1 >= |c.heap| || !Less(c.heap[SmallerChild(c.heap, h)], c.heap[h]) then c
    else
      var k := SmallerChild(c.heap, h);
      assert Placed(c, h) && Placed(c, k);
      SwapKeepsIndexed(c, h, k);
      SiftedDown(Swap(c, h, k), k)
  }

  lemma {:induction false} SwapDownOrders<V>(c: Core<V>, h: nat, entries: map<nat, Entry<V>>, down: seq<Item>, i: nat)
    requires Indexed(c) && Tied(c, entries) && 2 * h + 1 < |c.heap| && DownOrdered(c.heap, h)
    requires var k := SmallerChild(c.heap, h);
      Less(c.heap[k], c.heap[h]) && down == c.heap[h := c.heap[k]][k := c.heap[h]]
    requires 0 < i < |c.heap|
    ensures DownOrderedAt(down, SmallerChild(c.heap, h), i)
  {
    var k := SmallerChild(c.heap, h);
    assert DownOrderedAt(c.heap, h, i) && DownOrderedAt(c.heap, h, k);
    if h > 0 {
      assert DownOrderedAt(c.heap, h, h);
    }
    if Parent(i) == h && i != k {
      EpochsDiffer(c, entries, i, k);
    }
  }

  /** Moving an item down orders the heap, and neither loses nor changes an entry. */
  lemma {:induction false} SiftDownOrders<V>(c: Core<V>, h: nat, entries: map<nat, Entry<V>>)
    requires h < |c.heap| && Indexed(c) && Tied(c, entries) && DownOrdered(c.heap, h)
    ensures var d := SiftedDown(c, h); Indexed(d) && Tied(d, entries) && Ordered(d.heap) && SameFree(c, d)
    decreases |c.heap| - h
  {
    if 2 * h + 1 >= |c.heap| || !Less(c.heap[SmallerChild(c.heap, h)], c.heap[h]) {
      forall i | 0 < i < |c.heap| ensures OrderedAt(c.heap, i) {
        assert DownOrderedAt(c.heap, h, i);
        if Parent(i) == h {
          ChildIsLarger(c, h, entries, i);
        }
      }
    } else {
      var k := SmallerChild(c.heap, h);
      assert Placed(c, h) && Placed(c, k);
      var d := Swap(c, h, k);
      SwapKeepsIndexed(c, h, k);
      SwapKeepsTied(c, h, k, entries);
      forall i | 0 < i < |d.heap| ensures DownOrderedAt(d.heap, k, i) {
        SwapDownOrders(c, h, entries, d.heap, i);
      }
      SiftDownOrders(d, k, entries);
    }
  }

  lemma {:induction false} ChildIsLarger<V>(c: Core<V>, h: nat, entries: map<nat, Entry<V>>, i: nat)
    requires Indexed(c) && Tied(c, entries) && 2 * h + 1 < |c.heap| && 0 < i < |c.heap| && Parent(i) == h
    requires !Less(c.heap[SmallerChild(c.heap, h)], c.heap[h])
    ensures Less(c.heap[h], c.heap[i])
  {
    var k := SmallerChild(c.heap, h);
    EpochsDiffer(c, entries, k, h);
    if i != k {
      EpochsDiffer(c, entries, i, k);
    }
  }

  /** The first item of an ordered heap is the least. */
  lemma {:induction false} RootIsLeast(heap: seq<Item>, i: nat)
    requires Ordered(heap) && i < |heap|
    ensures i == 0 || Less(heap[0], heap[i])
  {
    if i > 0 {
      assert OrderedAt(heap, i);
      RootIsLeast(heap, Parent(i));
    }
  }

  // ----- Adding and removing -----

  /** Item `item` was added at the bottom, in node `x`, which was free or is new. */
  ghost predicate IsAppended<V>(c: Core<V>, d: Core<V>, item: Item, value: V) {
    var x := item.slabIdx;
    && d.heap == c.heap + [item]
    && (if x < |c.slab| then c.slab[x].FreeNode? && d.slab == c.slab[x := HeapNode(value, |c.heap|)]
        else x == |c.slab| && d.slab == c.slab + [HeapNode(value, |c.heap|)])
  }

  lemma {:induction false} AppendKeepsIndexed<V>(c: Core<V>, d: Core<V>, item: Item, value: V)
    requires Indexed(c) && IsAppended(c, d, item, value)
    ensures Indexed(d)
  {
    forall i | 0 <= i < |d.heap| ensures Placed(d, i) {
      assert Placed(c, i);
    }
    forall j | 0 <= j < |d.slab| ensures Backed(d, j) {
      assert Backed(c, j);
    }
  }

  lemma {:induction false} AppendKeepsTied<V>(c: Core<V>, d: Core<V>, item: Item, value: V, entries: map<nat, Entry<V>>)
    requires Indexed(c) && Tied(c, entries) && IsAppended(c, d, item, value) && item.epoch !in entries
    ensures Tied(d, entries[item.epoch := Entry(item.key, value, item.slabIdx)])
  {
    var more := entries[item.epoch := Entry(item.key, value, item.slabIdx)];
    forall i | 0 <= i < |d.heap| ensures TiedAt(d, more, i) {
      assert TiedAt(c, entries, i) && Placed(c, i);
    }
    forall e | e in more ensures LiveAt(d, more, e) {
      assert LiveAt(c, entries, e);
    }
  }

  lemma {:induction false} AppendIsUpOrdered(heap: seq<Item>, item: Item)
    requires Ordered(heap)
    ensures UpOrdered(heap + [item], |heap|)
  {
    var more := heap + [item];
    forall i | 0 < i < |more| ensures UpOrderedAt(more, |heap|, i) {
      assert OrderedAt(heap, i);
    }
  }

  /** The core without the item at `k`: the last item takes its place, and its node is free. */
  function Removed<V>(c: Core<V>, k: nat, next: Option<nat>): Core<V>
    requires k < |c.heap| && Placed(c, k) && Placed(c, |c.heap| - 1)
  {
    var n := |c.heap| - 1;
    var slab := c.slab[c.heap[k].slabIdx := FreeNode(next)];
    if k == n then Core(c.heap[..n], slab)
    else Core(c.heap[..n][k := c.heap[n]], slab[c.heap[n].slabIdx := MovedTo(slab[c.heap[n].slabIdx], k)])
  }

  lemma {:induction false} RemoveKeepsIndexed<V>(c: Core<V>, k: nat, next: Option<nat>)
    requires Indexed(c) && k < |c.heap| && Placed(c, k) && Placed(c, |c.heap| - 1)
    ensures Indexed(Removed(c, k, next))
  {
    var d := Removed(c, k, next);
    forall i | 0 <= i < |d.heap| ensures Placed(d, i) {
      assert Placed(c, i);
    }
    forall j | 0 <= j < |d.slab| ensures Backed(d, j) {
      assert Backed(c, j);
    }
  }

  lemma {:induction false} RemoveKeepsTied<V>(c: Core<V>, k: nat, next: Option<nat>, entries: map<nat, Entry<V>>)
    requires Indexed(c) && Tied(c, entries) && k < |c.heap| && Placed(c, k) && Placed(c, |c.heap| - 1)
    ensures Tied(Removed(c, k, next), entries - {c.heap[k].epoch})
  {
    var d := Removed(c, k, next);
    var fewer := entries - {c.heap[k].epoch};
    var n := |c.heap| - 1;
    assert TiedAt(c, entries, k) && TiedAt(c, entries, n);
    forall i | 0 <= i < |d.heap| ensures TiedAt(d, fewer, i) {
      assert TiedAt(c, entries, i) && Placed(c, i);
      EpochsDiffer(c, entries, k, if i == k then n else i);
    }
    forall e | e in fewer ensures LiveAt(d, fewer, e) {
      assert LiveAt(c, entries, e) && Backed(c, entries[e].slabIdx);
    }
  }

  /** Which way the last item goes from the place of the removed one. */
  lemma {:induction false} RemoveOrders(heap: seq<Item>, k: nat, i: nat)
    requires Ordered(heap) && k < |heap| - 1 && 0 < i < |heap| - 1
    ensures var d := heap[..|heap| - 1][k := heap[|heap| - 1]];
      if Less(heap[|heap| - 1], heap[k]) then UpOrderedAt(d, k, i)
      else heap[|heap| - 1].epoch != heap[k].epoch ==> DownOrderedAt(d, k, i)
  {
    assert OrderedAt(heap, i);
    if k > 0 {
      assert OrderedAt(heap, k);
    }
  }

  // ----- The free list -----

  /** The `k`-th free node from the bottom of the free list. */
  ghost predicate FreeAt<V>(c: Core<V>, free: seq<nat>, rank: map<nat, nat>, k: nat) {
    k < |free| ==>
      && free[k] < |c.slab| && c.slab[free[k]].FreeNode?
      && c.slab[free[k]].next == (if k == 0 then None else Some(free[k - 1]))
      && free[k] in rank && rank[free[k]] == k
  }

  ghost predicate RankAt<V>(c: Core<V>, free: seq<nat>, rank: map<nat, nat>, j: nat) {
    j < |c.slab| && c.slab[j].FreeNode? ==> j in rank && rank[j] < |free| && free[rank[j]] == j
  }

  /** The free list is acyclic and covers exactly the free nodes. */
  ghost predicate FreeList<V>(c: Core<V>, first: Option<nat>, free: seq<nat>, rank: map<nat, nat>) {
    && first == (if |free| == 0 then None else Some(free[|free| - 1]))
    && (forall k {:trigger FreeAt(c, free, rank, k)} :: 0 <= k < |free| ==> FreeAt(c, free, rank, k))
    && (forall j {:trigger RankAt(c, free, rank, j)} :: 0 <= j < |c.slab| ==> RankAt(c, free, rank, j))
  }

  lemma {:induction false} SameFreeKeepsList<V>(c: Core<V>, d: Core<V>, first: Option<nat>, free: seq<nat>,
                                                rank: map<nat, nat>)
    requires FreeList(c, first, free, rank) && SameFree(c, d)
    ensures FreeList(d, first, free, rank)
  {
    forall k | 0 <= k < |free| ensures FreeAt(d, free, rank, k) {
      assert FreeAt(c, free, rank, k);
    }
    forall j | 0 <= j < |d.slab| ensures RankAt(d, free, rank, j) {
      assert RankAt(c, free, rank, j);
    }
  }

  /** Removing an item puts its node at the top of the free list. */
  lemma {:induction false} RemoveFrees<V>(c: Core<V>, k: nat, first: Option<nat>, free: seq<nat>, rank: map<nat, nat>)
    requires Indexed(c) && k < |c.heap| && Placed(c, k) && Placed(c, |c.heap| - 1) && FreeList(c, first, free, rank)
    ensures var x := c.heap[k].slabIdx; FreeList(Removed(c, k, first), Some(x), free + [x], rank[x := |free|])
  {
    var d, x := Removed(c, k, first), c.heap[k].slabIdx;
    var more, ranks := free + [x], rank[x := |free|];
    forall i | 0 <= i < |more| ensures FreeAt(d, more, ranks, i) {
      assert FreeAt(c, free, rank, i);
    }
    forall j | 0 <= j < |d.slab| ensures RankAt(d, more, ranks, j) {
      assert RankAt(c, free, rank, j);
    }
  }

  /** Adding an item takes its node from the top of the free list, or a new one. */
  lemma {:induction false} AppendTakes<V>(c: Core<V>, d: Core<V>, item: Item, value: V, first: Option<nat>,
                                          free: seq<nat>, rank: map<nat, nat>)
    requires IsAppended(c, d, item, value) && FreeList(c, first, free, rank)
    requires first.Some? ==> item.slabIdx == first.value
    requires first.None? ==> item.slabIdx == |c.slab|
    ensures first.None? ==> FreeList(d, None, free, rank)
    ensures first.Some? ==> |free| > 0 && first.value < |c.slab| && c.slab[first.value].FreeNode?
    ensures first.Some? ==> FreeList(d, c.slab[first.value].next, free[..|free| - 1], rank)
  {
    var fewer := if first.None? then free else free[..|free| - 1];
    if |free| > 0 {
      assert FreeAt(c, free, rank, |free| - 1);
    }
    forall i | 0 <= i < |fewer| ensures FreeAt(d, fewer, rank, i) {
      assert FreeAt(c, free, rank, i);
    }
    forall j | 0 <= j < |d.slab| ensures RankAt(d, fewer, rank, j) {
      assert RankAt(c, free, rank, j);
    }
  }
}
