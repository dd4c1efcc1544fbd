/**
  The associative priority queue: a map from unique keys to values, from which the pair with the
  lowest key can be pulled, and any pair extracted with the key returned at its insertion.
*/
module IndexedQueue {
  import opened Options
  import opened IndexedHeap

  const U64_MAX: nat := 0xFFFF_FFFF_FFFF_FFFF

  /** What `insert` returns, and `extract` accepts. */
  datatype InsertKey = InsertKey(slabIdx: nat, epoch: nat)

  predicate IsHeapNode<V>(slab: seq<Node<V>>, x: nat) {
    x < |slab| && slab[x].HeapNode?
  }

  /** The node of an item that is put at `i`. It must be in the heap: the source panics otherwise. */
  function HeapNodeAt<V>(slab: seq<Node<V>>, x: nat, i: nat): seq<Node<V>>
    requires IsHeapNode(slab, x)
  {
    slab[x := MovedTo(slab[x], i)]
  }

  /** The core that results if `item` is put at `i`, where the heap has a hole. */
  function FilledAt<V>(heap: seq<Item>, slab: seq<Node<V>>, item: Item, i: nat): Core<V>
    requires i < |heap| && IsHeapNode(slab, item.slabIdx)
  {
    Core(heap[i := item], HeapNodeAt(slab, item.slabIdx, i))
  }

  /** Moving the item at `b` to the hole at `a` amounts to a swap. */
  lemma {:induction false} MoveHole<V>(heap: seq<Item>, slab: seq<Node<V>>, item: Item, a: nat, b: nat)
    requires a < |heap| && b < |heap| && a != b && IsHeapNode(slab, item.slabIdx)
    requires Indexed(FilledAt(heap, slab, item, a))
    ensures IsHeapNode(slab, heap[b].slabIdx) && IsHeapNode(HeapNodeAt(slab, heap[b].slabIdx, a), item.slabIdx)
    ensures var c := FilledAt(heap, slab, item, a);
      && Placed(c, a) && Placed(c, b)
      && FilledAt(heap[a := heap[b]], HeapNodeAt(slab, heap[b].slabIdx, a), item, b) == Swap(c, a, b)
      && Indexed(Swap(c, a, b))
  {
    var c := FilledAt(heap, slab, item, a);
    assert Placed(c, a) && Placed(c, b);
    SwapKeepsIndexed(c, a, b);
  }

  /** Putting the last item at `k`, after the node of the item at `k` was freed, is a removal. */
  lemma {:induction false} FillIsRemoval<V>(c: Core<V>, k: nat, next: Option<nat>)
    requires Indexed(c) && k < |c.heap| - 1 && Placed(c, k) && Placed(c, |c.heap| - 1)
    ensures var n := |c.heap| - 1; var last := c.heap[n]; var slab := c.slab[c.heap[k].slabIdx := FreeNode(next)];
      IsHeapNode(slab, last.slabIdx) && last.slabIdx != c.heap[k].slabIdx
      && FilledAt(c.heap[..n], slab, last, k) == Removed(c, k, next) && Indexed(Removed(c, k, next))
  {
    RemoveKeepsIndexed(c, k, next);
  }

  /** A core whose heap is ordered, that stands for `entries`, with its free list. */
  ghost predicate Sound<V>(c: Core<V>, entries: map<nat, Entry<V>>, first: Option<nat>, free: seq<nat>,
                           rank: map<nat, nat>)
  {
    Indexed(c) && Tied(c, entries) && Ordered(c.heap) && FreeList(c, first, free, rank)
  }

  /** Removing the last item. */
  lemma {:induction false} LastRemovalIsSound<V>(c: Core<V>, k: nat, entries: map<nat, Entry<V>>, first: Option<nat>,
                                                 free: seq<nat>, rank: map<nat, nat>)
    requires Sound(c, entries, first, free, rank) && k == |c.heap| - 1 && Placed(c, k) && Indexed(Removed(c, k, first))
    ensures var x := c.heap[k].slabIdx;
      Sound(Removed(c, k, first), entries - {c.heap[k].epoch}, Some(x), free + [x], rank[x := |free|])
  {
    var r := Removed(c, k, first);
    RemoveKeepsTied(c, k, first, entries);
    RemoveFrees(c, k, first, free, rank);
    forall i | 0 < i < k ensures OrderedAt(r.heap, i) {
      assert OrderedAt(c.heap, i);
    }
  }

  /** Removing an item and moving the last one up from its place. */
  lemma {:induction false} UpRemovalIsSound<V>(c: Core<V>, k: nat, entries: map<nat, Entry<V>>, first: Option<nat>,
                                               free: seq<nat>, rank: map<nat, nat>)
    requires Sound(c, entries, first, free, rank) && k < |c.heap| - 1 && Placed(c, k) && Placed(c, |c.heap| - 1)
    requires Indexed(Removed(c, k, first)) && Less(c.heap[|c.heap| - 1], c.heap[k])
    ensures var x := c.heap[k].slabIdx;
      Sound(SiftedUp(Removed(c, k, first), k), entries - {c.heap[k].epoch}, Some(x), free + [x], rank[x := |free|])
  {
    var r, x := Removed(c, k, first), c.heap[k].slabIdx;
    RemoveKeepsTied(c, k, first, entries);
    RemoveFrees(c, k, first, free, rank);
    forall i | 0 < i < |c.heap| - 1 ensures UpOrderedAt(r.heap, k, i) {
      RemoveOrders(c.heap, k, i);
    }
    SiftUpOrders(r, k, entries - {c.heap[k].epoch});
    SameFreeKeepsList(r, SiftedUp(r, k), Some(x), free + [x], rank[x := |free|]);
  }

  /** Removing an item and moving the last one down from its place. */
  lemma {:induction false} DownRemovalIsSound<V>(c: Core<V>, k: nat, entries: map<nat, Entry<V>>, first: Option<nat>,
                                                 free: seq<nat>, rank: map<nat, nat>)
    requires Sound(c, entries, first, free, rank) && k < |c.heap| - 1 && Placed(c, k) && Placed(c, |c.heap| - 1)
    requires Indexed(Removed(c, k, first)) && !Less(c.heap[|c.heap| - 1], c.heap[k])
    ensures var x := c.heap[k].slabIdx;
      Sound(SiftedDown(Removed(c, k, first), k), entries - {c.heap[k].epoch}, Some(x), free + [x], rank[x := |free|])
  {
    var r, x := Removed(c, k, first), c.heap[k].slabIdx;
    RemoveKeepsTied(c, k, first, entries);
    RemoveFrees(c, k, first, free, rank);
    EpochsDiffer(c, entries, |c.heap| - 1, k);
    forall i | 0 < i < |c.heap| - 1 ensures DownOrderedAt(r.heap, k, i) {
      RemoveOrders(c.heap, k, i);
    }
    SiftDownOrders(r, k, entries - {c.heap[k].epoch});
    SameFreeKeepsList(r, SiftedDown(r, k), Some(x), free + [x], rank[x := |free|]);
  }

  /** Removing an item and moving the last one to its right place. */
  lemma {:induction false} RemovalIsSound<V>(c: Core<V>, k: nat, entries: map<nat, Entry<V>>, first: Option<nat>,
                                             free: seq<nat>, rank: map<nat, nat>, d: Core<V>)
    requires Sound(c, entries, first, free, rank) && k < |c.heap| && Placed(c, k) && Placed(c, |c.heap| - 1)
    requires Indexed(Removed(c, k, first))
    requires d == if k == |c.heap| - 1 then Removed(c, k, first)
                  else if Less(c.heap[|c.heap| - 1], c.heap[k]) then SiftedUp(Removed(c, k, first), k)
                  else SiftedDown(Removed(c, k, first), k)
    ensures var x := c.heap[k].slabIdx; Sound(d, entries - {c.heap[k].epoch}, Some(x), free + [x], rank[x := |free|])
  {
    if k == |c.heap| - 1 {
      LastRemovalIsSound(c, k, entries, first, free, rank);
    } else if Less(c.heap[|c.heap| - 1], c.heap[k]) {
      UpRemovalIsSound(c, k, entries, first, free, rank);
    } else {
      DownRemovalIsSound(c, k, entries, first, free, rank);
    }
  }

  /** Adding an item at the bottom and moving it to its right place. */
  lemma {:induction false} InsertionIsSound<V>(c: Core<V>, d: Core<V>, item: Item, value: V,
                                               entries: map<nat, Entry<V>>, first: Option<nat>, free: seq<nat>,
                                               rank: map<nat, nat>)
    requires Sound(c, entries, first, free, rank) && IsAppended(c, d, item, value) && item.epoch !in entries
    requires item.slabIdx == (if first.Some? then first.value else |c.slab|)
    ensures Indexed(d) && (first.Some? ==> first.value < |c.slab| && c.slab[first.value].FreeNode? && |free| > 0)
    ensures var more := entries[item.epoch := Entry(item.key, value, item.slabIdx)];
      if first.None? then Sound(SiftedUp(d, |c.heap|), more, None, free, rank)
      else Sound(SiftedUp(d, |c.heap|), more, c.slab[first.value].next, free[..|free| - 1], rank)
  {
    var more := entries[item.epoch := Entry(item.key, value, item.slabIdx)];
    AppendKeepsIndexed(c, d, item, value);
    AppendKeepsTied(c, d, item, value, entries);
    AppendTakes(c, d, item, value, first, free, rank);
    AppendIsUpOrdered(c.heap, item);
    SiftUpOrders(d, |c.heap|, more);
    var fewer := if first.None? then free else free[..|free| - 1];
    SameFreeKeepsList(d, SiftedUp(d, |c.heap|), if first.None? then None else c.slab[first.value].next, fewer, rank);
  }

  /** The entry with the lowest key, and among these the first inserted. */
  ghost predicate IsLeast<V>(entries: map<nat, Entry<V>>, e: nat) {
    e in entries && forall f :: f in entries && f != e ==>
      entries[e].key < entries[f].key || (entries[e].key == entries[f].key && e < f)
  }

  lemma {:induction false} RootIsLeastEntry<V>(c: Core<V>, entries: map<nat, Entry<V>>)
    requires Indexed(c) && Tied(c, entries) && Ordered(c.heap) && |c.heap| > 0
    ensures IsLeast(entries, c.heap[0].epoch)
  {
    assert TiedAt(c, entries, 0);
    forall f | f in entries && f != c.heap[0].epoch ensures Less(c.heap[0], Item(entries[f].key, f, 0)) {
      assert LiveAt(c, entries, f);
      var i := c.slab[entries[f].slabIdx].heapIdx;
      assert TiedAt(c, entries, i);
      RootIsLeast(c.heap, i);
    }
  }

  /** What pulling the root relies on. */
  lemma {:induction false} RootCanBePulled<V>(c: Core<V>, entries: map<nat, Entry<V>>, first: Option<nat>)
    requires Indexed(c) && Tied(c, entries) && Ordered(c.heap) && |c.heap| > 0
    ensures Placed(c, 0) && Placed(c, |c.heap| - 1) && TiedAt(c, entries, 0) && IsLeast(entries, c.heap[0].epoch)
    ensures !Less(c.heap[|c.heap| - 1], c.heap[0]) && Indexed(Removed(c, 0, first))
  {
    RootIsLeastEntry(c, entries);
    RootIsLeast(c.heap, |c.heap| - 1);
    assert Placed(c, 0) && Placed(c, |c.heap| - 1) && TiedAt(c, entries, 0);
    RemoveKeepsIndexed(c, 0, first);
  }

  lemma {:induction false} EmptyMeansNoEntry<V>(c: Core<V>, entries: map<nat, Entry<V>>)
    requires Tied(c, entries)
    ensures |c.heap| == 0 <==> entries == map[]
  {
    if e :| e in entries {
      assert LiveAt(c, entries, e);
    }
    if |c.heap| > 0 {
      assert TiedAt(c, entries, 0);
    }
  }

  class IndexedPriorityQueue<V> {
    var heap: seq<Item>
    var slab: seq<Node<V>>
    var firstFree: Option<nat>
    var nextEpoch: nat
    ghost var entries: map<nat, Entry<V>>   // the pairs in the queue, by epoch
    ghost var free: seq<nat>                // the free nodes
    ghost var rank: map<nat, nat>           // the place of each in the free list

    ghost function Contents(): Core<V>
      reads this
    {
      Core(heap, slab)
    }

    ghost predicate Valid()
      reads this
    {
      && Sound(Contents(), entries, firstFree, free, rank)
      && nextEpoch <= U64_MAX && forall e :: e in entries ==> e < nextEpoch
    }

    /** The pair with this insertion key is in the queue. */
    ghost predicate Holds(k: InsertKey)
      reads this
    {
      k.epoch in entries && entries[k.epoch].slabIdx == k.slabIdx
    }

    ghost function View(): Model<V>
      reads this
    {
      Model(entries, nextEpoch)
    }

    constructor ()
      ensures Valid() && entries == map[] && nextEpoch == 0
    {
      heap := [];
      slab := [];
      firstFree := None;
      nextEpoch := 0;
      entries := map[];
      free := [];
      rank := map[];
    }

    /** The core if `item` stood at `i`. */
    ghost function Filled(item: Item, i: nat): Core<V>
      requires i < |heap| && IsHeapNode(slab, item.slabIdx)
      reads this
    {
      FilledAt(heap, slab, item, i)
    }

    method SiftUp(item: Item, heapIdx: nat)
      requires heapIdx < |heap| && IsHeapNode(slab, item.slabIdx) && Indexed(Filled(item, heapIdx))
      modifies this`heap, this`slab
      ensures Contents() == SiftedUp(old(Filled(item, heapIdx)), heapIdx)
    {
      var child: nat := heapIdx;
      ghost var goal := SiftedUp(Filled(item, heapIdx), heapIdx);
      while child != 0
        invariant child < |heap| && IsHeapNode(slab, item.slabIdx) && Indexed(Filled(item, child))
        invariant SiftedUp(Filled(item, child), child) == goal
      {
        var parent := (child - 1) / 2;
        if !Less(item, heap[parent]) {
          break;
        }
        MoveHole(heap, slab, item, child, parent);
        heap := heap[child := heap[parent]];
        slab := HeapNodeAt(slab, heap[parent].slabIdx, child);
        child := parent;
      }
      heap := heap[child := item];
      slab := HeapNodeAt(slab, item.slabIdx, child);
    }

    method SiftDown(item: Item, heapIdx: nat)
      requires heapIdx < |heap| && IsHeapNode(slab, item.slabIdx) && Indexed(Filled(item, heapIdx))
      modifies this`heap, this`slab
      ensures Contents() == SiftedDown(old(Filled(item, heapIdx)), heapIdx)
    {
      var parent: nat := heapIdx;
      var child: nat := 2 * parent + 1;
      ghost var goal := SiftedDown(Filled(item, heapIdx), heapIdx);
      while child < |heap|
        invariant parent < |heap| && child == 2 * parent + 1
        invariant IsHeapNode(slab, item.slabIdx) && Indexed(Filled(item, parent))
        invariant SiftedDown(Filled(item, parent), parent) == goal
        decreases |heap| - parent
      {
        if child + 1 < |heap| && Less(heap[child + 1], heap[child]) {
          child := child + 1;
        }
        assert child == SmallerChild(Filled(item, parent).heap, parent);
        if !Less(heap[child], item) {
          break;
        }
        MoveHole(heap, slab, item, parent, child);
        heap := heap[parent := heap[child]];
        slab := HeapNodeAt(slab, heap[child].slabIdx, parent);
        parent := child;
        child := 2 * parent + 1;
      }
      heap := heap[parent := item];
      slab := HeapNodeAt(slab, item.slabIdx, parent);
    }

    /** A node for a new value: the first free one, or one more. */
    method AddNode(value: V) returns (slabIdx: nat)
      requires firstFree.Some? ==> firstFree.value < |slab| && slab[firstFree.value].FreeNode?
      modifies this`slab, this`firstFree
      ensures slabIdx == if old(firstFree).Some? then old(firstFree).value else |old(slab)|
      ensures slab == if old(firstFree).Some? then old(slab)[slabIdx := HeapNode(value, 0)]
        else old(slab) + [HeapNode(value, 0)]
      ensures firstFree == if old(firstFree).Some? then old(slab)[slabIdx].next else None
    {
      if firstFree.Some? {
        slabIdx := firstFree.value;
        firstFree := slab[slabIdx].next;
        slab := slab[slabIdx := HeapNode(value, 0)];
      } else {
        slabIdx := |slab|;
        slab := slab + [HeapNode(value, 0)];
      }
    }

    /** Adds a pair under an epoch that no pair has. */
    method Add(key: int, epoch: nat, value: V) returns (slabIdx: nat)
      requires Sound(Contents(), entries, firstFree, free, rank) && epoch !in entries
      modifies this`heap, this`slab, this`firstFree, this`entries, this`free
      ensures Sound(Contents(), entries, firstFree, free, rank)
      ensures entries == old(entries)[epoch := Entry(key, value, slabIdx)]
    {
      ghost var before := Contents();
      assert firstFree.Some? ==> FreeAt(before, free, rank, |free| - 1);
      slabIdx := AddNode(value);
      var heapIdx := |heap|;
      heap := heap + [Item(key, epoch, 0)];
      var item := Item(key, epoch, slabIdx);
      InsertionIsSound(before, Filled(item, heapIdx), item, value, entries, old(firstFree), free, rank);
      SiftUp(item, heapIdx);
      entries := entries[epoch := Entry(key, value, slabIdx)];
      free := if old(firstFree).Some? then free[..|free| - 1] else free;
    }

    /** Adds a pair, and returns a key that no other pair has, or ever had. */
    method Insert(key: int, value: V) returns (k: InsertKey)
      requires Valid() && nextEpoch != U64_MAX
      modifies this
      ensures Valid() && k.epoch == old(nextEpoch) && nextEpoch == old(nextEpoch) + 1 && k.epoch !in old(entries)
      ensures entries == old(entries)[k.epoch := Entry(key, value, k.slabIdx)] && Follows(old(View()), View())
    {
      var epoch := nextEpoch;
      nextEpoch := nextEpoch + 1;
      var slabIdx := Add(key, epoch, value);
      InsertionFollows(old(entries), epoch, Entry(key, value, slabIdx));
      return InsertKey(slabIdx, epoch);
    }

    /** Removes the root: its node is freed, and the last item takes its place. */
    method RemoveRoot()
      requires Valid() && |heap| > 0
      modifies this
      ensures Valid() && nextEpoch == old(nextEpoch) && entries == old(entries) - {old(heap[0].epoch)}
    {
      ghost var before, epoch := Contents(), heap[0].epoch;
      var n, top := |heap| - 1, heap[0].slabIdx;
      RootCanBePulled(before, entries, firstFree);
      slab := slab[top := FreeNode(firstFree)];
      firstFree := Some(top);
      var last := heap[n];
      heap := heap[..n];
      if last.slabIdx != top {
        FillIsRemoval(before, 0, old(firstFree));
        SiftDown(last, 0);
      }
      RemovalIsSound(before, 0, entries, old(firstFree), free, rank, Contents());
      rank := rank[top := |free|];
      free := free + [top];
      entries := entries - {epoch};
    }

    /** Removes the pair with the lowest key, the first inserted among equals, if any. */
    method Pull() returns (r: Option<(int, V)>, ghost e: nat)
      requires Valid()
      modifies this
      ensures Valid() && nextEpoch == old(nextEpoch)
      ensures r.None? <==> old(entries) == map[]
      ensures r.None? ==> entries == old(entries)
      ensures r.Some? ==> IsLeast(old(entries), e) && entries == old(entries) - {e}
      ensures r.Some? ==> r.value == (old(entries)[e].key, old(entries)[e].value)
      ensures Follows(old(View()), View())
    {
      EmptyMeansNoEntry(Contents(), entries);
      if |heap| == 0 {
        return None, 0;
      }
      RootCanBePulled(Contents(), entries, firstFree);
      e := heap[0].epoch;
      r := Some((heap[0].key, slab[heap[0].slabIdx].value));
      RemovalFollows(entries, e, nextEpoch);
      RemoveRoot();
    }

    method PeekKey() returns (r: Option<int>, ghost e: nat)
      requires Valid()
      ensures r.None? <==> entries == map[]
      ensures r.Some? ==> IsLeast(entries, e) && r.value == entries[e].key
    {
      EmptyMeansNoEntry(Contents(), entries);
      if |heap| == 0 {
        return None, 0;
      }
      assert TiedAt(Contents(), entries, 0);
      RootIsLeastEntry(Contents(), entries);
      return Some(heap[0].key), heap[0].epoch;
    }

    /** Removes the item at `heapIdx`: its node `x` is freed, and the last item moves up or down from its place. */
    method RemoveAt(heapIdx: nat, x: nat)
      requires Valid() && heapIdx < |heap| && x == heap[heapIdx].slabIdx
      modifies this
      ensures Valid() && nextEpoch == old(nextEpoch) && entries == old(entries) - {old(heap[heapIdx].epoch)}
    {
      ghost var before, epoch := Contents(), heap[heapIdx].epoch;
      var n := |heap| - 1;
      assert Placed(before, heapIdx) && Placed(before, n);
      RemoveKeepsIndexed(before, heapIdx, firstFree);
      slab := slab[x := FreeNode(firstFree)];
      firstFree := Some(x);
      var last := heap[n];
      heap := heap[..n];
      if heapIdx < |heap| {
        FillIsRemoval(before, heapIdx, old(firstFree));
        if Less(last, heap[heapIdx]) {
          SiftUp(last, heapIdx);
        } else {
          SiftDown(last, heapIdx);
        }
      }
      RemovalIsSound(before, heapIdx, entries, old(firstFree), free, rank, Contents());
      rank := rank[x := |free|];
      free := free + [x];
      entries := entries - {epoch};
    }

    /** Removes the pair with this insertion key if it is in the queue; any other key, stale or made up, is refused. */
    method Extract(k: InsertKey) returns (r: Option<(int, V)>)
      requires Valid()
      modifies this
      ensures Valid() && nextEpoch == old(nextEpoch)
      ensures r.Some? <==> old(Holds(k))
      ensures r.Some? ==> entries == old(entries) - {k.epoch}
      ensures r.Some? ==> r.value == (old(entries)[k.epoch].key, old(entries)[k.epoch].value)
      ensures r.None? ==> entries == old(entries)
      ensures Follows(old(View()), View())
    {
      ghost var before := Contents();
      var x := k.slabIdx;
      assert LiveAt(before, entries, k.epoch);
      if x >= |slab| || slab[x].FreeNode? {
        return None;
      }
      assert Backed(before, x);
      var heapIdx := slab[x].heapIdx;
      assert Placed(before, heapIdx) && TiedAt(before, entries, heapIdx);
      if heap[heapIdx].epoch != k.epoch {
        return None;
      }
      r := Some((heap[heapIdx].key, slab[x].value));
      RemovalFollows(entries, k.epoch, nextEpoch);
      RemoveAt(heapIdx, x);
    }
  }

  // ----- Histories -----

  /** What a queue stands for between two operations. */
  datatype Model<V> = Model(entries: map<nat, Entry<V>>, nextEpoch: nat)

  ghost predicate HoldsIn<V>(m: Model<V>, k: InsertKey) {
    k.epoch in m.entries && m.entries[k.epoch].slabIdx == k.slabIdx
  }

  /** `n` follows `m` by an insertion, or by the removal of a pair, or by nothing: the effects of the operations. */
  ghost predicate Follows<V>(m: Model<V>, n: Model<V>) {
    || n == m
    || (exists e :: e in m.entries && n == Model(m.entries - {e}, m.nextEpoch))
    || (n.nextEpoch == m.nextEpoch + 1 && m.nextEpoch in n.entries && n.entries - {m.nextEpoch} == m.entries)
  }

  lemma {:induction false} InsertionFollows<V>(entries: map<nat, Entry<V>>, epoch: nat, x: Entry<V>)
    requires epoch !in entries
    ensures Follows(Model(entries, epoch), Model(entries[epoch := x], epoch + 1))
  {
    assert entries[epoch := x] - {epoch} == entries;
  }

  lemma {:induction false} RemovalFollows<V>(entries: map<nat, Entry<V>>, e: nat, nextEpoch: nat)
    requires e in entries
    ensures Follows(Model(entries, nextEpoch), Model(entries - {e}, nextEpoch))
  {
  }

  /** An insertion key whose pair was removed is refused for ever, even if its node is used again. */
  lemma {:induction false} RemovedKeysStayDead<V>(history: seq<Model<V>>, k: InsertKey, i: nat)
    requires i < |history| && k.epoch < history[0].nextEpoch && !HoldsIn(history[0], k)
    requires forall j :: 0 < j < |history| ==> Follows(history[j - 1], history[j])
    ensures !HoldsIn(history[i], k) && k.epoch < history[i].nextEpoch
  {
    if i > 0 {
      RemovedKeysStayDead(history, k, i - 1);
      assert Follows(history[i - 1], history[i]);
    }
  }
}
