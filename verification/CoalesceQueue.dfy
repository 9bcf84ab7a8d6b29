/** The queue between the cache and one subscriber: an item that is still waiting is not queued again, but counted. */
module CoalesceQueue {

  /** A cache leaf, known by its identity, or the marker of the end of the initial walk. */
  datatype Item = Leaf(leaf: nat) | SyncMarker

  datatype Entry = Entry(item: Item, dup: nat)

  type Queue = seq<Entry>

  predicate Waits(q: Queue, i: Item) {
    q != [] && (q[0].item == i || Waits(q[1..], i))
  }

  /** Every item waits at most once. */
  predicate Unique(q: Queue) {
    q != [] ==> !Waits(q[1..], q[0].item) && Unique(q[1..])
  }

  /** The leaf waits, and no marker waits in front of it. */
  predicate Ahead(q: Queue, leaf: nat) {
    q != [] && q[0].item.Leaf? && (q[0].item.leaf == leaf || Ahead(q[1..], leaf))
  }

  function Insert(q: Queue, i: Item): Queue {
    if q == [] then [Entry(i, 0)]
    else if q[0].item == i then [q[0].(dup := q[0].dup + 1)] + q[1..]
    else [q[0]] + Insert(q[1..], i)
  }

  /** An item waits if it is at some place of the queue. */
  lemma {:induction false} WaitsMeans(q: Queue, i: Item)
    ensures Waits(q, i) <==> exists k :: 0 <= k < |q| && q[k].item == i
  {
    if q != [] {
      WaitsMeans(q[1..], i);
      if k :| 0 <= k < |q| && q[k].item == i {
        assert k > 0 ==> q[1..][k - 1].item == i;
      }
    }
  }

  /** A leaf is ahead if it is at a place with no marker in front. */
  lemma {:induction false} AheadMeans(q: Queue, leaf: nat)
    ensures Ahead(q, leaf) <==>
      exists k :: 0 <= k < |q| && q[k].item == Leaf(leaf) && forall j :: 0 <= j < k ==> q[j].item != SyncMarker
  {
    if q != [] {
      AheadMeans(q[1..], leaf);
      if k :| 0 <= k < |q| && q[k].item == Leaf(leaf) && forall j :: 0 <= j < k ==> q[j].item != SyncMarker {
        if k > 0 {
          assert q[1..][k - 1].item == Leaf(leaf);
          assert forall j :: 0 <= j < k - 1 ==> q[1..][j] == q[j + 1];
          assert q[0].item != SyncMarker;
        }
      }
      if Ahead(q, leaf) {
        var k := AheadAt(q, leaf);
      }
    }
  }

  lemma {:induction false} AheadAt(q: Queue, leaf: nat) returns (k: nat)
    requires Ahead(q, leaf)
    ensures k < |q| && q[k].item == Leaf(leaf) && forall j :: 0 <= j < k ==> q[j].item != SyncMarker
  {
    if q[0].item == Leaf(leaf) {
      k := 0;
    } else {
      k := AheadAt(q[1..], leaf);
      k := k + 1;
      assert forall j :: 0 < j < k ==> q[j] == q[1..][j - 1];
    }
  }

  /** No item is at two places. */
  lemma {:induction false} UniqueMeans(q: Queue)
    ensures Unique(q) <==> forall j, k :: 0 <= j < k < |q| ==> q[j].item != q[k].item
  {
    if q != [] {
      UniqueMeans(q[1..]);
      WaitsMeans(q[1..], q[0].item);
      assert forall k :: 0 < k < |q| ==> q[k] == q[1..][k - 1];
      assert forall k :: 0 <= k < |q| - 1 ==> q[1..][k] == q[k + 1];
    }
  }

  /** The insertions that the waiting items stand for. */
  function Total(q: Queue): nat {
    if q == [] then 0 else 1 + q[0].dup + Total(q[1..])
  }

  /** An insertion keeps the order, adds the item at the end unless it waits already, and is counted once. */
  lemma {:induction false} InsertKeepsOrder(q: Queue, i: Item)
    ensures |Insert(q, i)| == if Waits(q, i) then |q| else |q| + 1
    ensures forall k :: 0 <= k < |q| ==> Insert(q, i)[k].item == q[k].item
    ensures !Waits(q, i) ==> Insert(q, i) == q + [Entry(i, 0)]
    ensures Total(Insert(q, i)) == Total(q) + 1
  {
    if q != [] {
      InsertKeepsOrder(q[1..], i);
      assert q == [q[0]] + q[1..];
    }
  }

  lemma {:induction false} WaitsAfterInsert(q: Queue, i: Item, j: Item)
    ensures Waits(Insert(q, i), j) <==> Waits(q, j) || i == j
  {
    if q != [] {
      WaitsAfterInsert(q[1..], i, j);
    }
  }

  lemma WaitsAfterTake(q: Queue, i: Item)
    requires Unique(q) && q != []
    ensures Waits(q[1..], i) <==> Waits(q, i) && q[0].item != i
  {
  }

  lemma {:induction false} UniqueAfterInsert(q: Queue, i: Item)
    requires Unique(q)
    ensures Unique(Insert(q, i))
  {
    if q != [] && q[0].item != i {
      UniqueAfterInsert(q[1..], i);
      WaitsAfterInsert(q[1..], i, q[0].item);
    }
  }

  /** An insertion overtakes nothing: what was in front of the marker stays there, and so does a leaf
      that is inserted before the marker is. */
  lemma {:induction false} AheadAfterInsert(q: Queue, i: Item, leaf: nat)
    ensures Ahead(q, leaf) ==> Ahead(Insert(q, i), leaf)
    ensures i == Leaf(leaf) && !Waits(q, SyncMarker) ==> Ahead(Insert(q, i), leaf)
  {
    if q != [] {
      AheadAfterInsert(q[1..], i, leaf);
    }
  }

  /** No marker waits in front of a leaf when no marker waits at all. */
  lemma {:induction false} AllAhead(q: Queue, leaf: nat)
    requires !Waits(q, SyncMarker)
    ensures Ahead(q, leaf) == Waits(q, Leaf(leaf))
  {
    if q != [] {
      AllAhead(q[1..], leaf);
    }
  }
}
