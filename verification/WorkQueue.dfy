/**
 queue.go: the cancellable FIFO that carries scaling events from processEvals to the workers.
 The implementation keeps an id -> position map beside the items, with -1 as the tombstone of a
 removed id. The specification is a plain sequence of entries.
 */
module WorkQueue {
  import opened Ids

  datatype Entry<+T> = Entry(item: T, id: string)

  const TOMBSTONE := -1

  /** The id is queued. */
  predicate Queued<T>(items: seq<Entry<T>>, id: string) {
    exists i :: 0 <= i < |items| && items[i].id == id
  }

  ghost predicate DistinctIds<T>(items: seq<Entry<T>>) {
    forall i, j :: 0 <= i < j < |items| ==> items[i].id != items[j].id
  }

  /** The first position that carries the id. */
  function Position<T>(items: seq<Entry<T>>, id: string): (k: nat)
    requires Queued(items, id)
    ensures k < |items| && items[k].id == id
    ensures forall i :: 0 <= i < k ==> items[i].id != id
  {
    if items[0].id == id then 0
    else
      assert Queued(items[1..], id) by {
        var i :| 0 <= i < |items| && items[i].id == id;
        assert items[1..][i - 1].id == id;
      }
      1 + Position(items[1..], id)
  }

  /** The queue without the entry that carries the id: the specification of Remove. */
  function Without<T>(items: seq<Entry<T>>, id: string): seq<Entry<T>> {
    if Queued(items, id) then
      var k := Position(items, id);
      items[..k] + items[k + 1..]
    else
      items
  }

  /** The second sequence is the first without its k-th entry. */
  ghost predicate Deleted<T(!new)>(items: seq<T>, k: nat, r: seq<T>) {
    && k < |items| == |r| + 1
    && (forall i :: 0 <= i < k ==> r[i] == items[i])
    && (forall i :: k <= i < |r| ==> r[i] == items[i + 1])
  }

  lemma SliceDeletes<T(!new)>(items: seq<T>, k: nat)
    requires k < |items|
    ensures Deleted(items, k, items[..k] + items[k + 1..])
  {
  }

  lemma DeletedIds<T(!new)>(items: seq<Entry<T>>, k: nat, r: seq<Entry<T>>, x: string)
    requires Deleted(items, k, r) && DistinctIds(items)
    ensures DistinctIds(r)
    ensures Queued(r, x) <==> Queued(items, x) && x != items[k].id
  {
    if Queued(items, x) && x != items[k].id {
      var i :| 0 <= i < |items| && items[i].id == x;
      assert r[if i < k then i else i - 1].id == x;
    }
    if Queued(r, x) {
      var i :| 0 <= i < |r| && r[i].id == x;
      assert items[if i < k then i else i + 1].id == x;
    }
  }

  /** In a queue of distinct ids, Remove takes the id away and leaves every other one. */
  lemma WithoutMeaning<T(!new)>(items: seq<Entry<T>>, id: string)
    requires DistinctIds(items)
    ensures DistinctIds(Without(items, id))
    ensures forall x :: Queued(Without(items, id), x) <==> Queued(items, x) && x != id
  {
    if Queued(items, id) {
      var k, r := Position(items, id), Without(items, id);
      SliceDeletes(items, k);
      forall x ensures Queued(r, x) <==> Queued(items, x) && x != id {
        DeletedIds(items, k, r, x);
      }
      DeletedIds(items, k, r, id);
    }
  }

  /** The map agrees with the sequence: a live id maps to its position, every other entry is a tombstone. */
  ghost predicate Coherent<T>(items: seq<Entry<T>>, index: map<string, int>) {
    && (forall i :: 0 <= i < |items| ==> items[i].id in index && index[items[i].id] == i)
    && (forall id :: id in index ==>
          index[id] == TOMBSTONE || (0 <= index[id] < |items| && items[index[id]].id == id))
  }

  /** The map with every position above the threshold moved down by one. */
  function Shifted(index: map<string, int>, above: int): map<string, int> {
    map id | id in index :: if index[id] > above then index[id] - 1 else index[id]
  }

  /** Deleting an entry, burying its id and moving the later positions down keeps the agreement. */
  lemma DeletedCoherent<T(!new)>(items: seq<Entry<T>>, k: nat, r: seq<Entry<T>>, index: map<string, int>)
    requires Coherent(items, index) && Deleted(items, k, r)
    ensures Coherent(r, Shifted(index[items[k].id := TOMBSTONE], k))
  {
  }

  /** The entry a live id maps to is the first one that carries it. */
  lemma IndexIsPosition<T(!new)>(items: seq<Entry<T>>, index: map<string, int>, id: string)
    requires Coherent(items, index)
    ensures Queued(items, id) <==> id in index && index[id] != TOMBSTONE
    ensures Queued(items, id) ==> Position(items, id) == index[id]
  {
  }

  /**
   Enqueue keeps the map and the sequence in agreement exactly when the id is not already queued:
   the condition its caller has to guarantee.
   */
  lemma EnqueueCoherentIff<T>(items: seq<Entry<T>>, index: map<string, int>, e: Entry<T>)
    requires Coherent(items, index)
    ensures Coherent(items + [e], index[e.id := |items|]) <==> !Queued(items, e.id)
  {
    var items', index' := items + [e], index[e.id := |items|];
    assert items'[|items|] == e;
    if Queued(items, e.id) {
      var i :| 0 <= i < |items| && items[i].id == e.id;
      assert items'[i].id == e.id && index'[e.id] != i;
    }
  }

  class Queue<T(!new)> {
    var itemsIds: map<string, int>
    var items: seq<Entry<T>>
    var wake: bool  // the one-slot channel that wakes the pump

    ghost predicate Valid()
      reads this
    {
      Coherent(items, itemsIds)
    }

    constructor ()
      ensures Valid() && items == [] && !wake
    {
      itemsIds, items, wake := map[], [], false;
    }

    /** Append an item and leave a wake-up token for the pump. */
    method Enqueue(item: T, itemId: string)
      requires Valid() && !Queued(items, itemId)
      modifies this
      ensures Valid()
      ensures items == old(items) + [Entry(item, itemId)] && wake
    {
      EnqueueCoherentIff(items, itemsIds, Entry(item, itemId));
      var index := |items|;
      items := items + [Entry(item, itemId)];
      itemsIds := itemsIds[itemId := index];
      wake := true;
    }

    /** The re-indexing loop: every position above the threshold moves down by one. */
    method ShiftDown(above: int)
      modifies `itemsIds
      ensures itemsIds == Shifted(old(itemsIds), above)
    {
      var todo := itemsIds.Keys;
      while todo != {}
        invariant todo <= itemsIds.Keys == old(itemsIds).Keys
        invariant forall id :: id in itemsIds ==>
                    itemsIds[id] == if id !in todo && old(itemsIds)[id] > above
                                    then old(itemsIds)[id] - 1 else old(itemsIds)[id]
      {
        var id :| id in todo;
        if itemsIds[id] > above {
          itemsIds := itemsIds[id := itemsIds[id] - 1];
        }
        todo := todo - {id};
      }
    }

    /**
     One pass of the consumer's loop, from the hand-off to the end of the critical section. A token
     with nothing behind it delivers nothing and sends the consumer back to wait; the tombstone branch
     is dead, so no entry is ever held over from an earlier pass.
     */
    method Round() returns (got: Option<Entry<T>>)
      requires Valid()
      modifies `items, `itemsIds
      ensures Valid()
      ensures old(items) == [] ==> got == None && items == []
      ensures old(items) != [] ==> got == Some(old(items)[0]) && items == old(items)[1..]
    {
      got := None;
      if |items| > 0 {
        var head := items[0];
        got, items := Some(head), items[1..];
        ShiftDown(0);
        if head.id in itemsIds && itemsIds[head.id] == TOMBSTONE {
          assert false;
        }
        itemsIds := itemsIds - {head.id};
      }
    }

    /** Cancel a queued item; the answer says whether it was still queued. */
    method Remove(id: string) returns (removed: bool)
      requires Valid()
      modifies `items, `itemsIds
      ensures Valid()
      ensures removed <==> Queued(old(items), id)
      ensures items == Without(old(items), id)
    {
      IndexIsPosition(items, itemsIds, id);
      hide Coherent, Queued, Shifted;
      var index := TOMBSTONE;
      if id in itemsIds {
        index := itemsIds[id];
        itemsIds := itemsIds[id := TOMBSTONE];
      }
      if index == TOMBSTONE {
        return false;
      }
      SliceDeletes(items, index);
      DeletedCoherent(items, index, items[..index] + items[index + 1..], old(itemsIds));
      items := items[..index] + items[index + 1..];
      ShiftDown(index);
      return true;
    }
  }
}
