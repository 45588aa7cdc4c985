/** The publish queue: one record per outbound delivery of an item to a
    subscriber, and the store that holds them, keyed by `_id`. */
module PublishQueue {
  import opened Base
  import opened Locks

  type Id = nat

  /** The queue states a delivery goes through. */
  datatype QueueState = Pending | InProgress | Retrying | Success | Failed | Canceled

  /** One queue record.  Fields the source reads with `.get` or formats into
      a log line and that may be missing are optional. */
  datatype QueueItem = QueueItem(
    id: Id,
    itemId: Option<string>,
    itemVersion: Option<int>,
    headline: Option<string>,
    subscriberId: SubscriberId,
    deliveryType: Option<string>,
    state: QueueState,
    created: int,
    publishedSeqNum: int,
    retryAttempt: Option<int>,
    nextRetryAttemptAt: Option<int>,
    transmitStartedAt: Option<int>,
    lastUpdated: Option<int>)

  /** `retry_attempt`, counting a missing value as 0. */
  function RetryCount(q: QueueItem): int {
    q.retryAttempt.GetOr(0)
  }

  /** The records listed in the storage order `order`. */
  function RowsOf(items: map<Id, QueueItem>, order: seq<Id>): (rows: seq<QueueItem>)
    requires forall k :: k in order ==> k in items
    ensures |rows| == |order|
    ensures forall i :: 0 <= i < |order| ==> rows[i] == items[order[i]]
  {
    if order == [] then [] else [items[order[0]]] + RowsOf(items, order[1..])
  }

  /** The queue collection.  `items` is the store keyed by `_id`; `order` is
      the natural (storage) order in which a query scans the collection. */
  class QueueStore {
    var items: map<Id, QueueItem>
    var order: seq<Id>

    ghost predicate Valid()
      reads this
    {
      && (forall i, j :: 0 <= i < j < |order| ==> order[i] != order[j])
      && (forall k :: k in items <==> k in order)
      && (forall k :: k in items ==> items[k].id == k)
    }

    constructor ()
      ensures Valid() && items == map[] && order == []
    {
      items := map[];
      order := [];
    }

    /** Every record of the collection, in storage order. */
    function Rows(): (rows: seq<QueueItem>)
      reads this
      requires Valid()
      ensures |rows| == |items| == |order|
      ensures forall i :: 0 <= i < |order| ==> rows[i] == items[order[i]]
      ensures forall k :: k in items ==> items[k] in rows
    {
      KeysAreOrder(items.Keys, order);
      RowsOf(items, order)
    }

    /** `find_one(_id=id)`: the stored record, or nothing. */
    method FindOne(id: Id) returns (r: Option<QueueItem>)
      requires Valid()
      ensures r == if id in items then Some(items[id]) else None
    {
      r := if id in items then Some(items[id]) else None;
    }

    /** `patch` / `system_update`: replace the stored record by its updated
        version; a record that is not in the store cannot be updated. */
    method Update(id: Id, q: QueueItem) returns (ok: bool)
      requires Valid() && q.id == id
      modifies this
      ensures Valid()
      ensures ok == (id in old(items))
      ensures items == if ok then old(items)[id := q] else old(items)
      ensures order == old(order)
    {
      ok := id in items;
      if ok {
        items := items[id := q];
      }
    }
  }

  /** A duplicate-free listing of a key set has as many entries as the set. */
  lemma {:induction false} KeysAreOrder(keys: set<Id>, order: seq<Id>)
    requires forall i, j :: 0 <= i < j < |order| ==> order[i] != order[j]
    requires forall k :: k in keys <==> k in order
    ensures |keys| == |order|
    decreases |order|
  {
    if order != [] {
      var rest := order[1..];
      assert forall k :: k in keys - {order[0]} <==> k in rest;
      KeysAreOrder(keys - {order[0]}, rest);
    }
  }
}
