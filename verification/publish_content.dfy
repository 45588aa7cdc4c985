/** Transmission of the publish queue: a batch run selects the due queue
    records, splits them into one batch per subscriber and dispatches one
    worker per batch; a worker marks each record in-progress, hands it to the
    transmitter and, on failure, books a retry or gives up. */
module PublishContent {
  import opened Base
  import opened Locks
  import opened PublishQueue

  /** Configuration read from the application settings. */
  datatype Config = Config(
    maxTransmitQueryLimit: Option<nat>,   // MAX_TRANSMIT_QUERY_LIMIT
    maxRetryAttempt: int,                 // MAX_TRANSMIT_RETRY_ATTEMPT
    retryDelayMinutes: int)               // TRANSMIT_RETRY_ATTEMPT_DELAY_MINUTES

  const DefaultQueryLimit: nat := 500

  function QueryLimit(cfg: Config): nat {
    cfg.maxTransmitQueryLimit.GetOr(DefaultQueryLimit)
  }

  // ---------------------------------------------------------------------------
  // Selection

  /** The store query of a batch run: pending, or retrying and due, and not a
      pull delivery (a missing delivery type is not "pull"). */
  predicate Eligible(q: QueueItem, now: int) {
    && (q.state == Pending
        || (q.state == Retrying && q.nextRetryAttemptAt.Some? && q.nextRetryAttemptAt.value <= now))
    && q.deliveryType != Some("pull")
  }

  function FilterEligible(rows: seq<QueueItem>, now: int): (r: seq<QueueItem>)
    ensures forall q :: q in r ==> Eligible(q, now)
    ensures forall q :: multiset(r)[q] == if Eligible(q, now) then multiset(rows)[q] else 0
  {
    if rows == [] then []
    else
      assert rows == [rows[0]] + rows[1..];
      (if Eligible(rows[0], now) then [rows[0]] else []) + FilterEligible(rows[1..], now)
  }

  /** The sort order of the query: `_created`, then `subscriber_id`, then
      `published_seq_num`, all ascending. */
  predicate KeyLe(a: QueueItem, b: QueueItem) {
    || a.created < b.created
    || (a.created == b.created && a.subscriberId < b.subscriberId)
    || (a.created == b.created && a.subscriberId == b.subscriberId && a.publishedSeqNum <= b.publishedSeqNum)
  }

  predicate SortedByKey(s: seq<QueueItem>) {
    forall i, j :: 0 <= i < j < |s| ==> KeyLe(s[i], s[j])
  }

  function InsertByKey(q: QueueItem, s: seq<QueueItem>): seq<QueueItem> {
    if s == [] then [q]
    else if KeyLe(q, s[0]) then [q] + s
    else [s[0]] + InsertByKey(q, s[1..])
  }

  function SortByKey(s: seq<QueueItem>): seq<QueueItem> {
    if s == [] then [] else InsertByKey(s[0], SortByKey(s[1..]))
  }

  function Take<T>(s: seq<T>, n: nat): seq<T> {
    if n < |s| then s[..n] else s
  }

  /** `get_queue_items`: the eligible records in sort order, at most `limit`. */
  function GetQueueItems(rows: seq<QueueItem>, now: int, limit: nat): seq<QueueItem> {
    Take(SortByKey(FilterEligible(rows, now)), limit)
  }

  lemma {:induction false} InsertByKeyMultiset(q: QueueItem, s: seq<QueueItem>)
    ensures multiset(InsertByKey(q, s)) == multiset(s) + multiset{q}
  {
    if s != [] && !KeyLe(q, s[0]) {
      InsertByKeyMultiset(q, s[1..]);
      assert s == [s[0]] + s[1..];
    }
  }

  lemma {:induction false} InsertByKeySorted(q: QueueItem, s: seq<QueueItem>)
    requires SortedByKey(s)
    ensures SortedByKey(InsertByKey(q, s))
  {
    if s != [] && !KeyLe(q, s[0]) {
      var t := InsertByKey(q, s[1..]);
      assert SortedByKey(s[1..]) by {
        forall i, j | 0 <= i < j < |s[1..]| ensures KeyLe(s[1..][i], s[1..][j]) {
          assert s[1..][i] == s[i + 1] && s[1..][j] == s[j + 1];
        }
      }
      InsertByKeySorted(q, s[1..]);
      InsertByKeyMultiset(q, s[1..]);
      assert KeyLe(s[0], q);
      forall x | x in t ensures KeyLe(s[0], x) {
        assert x in multiset(t);
        if x != q {
          assert x in multiset(s[1..]);
          var k :| 0 <= k < |s[1..]| && s[1..][k] == x;
          assert s[k + 1] == x;
        }
      }
      SortedCons(s[0], t);
    }
  }

  /** A record ordered before every record of a sorted list can head it. */
  lemma SortedCons(h: QueueItem, t: seq<QueueItem>)
    requires SortedByKey(t)
    requires forall x :: x in t ==> KeyLe(h, x)
    ensures SortedByKey([h] + t)
  {
    var r := [h] + t;
    forall i, j | 0 <= i < j < |r| ensures KeyLe(r[i], r[j]) {
      if i == 0 {
        assert r[j] == t[j - 1];
      } else {
        assert r[i] == t[i - 1] && r[j] == t[j - 1];
      }
    }
  }

  /** Sorting yields the same records, in sort order. */
  lemma {:induction false} SortByKeySpec(s: seq<QueueItem>)
    ensures SortedByKey(SortByKey(s))
    ensures multiset(SortByKey(s)) == multiset(s)
  {
    if s != [] {
      SortByKeySpec(s[1..]);
      InsertByKeySorted(s[0], SortByKey(s[1..]));
      InsertByKeyMultiset(s[0], SortByKey(s[1..]));
      assert s == [s[0]] + s[1..];
    }
  }

  /** What a batch run selects: only eligible records of the collection, in
      sort order, at most `limit` of them and as many as that bound and the
      eligible records allow, and every eligible record left out sorts no
      earlier than any selected one. */
  lemma GetQueueItemsSpec(rows: seq<QueueItem>, now: int, limit: nat)
    ensures var r := GetQueueItems(rows, now, limit);
      && |r| <= limit
      && (|r| == limit || multiset(r) == multiset(FilterEligible(rows, now)))
      && (forall q :: q in r ==> Eligible(q, now) && q in rows)
      && SortedByKey(r)
      && multiset(r) <= multiset(FilterEligible(rows, now))
      && (forall x, y :: x in r && y in multiset(FilterEligible(rows, now)) - multiset(r) ==> KeyLe(x, y))
  {
    var e := FilterEligible(rows, now);
    var s := SortByKey(e);
    SortByKeySpec(e);
    var n := if limit < |s| then limit else |s|;
    SortedSplit(s, n);
    var r := GetQueueItems(rows, now, limit);
    assert r == s[..n];
    assert multiset(e) - multiset(r) == multiset(s[n..]);
    SelectedFromEligible(rows, now, r);
  }

  /** Records drawn from the eligible ones are eligible rows. */
  lemma SelectedFromEligible(rows: seq<QueueItem>, now: int, r: seq<QueueItem>)
    requires multiset(r) <= multiset(FilterEligible(rows, now))
    ensures forall q :: q in r ==> Eligible(q, now) && q in rows
  {
    forall q | q in r ensures Eligible(q, now) && q in rows {
      assert multiset(FilterEligible(rows, now))[q] > 0;
    }
  }

  /** A sorted sequence cut in two: the front is sorted and sorts no later
      than anything in the back. */
  lemma {:induction false} SortedSplit(s: seq<QueueItem>, n: nat)
    requires SortedByKey(s) && n <= |s|
    ensures SortedByKey(s[..n])
    ensures multiset(s) == multiset(s[..n]) + multiset(s[n..])
    ensures forall x, y :: x in s[..n] && y in multiset(s[n..]) ==> KeyLe(x, y)
  {
    assert s == s[..n] + s[n..];
    forall x, y | x in s[..n] && y in multiset(s[n..]) ensures KeyLe(x, y) {
      assert y in s[n..];
      var j :| 0 <= j < |s[n..]| && s[n..][j] == y;
      var i :| 0 <= i < n && s[..n][i] == x;
      assert s[i] == x && s[n + j] == y;
    }
  }

  // ---------------------------------------------------------------------------
  // Partitioning

  /** The records of one subscriber, in input order (the list comprehension
      of `transmit_items`). */
  function ForSubscriber(items: seq<QueueItem>, s: SubscriberId): seq<QueueItem> {
    if items == [] then []
    else (if items[0].subscriberId == s then [items[0]] else []) + ForSubscriber(items[1..], s)
  }

  /** A subscriber's batch holds exactly that subscriber's records, each as
      often as the input does, and in input order. */
  lemma {:induction false} ForSubscriberSpec(items: seq<QueueItem>, s: SubscriberId)
    ensures forall q :: q in ForSubscriber(items, s) ==> q.subscriberId == s
    ensures forall q :: multiset(ForSubscriber(items, s))[q] == if q.subscriberId == s then multiset(items)[q] else 0
    ensures IsSubsequence(ForSubscriber(items, s), items)
  {
    if items != [] {
      var rest := ForSubscriber(items[1..], s);
      ForSubscriberSpec(items[1..], s);
      assert items == [items[0]] + items[1..];
      assert multiset(items) == multiset{items[0]} + multiset(items[1..]);
      if items[0].subscriberId == s {
        assert ForSubscriber(items, s) == [items[0]] + rest;
        assert ([items[0]] + rest)[1..] == rest;
      } else {
        assert ForSubscriber(items, s) == rest;
        SubsequenceDropFront(rest, items[1..], items[0]);
      }
    }
  }

  function SubscribersOf(items: seq<QueueItem>): set<SubscriberId> {
    set q | q in items :: q.subscriberId
  }

  /** One worker task handed to the task queue. */
  datatype Dispatch = Dispatch(subscriber: SubscriberId, queueItems: seq<QueueItem>)

  /** The subscriber of each dispatched batch, in dispatch order. */
  function Subscribers(d: seq<Dispatch>): (r: seq<SubscriberId>)
    ensures |r| == |d|
    ensures forall i :: 0 <= i < |d| ==> r[i] == d[i].subscriber
  {
    if d == [] then [] else [d[0].subscriber] + Subscribers(d[1..])
  }

  /** `d` is one batch per distinct subscriber of `items`, each batch being
      exactly that subscriber's records in input order. */
  ghost predicate OneBatchPerSubscriber(d: seq<Dispatch>, items: seq<QueueItem>) {
    && (forall i, j :: 0 <= i < j < |d| ==> d[i].subscriber != d[j].subscriber)
    && (forall s :: s in SubscribersOf(items) <==> s in Subscribers(d))
    && (forall i :: 0 <= i < |d| ==> d[i].queueItems == ForSubscriber(items, d[i].subscriber))
  }

  /** `transmit_items`: the distinct subscribers are visited in an unspecified
      (set iteration) order and one batch is dispatched for each. */
  method TransmitItems(queueItems: seq<QueueItem>) returns (dispatched: seq<Dispatch>)
    ensures OneBatchPerSubscriber(dispatched, queueItems)
    ensures |dispatched| == |SubscribersOf(queueItems)|
  {
    var subscribers := SubscribersOf(queueItems);
    var remaining := subscribers;
    dispatched := [];
    while remaining != {}
      invariant DispatchedSoFar(dispatched, queueItems, subscribers, remaining)
      decreases remaining
    {
      var subscriber :| subscriber in remaining;
      DispatchStep(dispatched, queueItems, subscribers, remaining, subscriber);
      dispatched := dispatched + [Dispatch(subscriber, ForSubscriber(queueItems, subscriber))];
      remaining := remaining - {subscriber};
    }
    assert subscribers - remaining == subscribers;
  }

  /** The loop of `transmit_items` after dispatching the subscribers of
      `subscribers` that are no longer `remaining`. */
  ghost predicate DispatchedSoFar(d: seq<Dispatch>, items: seq<QueueItem>, subscribers: set<SubscriberId>, remaining: set<SubscriberId>) {
    && remaining <= subscribers
    && |d| + |remaining| == |subscribers|
    && (forall i, j :: 0 <= i < j < |d| ==> d[i].subscriber != d[j].subscriber)
    && (forall s :: s in subscribers - remaining <==> s in Subscribers(d))
    && (forall i :: 0 <= i < |d| ==> d[i].queueItems == ForSubscriber(items, d[i].subscriber))
  }

  lemma DispatchStep(d: seq<Dispatch>, items: seq<QueueItem>, subscribers: set<SubscriberId>, remaining: set<SubscriberId>, s: SubscriberId)
    requires DispatchedSoFar(d, items, subscribers, remaining) && s in remaining
    ensures DispatchedSoFar(d + [Dispatch(s, ForSubscriber(items, s))], items, subscribers, remaining - {s})
  {
    var b := Dispatch(s, ForSubscriber(items, s));
    var d' := d + [b];
    assert s !in Subscribers(d);
    DispatchAnother(d, b);
    assert |remaining - {s}| == |remaining| - 1;
    forall t ensures t in subscribers - (remaining - {s}) <==> t in Subscribers(d') {
      assert t in Subscribers(d') <==> t in Subscribers(d) || t == s;
    }
    forall i | 0 <= i < |d'| ensures d'[i].queueItems == ForSubscriber(items, d'[i].subscriber) {
      if i < |d| {
        assert d'[i] == d[i];
      }
    }
  }

  /** A batch for a subscriber not dispatched yet keeps the subscribers
      distinct and joins the list of subscribers at its end. */
  lemma DispatchAnother(d: seq<Dispatch>, b: Dispatch)
    requires forall i, j :: 0 <= i < j < |d| ==> d[i].subscriber != d[j].subscriber
    requires b.subscriber !in Subscribers(d)
    ensures forall i, j :: 0 <= i < j < |d + [b]| ==> (d + [b])[i].subscriber != (d + [b])[j].subscriber
    ensures Subscribers(d + [b]) == Subscribers(d) + [b.subscriber]
  {
    forall i | 0 <= i < |d| ensures d[i].subscriber != b.subscriber {
      assert Subscribers(d)[i] in Subscribers(d);
    }
  }

  function Flatten(d: seq<Dispatch>): seq<QueueItem> {
    if d == [] then [] else d[0].queueItems + Flatten(d[1..])
  }

  function CountFor(d: seq<Dispatch>, s: SubscriberId): nat {
    if d == [] then 0 else (if d[0].subscriber == s then 1 else 0) + CountFor(d[1..], s)
  }

  lemma {:induction false} FlattenCount(d: seq<Dispatch>, items: seq<QueueItem>, x: QueueItem)
    requires forall i :: 0 <= i < |d| ==> d[i].queueItems == ForSubscriber(items, d[i].subscriber)
    ensures CountFor(d, x.subscriberId) == 0 ==> multiset(Flatten(d))[x] == 0
    ensures CountFor(d, x.subscriberId) == 1 ==> multiset(Flatten(d))[x] == multiset(items)[x]
  {
    if d != [] {
      FlattenCount(d[1..], items, x);
      ForSubscriberSpec(items, d[0].subscriber);
      assert multiset(Flatten(d)) == multiset(d[0].queueItems) + multiset(Flatten(d[1..]));
    }
  }

  lemma {:induction false} CountForDistinct(d: seq<Dispatch>, s: SubscriberId)
    requires forall i, j :: 0 <= i < j < |d| ==> d[i].subscriber != d[j].subscriber
    ensures CountFor(d, s) == if s in Subscribers(d) then 1 else 0
  {
    if d != [] {
      CountForDistinct(d[1..], s);
    }
  }

  /** The dispatched batches partition the selected records: together they
      hold every record exactly as often as the selection does. */
  lemma BatchesPartition(d: seq<Dispatch>, items: seq<QueueItem>)
    requires OneBatchPerSubscriber(d, items)
    ensures multiset(Flatten(d)) == multiset(items)
  {
    forall x ensures multiset(Flatten(d))[x] == multiset(items)[x] {
      FlattenCount(d, items, x);
      CountForDistinct(d, x.subscriberId);
      if x in items {
        assert x.subscriberId in SubscribersOf(items);
      }
    }
  }

  /** Each selected record lands in exactly one batch, the one of its subscriber. */
  lemma RecordInOneBatch(d: seq<Dispatch>, items: seq<QueueItem>, q: QueueItem)
    requires OneBatchPerSubscriber(d, items)
    requires q in items
    ensures exists k :: 0 <= k < |d| && d[k].subscriber == q.subscriberId && q in d[k].queueItems
    ensures forall i :: 0 <= i < |d| && q in d[i].queueItems ==> d[i].subscriber == q.subscriberId
  {
    assert q.subscriberId in SubscribersOf(items);
    var k :| 0 <= k < |d| && Subscribers(d)[k] == q.subscriberId;
    ForSubscriberSpec(items, q.subscriberId);
    forall i | 0 <= i < |d| && q in d[i].queueItems ensures d[i].subscriber == q.subscriberId {
      ForSubscriberSpec(items, d[i].subscriber);
    }
    assert multiset(d[k].queueItems)[q] > 0;
  }

  // ---------------------------------------------------------------------------
  // Subscriber worker

  /** What the outside world does with one record during a worker run: whether
      the in-progress write is accepted by the store, whether the transmitter
      returns normally, and whether the failure bookkeeping write is accepted. */
  datatype Attempt = Attempt(started: bool, delivered: bool, recorded: bool)

  /** The fields the worker formats into its log line before the `try`. */
  predicate Loggable(q: QueueItem) {
    q.itemId.Some? && q.itemVersion.Some? && q.headline.Some?
  }

  /** Length of the longest prefix of records the log line can be built for. */
  function LoggablePrefix(batch: seq<QueueItem>): (n: nat)
    ensures n <= |batch|
    ensures forall i :: 0 <= i < n ==> Loggable(batch[i])
    ensures n < |batch| ==> !Loggable(batch[n])
  {
    if batch == [] || !Loggable(batch[0]) then 0 else 1 + LoggablePrefix(batch[1..])
  }

  /** The in-progress patch: `state` and `transmit_started_at`. */
  function StartTransmit(q: QueueItem, now: int): QueueItem {
    q.(state := InProgress, transmitStartedAt := Some(now))
  }

  /** The failure bookkeeping applied to the freshly read stored record. */
  function AfterFailure(orig: QueueItem, now: int, cfg: Config): QueueItem {
    var r := RetryCount(orig);
    if r < cfg.maxRetryAttempt then
      orig.(lastUpdated := Some(now), retryAttempt := Some(r + 1), state := Retrying,
            nextRetryAttemptAt := Some(now + 60 * cfg.retryDelayMinutes))
    else
      orig.(lastUpdated := Some(now), state := Failed)
  }

  /** The store after the worker has handled record `q`. */
  function Step(items: map<Id, QueueItem>, q: QueueItem, now: int, cfg: Config, att: Attempt): map<Id, QueueItem> {
    var started := att.started && q.id in items;
    var items1 := if started then items[q.id := StartTransmit(items[q.id], now)] else items;
    if started && att.delivered then items1
    else if q.id in items1 && att.recorded then items1[q.id := AfterFailure(items1[q.id], now, cfg)]
    else items1
  }

  /** The store after the worker has handled `batch` in order. */
  function ProcessBatch(items: map<Id, QueueItem>, batch: seq<QueueItem>, now: int, cfg: Config,
                        outcome: Id -> Attempt): map<Id, QueueItem>
  {
    if batch == [] then items
    else
      var last := batch[|batch| - 1];
      Step(ProcessBatch(items, batch[..|batch| - 1], now, cfg, outcome), last, now, cfg, outcome(last.id))
  }

  /** The records handed to the transmitter, in call order. */
  function TransmitCalls(keys: set<Id>, batch: seq<QueueItem>, outcome: Id -> Attempt): seq<Id> {
    if batch == [] then []
    else
      var last := batch[|batch| - 1];
      TransmitCalls(keys, batch[..|batch| - 1], outcome)
        + (if outcome(last.id).started && last.id in keys then [last.id] else [])
  }

  lemma {:induction false} ProcessBatchKeys(items: map<Id, QueueItem>, batch: seq<QueueItem>, now: int, cfg: Config,
                                            outcome: Id -> Attempt)
    ensures ProcessBatch(items, batch, now, cfg, outcome).Keys == items.Keys
    ensures forall k :: k in items ==> ProcessBatch(items, batch, now, cfg, outcome)[k].id == items[k].id
  {
    if batch != [] {
      ProcessBatchKeys(items, batch[..|batch| - 1], now, cfg, outcome);
    }
  }

  /** The ids of a batch, in batch order. */
  function Ids(batch: seq<QueueItem>): (r: seq<Id>)
    ensures |r| == |batch|
    ensures forall i :: 0 <= i < |batch| ==> r[i] == batch[i].id
  {
    if batch == [] then [] else Ids(batch[..|batch| - 1]) + [batch[|batch| - 1].id]
  }

  /** The transmitter is called in batch order, once for every record whose
      in-progress write was accepted, and for no other record. */
  lemma {:induction false} TransmitCallsInBatchOrder(keys: set<Id>, batch: seq<QueueItem>, outcome: Id -> Attempt)
    ensures IsSubsequence(TransmitCalls(keys, batch, outcome), Ids(batch))
    ensures forall k :: k in TransmitCalls(keys, batch, outcome) <==>
              (exists q :: q in batch && q.id == k && outcome(k).started && k in keys)
  {
    if batch != [] {
      var init, last := batch[..|batch| - 1], batch[|batch| - 1];
      assert batch == init + [last];
      TransmitCallsInBatchOrder(keys, init, outcome);
      var calls := TransmitCalls(keys, init, outcome);
      assert Ids(batch) == Ids(init) + [last.id];
      SubsequenceSnoc(calls, Ids(init), last.id);
      if outcome(last.id).started && last.id in keys {
        assert TransmitCalls(keys, batch, outcome) == calls + [last.id];
      } else {
        assert TransmitCalls(keys, batch, outcome) == calls;
      }
      forall k | k in TransmitCalls(keys, batch, outcome)
        ensures exists q :: q in batch && q.id == k && outcome(k).started && k in keys
      {
        if k in calls {
          var q :| q in init && q.id == k && outcome(k).started && k in keys;
          assert q in batch;
        } else {
          assert last in batch && last.id == k;
        }
      }
      forall k | (exists q :: q in batch && q.id == k && outcome(k).started && k in keys)
        ensures k in TransmitCalls(keys, batch, outcome)
      {
        var q :| q in batch && q.id == k && outcome(k).started && k in keys;
        if q != last {
          assert q in init;
        }
      }
    }
  }

  /** A record the batch does not name is left exactly as it was. */
  lemma {:induction false} ProcessBatchFrame(items: map<Id, QueueItem>, batch: seq<QueueItem>, now: int, cfg: Config,
                                             outcome: Id -> Attempt, k: Id)
    requires k in items
    requires forall q :: q in batch ==> q.id != k
    ensures k in ProcessBatch(items, batch, now, cfg, outcome)
    ensures ProcessBatch(items, batch, now, cfg, outcome)[k] == items[k]
  {
    if batch != [] {
      assert forall q :: q in batch[..|batch| - 1] ==> q in batch;
      ProcessBatchFrame(items, batch[..|batch| - 1], now, cfg, outcome, k);
    }
  }

  /** A worker never takes `retry_attempt` beyond the configured maximum when
      every stored record starts within it. */
  lemma {:induction false} ProcessBatchRetryBound(items: map<Id, QueueItem>, batch: seq<QueueItem>, now: int,
                                                  cfg: Config, outcome: Id -> Attempt)
    requires forall k :: k in items ==> RetryCount(items[k]) <= cfg.maxRetryAttempt
    ensures forall k :: k in ProcessBatch(items, batch, now, cfg, outcome) ==>
              RetryCount(ProcessBatch(items, batch, now, cfg, outcome)[k]) <= cfg.maxRetryAttempt
  {
    if batch != [] {
      ProcessBatchRetryBound(items, batch[..|batch| - 1], now, cfg, outcome);
    }
  }

  /** Every record a worker changes ends in-progress, retrying or failed. */
  lemma {:induction false} ProcessBatchTouchedStates(items: map<Id, QueueItem>, batch: seq<QueueItem>, now: int,
                                                     cfg: Config, outcome: Id -> Attempt)
    ensures forall k ::
              (k in items && k in ProcessBatch(items, batch, now, cfg, outcome)
               && ProcessBatch(items, batch, now, cfg, outcome)[k] != items[k]) ==>
              ProcessBatch(items, batch, now, cfg, outcome)[k].state in {InProgress, Retrying, Failed}
  {
    if batch != [] {
      ProcessBatchTouchedStates(items, batch[..|batch| - 1], now, cfg, outcome);
    }
  }

  /** The fate of one record, in terms of the stored record before the step:
      in-progress with the start time before the transmitter is called; on
      success nothing more; on failure, and when the bookkeeping write goes
      through, one more retry due `retry_delay` minutes later while the stored
      count is below the maximum, and `failed` otherwise. */
  lemma StepOutcome(items: map<Id, QueueItem>, q: QueueItem, now: int, cfg: Config, att: Attempt)
    requires q.id in items
    ensures var r := Step(items, q, now, cfg, att)[q.id]; var stored := items[q.id];
      && r.id == stored.id && r.subscriberId == stored.subscriberId && r.created == stored.created
      && (att.started && att.delivered ==>
            r.state == InProgress && r.transmitStartedAt == Some(now)
            && r.retryAttempt == stored.retryAttempt && r.lastUpdated == stored.lastUpdated
            && r.nextRetryAttemptAt == stored.nextRetryAttemptAt)
      && (!(att.started && att.delivered) && att.recorded ==> r.lastUpdated == Some(now))
      && (!(att.started && att.delivered) && att.recorded && RetryCount(stored) < cfg.maxRetryAttempt ==>
            r.state == Retrying && RetryCount(r) == RetryCount(stored) + 1
            && r.nextRetryAttemptAt == Some(now + 60 * cfg.retryDelayMinutes))
      && (!(att.started && att.delivered) && att.recorded && RetryCount(stored) >= cfg.maxRetryAttempt ==>
            r.state == Failed && r.retryAttempt == stored.retryAttempt)
      && (!(att.started && att.delivered) && !att.recorded ==>
            r.state == (if att.started then InProgress else stored.state) && r.retryAttempt == stored.retryAttempt)
  {
  }

  /** The stored record after consecutive failed attempts at the given times
      (each attempt: in-progress write accepted, transmitter raises,
      bookkeeping write accepted). */
  function FailedAttempts(q: QueueItem, times: seq<int>, cfg: Config): (r: QueueItem)
    ensures r.id == q.id
  {
    if times == [] then q
    else
      var p := FailedAttempts(q, times[..|times| - 1], cfg);
      Step(map[p.id := p], p, times[|times| - 1], cfg, Attempt(true, false, true))[p.id]
  }

  /** Retry exhaustion: starting from no recorded retries, each of the first
      `max` failures books one more retry, and every later one marks the
      record failed; the count settles at `max`. */
  lemma {:induction false} RetryExhaustion(q: QueueItem, times: seq<int>, cfg: Config)
    requires RetryCount(q) == 0 && cfg.maxRetryAttempt >= 0
    requires |times| > 0
    ensures var r := FailedAttempts(q, times, cfg);
      && (|times| <= cfg.maxRetryAttempt ==>
            r.state == Retrying && RetryCount(r) == |times|
            && r.nextRetryAttemptAt == Some(times[|times| - 1] + 60 * cfg.retryDelayMinutes))
      && (|times| > cfg.maxRetryAttempt ==> r.state == Failed && RetryCount(r) == cfg.maxRetryAttempt)
  {
    var init, t := times[..|times| - 1], times[|times| - 1];
    if |init| > 0 {
      RetryExhaustion(q, init, cfg);
    }
    var p := FailedAttempts(q, init, cfg);
    StepOutcome(map[p.id := p], p, t, cfg, Attempt(true, false, true));
  }

  /** The three-record run: subscriber S has records 1, 2 and 3 pending, the
      transmitter fails on record 2 only.  All three are handed to the
      transmitter in order; 1 and 3 stay in-progress (this code writes nothing
      on success), 2 is retrying with one attempt booked. */
  lemma ThreeRecordRun(template: QueueItem, now: int, cfg: Config)
    requires cfg.maxRetryAttempt > 0
    ensures
      var q1 := template.(id := 1, state := Pending, retryAttempt := None);
      var q2 := template.(id := 2, state := Pending, retryAttempt := None);
      var q3 := template.(id := 3, state := Pending, retryAttempt := None);
      var outcome := (k: Id) => if k == 2 then Attempt(true, false, true) else Attempt(true, true, true);
      var items := map[1 := q1, 2 := q2, 3 := q3];
      var r := ProcessBatch(items, [q1, q2, q3], now, cfg, outcome);
      && 1 in r && 2 in r && 3 in r
      && TransmitCalls(items.Keys, [q1, q2, q3], outcome) == [1, 2, 3]
      && r[1].state == InProgress && r[3].state == InProgress
      && r[2].state == Retrying && r[2].retryAttempt == Some(1)
      && r[2].nextRetryAttemptAt == Some(now + 60 * cfg.retryDelayMinutes)
  {
    var q1 := template.(id := 1, state := Pending, retryAttempt := None);
    var q2 := template.(id := 2, state := Pending, retryAttempt := None);
    var q3 := template.(id := 3, state := Pending, retryAttempt := None);
    var outcome := (k: Id) => if k == 2 then Attempt(true, false, true) else Attempt(true, true, true);
    var items := map[1 := q1, 2 := q2, 3 := q3];
    var batch := [q1, q2, q3];
    assert batch[..2] == [q1, q2] && [q1, q2][..1] == [q1] && [q1][..0] == [];
    var r1 := Step(items, q1, now, cfg, outcome(1));
    assert ProcessBatch(items, [q1], now, cfg, outcome) == r1;
    var r2 := Step(r1, q2, now, cfg, outcome(2));
    assert ProcessBatch(items, [q1, q2], now, cfg, outcome) == r2;
    var r3 := Step(r2, q3, now, cfg, outcome(3));
    assert ProcessBatch(items, batch, now, cfg, outcome) == r3;
    assert r3[1] == r1[1] && r1[1].state == InProgress;
    assert r3[2] == r2[2] && r2[2].state == Retrying;
    assert TransmitCalls(items.Keys, [q1], outcome) == [1];
    assert TransmitCalls(items.Keys, [q1, q2], outcome) == [1, 2];
  }

  /** `transmit_subscriber_items`.  Without the subscriber lock nothing is
      touched.  With it, records are handled strictly in batch order; a record
      whose log line cannot be built ends the task with the lock still held,
      otherwise the lock is released after the loop. */
  method TransmitSubscriberItems(store: QueueStore, locks: LockService, queueItems: seq<QueueItem>,
                                 subscriber: SubscriberId, now: int, cfg: Config, outcome: Id -> Attempt)
    returns (locked: bool, transmitted: seq<Id>, aborted: bool)
    requires store.Valid()
    modifies store, locks
    ensures store.Valid() && store.order == old(store.order)
    ensures locked == (SubscriberTransmit(subscriber) !in old(locks.held))
    ensures !locked ==> store.items == old(store.items) && transmitted == [] && !aborted
                        && locks.held == old(locks.held)
    ensures locked ==>
      var n := LoggablePrefix(queueItems);
      && aborted == (n < |queueItems|)
      && store.items == ProcessBatch(old(store.items), queueItems[..n], now, cfg, outcome)
      && transmitted == TransmitCalls(old(store.items).Keys, queueItems[..n], outcome)
      && locks.held == if aborted then old(locks.held) + {SubscriberTransmit(subscriber)} else old(locks.held)
  {
    var lockName := SubscriberTransmit(subscriber);
    locked := locks.TryLock(lockName);
    transmitted, aborted := [], false;
    if !locked {
      return;
    }
    transmitted, aborted := TransmitBatch(store, queueItems, now, cfg, outcome);
    if !aborted {
      locks.Unlock(lockName);
    }
  }

  /** The worker loop of `transmit_subscriber_items`, run under the lock:
      records are handled in batch order until one whose log line cannot be
      built. */
  method TransmitBatch(store: QueueStore, queueItems: seq<QueueItem>, now: int, cfg: Config, outcome: Id -> Attempt)
    returns (transmitted: seq<Id>, aborted: bool)
    requires store.Valid()
    modifies store
    ensures store.Valid() && store.order == old(store.order)
    ensures var n := LoggablePrefix(queueItems);
      && aborted == (n < |queueItems|)
      && store.items == ProcessBatch(old(store.items), queueItems[..n], now, cfg, outcome)
      && transmitted == TransmitCalls(old(store.items).Keys, queueItems[..n], outcome)
  {
    transmitted, aborted := [], false;
    ghost var items0 := store.items;
    var i := 0;
    while i < |queueItems|
      invariant 0 <= i <= |queueItems|
      invariant forall j :: 0 <= j < i ==> Loggable(queueItems[j])
      invariant store.Valid() && store.order == old(store.order)
      invariant store.items == ProcessBatch(items0, queueItems[..i], now, cfg, outcome)
      invariant transmitted == TransmitCalls(items0.Keys, queueItems[..i], outcome)
    {
      var queueItem := queueItems[i];
      if !Loggable(queueItem) {
        // building the log line raises before the try: the task ends here
        LoggablePrefixAt(queueItems, i);
        aborted := true;
        return;
      }
      ghost var done := queueItems[..i + 1];
      assert done[..i] == queueItems[..i] && done[i] == queueItem;
      ProcessBatchKeys(items0, queueItems[..i], now, cfg, outcome);
      var started := TransmitOne(store, queueItem, now, cfg, outcome(queueItem.id));
      assert store.items == ProcessBatch(items0, done, now, cfg, outcome);
      if started {
        transmitted := transmitted + [queueItem.id];
      }
      assert transmitted == TransmitCalls(items0.Keys, done, outcome);
      i := i + 1;
    }
    LoggablePrefixAt(queueItems, i);
    assert queueItems[..i] == queueItems;
  }

  /** The loggable prefix ends at the first record whose log line cannot be
      built. */
  lemma LoggablePrefixAt(batch: seq<QueueItem>, i: nat)
    requires i <= |batch| && forall j :: 0 <= j < i ==> Loggable(batch[j])
    requires i < |batch| ==> !Loggable(batch[i])
    ensures LoggablePrefix(batch) == i
  {
  }

  /** One record of the worker loop: the in-progress patch and the transmit
      and, when either fails, the retry bookkeeping written over the freshly
      read stored record. */
  method TransmitOne(store: QueueStore, q: QueueItem, now: int, cfg: Config, att: Attempt) returns (started: bool)
    requires store.Valid()
    modifies store
    ensures store.Valid() && store.order == old(store.order)
    ensures started == (att.started && q.id in old(store.items))
    ensures store.items == Step(old(store.items), q, now, cfg, att)
  {
    started := false;
    if att.started {
      var current := store.FindOne(q.id);
      if current.Some? {
        started := store.Update(q.id, StartTransmit(current.value, now));
      }
    }
    if !(started && att.delivered) {
      // failure path: re-read the stored record and book the retry
      var orig := store.FindOne(q.id);
      if orig.Some? && att.recorded {
        var written := store.Update(q.id, AfterFailure(orig.value, now, cfg));
      }
    }
  }

  // ---------------------------------------------------------------------------
  // Batch run

  /** `publish`: without the global lock nothing happens; with it, the due
      records are selected and partitioned, and the lock is released again. */
  method Publish(store: QueueStore, locks: LockService, now: int, cfg: Config)
    returns (ran: bool, dispatched: seq<Dispatch>)
    requires store.Valid()
    modifies locks
    ensures ran == (TransmitArticles !in old(locks.held))
    ensures locks.held == old(locks.held)
    ensures !ran ==> dispatched == []
    ensures ran ==> OneBatchPerSubscriber(dispatched, GetQueueItems(store.Rows(), now, QueryLimit(cfg)))
  {
    ran := locks.TryLock(TransmitArticles);
    dispatched := [];
    if !ran {
      return;
    }
    var items := GetQueueItems(store.Rows(), now, QueryLimit(cfg));
    if |items| > 0 {
      dispatched := TransmitItems(items);
    }
    locks.Unlock(TransmitArticles);
  }
}
