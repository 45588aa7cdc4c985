/** The items a feeding service hands to ingest, and the filter that drops
    expired items and items of a content type the provider does not accept. */
module IngestFilter {
  import opened Base
  import opened IngestProvider

  /** A reference from a package (composite item) to another item.  Every
      field is a key that may be missing from the reference dict. */
  datatype Ref = Ref(
    residRef: Option<string>,
    guid: Option<string>,
    location: Option<string>,
    renditions: Option<map<string, string>>)

  /** An item as received from a feeding service.  `refs` lists the references
      of every group of a package, group after group. */
  datatype IngestDoc = IngestDoc(
    guid: string,
    itemType: Option<string>,
    expiry: Option<int>,
    versionCreated: Option<int>,
    id: Option<string>,
    renditions: Option<map<string, string>>,
    refs: seq<Ref>)

  /** `providerFilterExpiredContentError`, raised for whatever went wrong inside
      the filter. */
  datatype FilterError = FilterExpiredContentError

  /** The default of `item.get('expiry', item['versioncreated'] + delta)` is
      evaluated even when `expiry` is there, so an item with an expiry but no
      `versioncreated` raises. */
  predicate RaisesOnExpiry(item: IngestDoc) {
    item.expiry.Some? && item.versionCreated.None?
  }

  /** The expiry of an item: its own, else `versioncreated` plus the provider's
      content expiry (in minutes, `defaultMinutes` when the provider has none). */
  function ExpiryOf(item: IngestDoc, p: Provider, defaultMinutes: int): Option<int> {
    if item.expiry.Some? then item.expiry
    else if item.versionCreated.Some? then Some(item.versionCreated.value + 60 * p.contentExpiry.GetOr(defaultMinutes))
    else None
  }

  /** An item is kept when it has not expired and its type (default "text")
      is one of the provider's content types (none by default). */
  predicate Keep(item: IngestDoc, p: Provider, now: int, defaultMinutes: int) {
    && ExpiryOf(item, p, defaultMinutes).Some?
    && ExpiryOf(item, p, defaultMinutes).value > now
    && item.itemType.GetOr("text") in p.contentTypes.GetOr([])
  }

  /** The list comprehension of the filter. */
  function KeptItems(items: seq<IngestDoc>, p: Provider, now: int, defaultMinutes: int): seq<IngestDoc> {
    if items == [] then []
    else if Keep(items[0], p, now, defaultMinutes) then [items[0]] + KeptItems(items[1..], p, now, defaultMinutes)
    else KeptItems(items[1..], p, now, defaultMinutes)
  }

  lemma {:induction false} KeptItemsSubsequence(items: seq<IngestDoc>, p: Provider, now: int, defaultMinutes: int)
    ensures IsSubsequence(KeptItems(items, p, now, defaultMinutes), items)
  {
    if items != [] {
      var rest := items[1..];
      var kr := KeptItems(rest, p, now, defaultMinutes);
      KeptItemsSubsequence(rest, p, now, defaultMinutes);
      assert items == [items[0]] + rest;
      if Keep(items[0], p, now, defaultMinutes) {
        assert ([items[0]] + kr)[1..] == kr;
      } else {
        SubsequenceDropFront(kr, rest, items[0]);
      }
    }
  }

  lemma {:induction false} KeptItemsCount(items: seq<IngestDoc>, p: Provider, now: int, defaultMinutes: int)
    ensures var kept := KeptItems(items, p, now, defaultMinutes);
      forall x :: multiset(kept)[x] == if Keep(x, p, now, defaultMinutes) then multiset(items)[x] else 0
  {
    if items != [] {
      var rest := items[1..];
      KeptItemsCount(rest, p, now, defaultMinutes);
      assert items == [items[0]] + rest;
    }
  }

  lemma {:induction false} KeptItemsAll(items: seq<IngestDoc>, p: Provider, now: int, defaultMinutes: int)
    ensures |KeptItems(items, p, now, defaultMinutes)| == |items| <==>
      forall i :: 0 <= i < |items| ==> Keep(items[i], p, now, defaultMinutes)
    ensures |KeptItems(items, p, now, defaultMinutes)| <= |items|
  {
    if items != [] {
      var rest := items[1..];
      KeptItemsAll(rest, p, now, defaultMinutes);
      if forall i :: 0 <= i < |rest| ==> Keep(rest[i], p, now, defaultMinutes) {
        if Keep(items[0], p, now, defaultMinutes) {
          forall i | 0 <= i < |items| ensures Keep(items[i], p, now, defaultMinutes) {
            if i > 0 { assert items[i] == rest[i - 1]; }
          }
        }
      } else {
        var i :| 0 <= i < |rest| && !Keep(rest[i], p, now, defaultMinutes);
        assert items[i + 1] == rest[i];
      }
    }
  }

  /** `filter_expired_items`.  Errors: an item that raises while computing its
      expiry, or a provider without a `name` when something was dropped (the
      debug message formats `provider['name']`). */
  function FilterExpiredItems(p: Provider, items: seq<IngestDoc>, now: int, defaultMinutes: int): Result<seq<IngestDoc>, FilterError> {
    if exists i :: 0 <= i < |items| && RaisesOnExpiry(items[i]) then Err(FilterExpiredContentError)
    else
      var kept := KeptItems(items, p, now, defaultMinutes);
      if |kept| != |items| && p.name.None? then Err(FilterExpiredContentError)
      else Ok(kept)
  }

  /** The filter fails exactly in its two error cases; otherwise it returns a
      subsequence of its input holding exactly the items to keep, each as
      often as the input holds it. */
  lemma FilterExpiredItemsSpec(p: Provider, items: seq<IngestDoc>, now: int, defaultMinutes: int)
    ensures var r := FilterExpiredItems(p, items, now, defaultMinutes);
      r.Err? <==>
        || (exists i :: 0 <= i < |items| && RaisesOnExpiry(items[i]))
        || (p.name.None? && exists i :: 0 <= i < |items| && !Keep(items[i], p, now, defaultMinutes))
    ensures var r := FilterExpiredItems(p, items, now, defaultMinutes);
      r.Ok? ==>
        && IsSubsequence(r.value, items)
        && (forall x :: x in r.value ==> Keep(x, p, now, defaultMinutes))
        && (forall x :: Keep(x, p, now, defaultMinutes) ==> multiset(r.value)[x] == multiset(items)[x])
  {
    KeptItemsSubsequence(items, p, now, defaultMinutes);
    KeptItemsCount(items, p, now, defaultMinutes);
    KeptItemsAll(items, p, now, defaultMinutes);
    var kept := KeptItems(items, p, now, defaultMinutes);
    forall x | x in kept ensures Keep(x, p, now, defaultMinutes) {
      assert multiset(kept)[x] > 0;
    }
  }

  /** An item with neither `expiry` nor `versioncreated` never gets through. */
  lemma UndatedItemsDropped(p: Provider, items: seq<IngestDoc>, now: int, defaultMinutes: int, x: IngestDoc)
    requires x.expiry.None? && x.versionCreated.None?
    requires FilterExpiredItems(p, items, now, defaultMinutes).Ok?
    ensures x !in FilterExpiredItems(p, items, now, defaultMinutes).value
  {
    FilterExpiredItemsSpec(p, items, now, defaultMinutes);
  }
}
