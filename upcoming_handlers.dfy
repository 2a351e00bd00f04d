/** The upcoming-events handlers: `updateUpcoming` mirrors every new or changed
    event of the all-events stream into the upcoming table, and `cleanupUpcoming`
    deletes the events that started before today in batches of 25. */
module UpcomingHandlers {
  import opened Common
  import opened JsText
  import opened DynamoDb
  import opened Events
  import opened Streams
  import opened UpcomingStorage

  // ---------------------------------------------------------------- updateUpcoming

  /** What `saveEvent(event)` (past events not saved) does to the stored items. */
  function SaveUpcoming(items: map<string, Item>, clock: Clock, e: Event): (o: Outcome)
    ensures o.result.Ok? ==> o.items.Keys - {e.url} == items.Keys - {e.url}
    ensures o.result.Ok? ==> (e.url in o.items <==> !HasStarted(clock, e))
    ensures o.result.Err? ==> o.items == items
  {
    if HasStarted(clock, e) then
      if e.url == "" then Outcome(Err("ValidationException"), items) else Outcome(Ok(()), items - {e.url})
    else
      var item := EncodeUpcoming(Project(WithUniquePeople(e)), TtlFor(clock, e, false));
      if Storable(item) then Outcome(Ok(()), items[e.url := item]) else Outcome(Err("ValidationException"), items)
  }

  /** The save loop from the `k`-th event on; a failed save ends the handler. */
  function SaveAllFrom(items: map<string, Item>, events: seq<Event>, k: nat, clock: Clock): Outcome
    decreases |events| - k
  {
    if k >= |events| then Outcome(Ok(()), items)
    else
      var o := SaveUpcoming(items, clock, events[k]);
      if o.result.Err? then o else SaveAllFrom(o.items, events, k + 1, clock)
  }

  /** `updateUpcoming`: saves the new image of every kept stream record, in order. */
  method UpdateUpcoming(table: Table, clock: Clock, records: seq<StreamRecord>) returns (r: Result<string>)
    modifies table
    ensures var o := SaveAllFrom(old(table.items), NewEvents(records), 0, clock);
      table.items == o.items && (o.result.Ok? ==> r == Ok("debug")) && (o.result.Err? ==> r == Err(o.result.message))
  {
    var events := NewEvents(records);
    var i := 0;
    while i < |events|
      invariant 0 <= i <= |events|
      invariant SaveAllFrom(table.items, events, i, clock) == SaveAllFrom(old(table.items), events, 0, clock)
    {
      var _, saved := SaveEvent(table, clock, events[i], false);
      EncodeUpcomingStorable(Project(WithUniquePeople(events[i])), TtlFor(clock, events[i], false));
      if saved.Err? {
        return Err(saved.message);
      }
      i := i + 1;
    }
    return Ok("debug");
  }

  /** Only the saved events' urls change: every other stored item is untouched. */
  lemma {:induction false} OtherItemsUntouched(items: map<string, Item>, events: seq<Event>, k: nat, clock: Clock, url: string)
    requires forall i :: k <= i < |events| ==> events[i].url != url
    ensures var o := SaveAllFrom(items, events, k, clock);
      (url in o.items <==> url in items) && (url in items ==> o.items[url] == items[url])
    decreases |events| - k
  {
    if k < |events| {
      var o := SaveUpcoming(items, clock, events[k]);
      if o.result.Ok? {
        assert url in o.items <==> url in items;
        OtherItemsUntouched(o.items, events, k + 1, clock, url);
      }
    }
  }

  /** Every save succeeds when each event has a url and, unless it has started,
      hosts and guests: the string sets the upcoming table insists on. */
  lemma {:induction false} UpdateSucceeds(items: map<string, Item>, events: seq<Event>, k: nat, clock: Clock)
    requires forall i :: k <= i < |events| ==>
      events[i].url != "" && (HasStarted(clock, events[i]) || (|events[i].hosts| > 0 && |events[i].guests| > 0))
    ensures SaveAllFrom(items, events, k, clock).result.Ok?
    decreases |events| - k
  {
    if k < |events| {
      var e := events[k];
      if !HasStarted(clock, e) {
        DedupSpec(e.hosts);
        DedupSpec(e.guests);
        assert e.hosts[0] in Dedup(e.hosts) && e.guests[0] in Dedup(e.guests);
        EncodeUpcomingStorable(Project(WithUniquePeople(e)), TtlFor(clock, e, false));
      }
      UpdateSucceeds(SaveUpcoming(items, clock, e).items, events, k + 1, clock);
    }
  }

  // ---------------------------------------------------------------- cleanupUpcoming

  const BatchSize := 25

  function Concat<T>(parts: seq<seq<T>>): seq<T>
  {
    if parts == [] then [] else Concat(parts[..|parts| - 1]) + parts[|parts| - 1]
  }

  lemma ConcatSnoc<T>(parts: seq<seq<T>>, last: seq<T>)
    ensures Concat(parts + [last]) == Concat(parts) + last
  {
    assert (parts + [last])[..|parts|] == parts;
  }

  /** The batches as `cleanupUpcoming` cuts them: together they are the scanned
      items in order, each holds 1 to 25 items, and all but the last hold 25. */
  predicate IsBatching(batches: seq<seq<Item>>, items: seq<Item>)
  {
    && Concat(batches) == items
    && (forall i :: 0 <= i < |batches| ==> 0 < |batches[i]| <= BatchSize)
    && (forall i :: 0 <= i < |batches| - 1 ==> |batches[i]| == BatchSize)
  }

  /** `while (items.length) batches.push(items.splice(0, 25))`. */
  method Batch(items: seq<Item>) returns (batches: seq<seq<Item>>)
    ensures IsBatching(batches, items)
  {
    batches := [];
    var remaining := items;
    while |remaining| > 0
      invariant Concat(batches) + remaining == items
      invariant forall i :: 0 <= i < |batches| ==> 0 < |batches[i]| <= BatchSize
      invariant forall i :: 0 <= i < |batches| - 1 ==> |batches[i]| == BatchSize
      invariant |batches| > 0 && |batches[|batches| - 1]| < BatchSize ==> remaining == []
      decreases |remaining|
    {
      var n := if |remaining| < BatchSize then |remaining| else BatchSize;
      var batch := remaining[..n];
      ConcatSnoc(batches, batch);
      assert batch + remaining[n..] == remaining;
      batches := batches + [batch];
      remaining := remaining[n..];
    }
  }

  /** A batching of n items has ceil(n / 25) batches. */
  lemma BatchCount(batches: seq<seq<Item>>, items: seq<Item>)
    requires IsBatching(batches, items)
    ensures |batches| == (|items| + BatchSize - 1) / BatchSize
  {
    if batches != [] {
      var init := batches[..|batches| - 1];
      FullBatchesLength(init);
    }
  }

  lemma {:induction false} FullBatchesLength(batches: seq<seq<Item>>)
    requires forall i :: 0 <= i < |batches| ==> |batches[i]| == BatchSize
    ensures |Concat(batches)| == |batches| * BatchSize
  {
    if batches != [] {
      FullBatchesLength(batches[..|batches| - 1]);
    }
  }

  /** `item.url`: the key of a delete request, absent when the item has none. */
  function KeyOf(item: Item): Option<AttributeValue>
  {
    if Url in item then Some(item[Url]) else None
  }

  /** One BatchWriteItem request per batch, one delete request per item, keyed by
      the item's url. */
  function DeleteRequests(batches: seq<seq<Item>>): (requests: seq<seq<Option<AttributeValue>>>)
    ensures |requests| == |batches|
    ensures forall i :: 0 <= i < |batches| ==> requests[i] == Keys(batches[i])
  {
    seq(|batches|, i requires 0 <= i < |batches| => Keys(batches[i]))
  }

  /** `now.toISOString().split("T")[0]`. */
  function Cutoff(nowIso: string): string
  {
    Split(nowIso, 'T')[0]
  }

  /** For an ISO timestamp, the cutoff is its date part. */
  lemma CutoffIsDate(date: string, time: string)
    requires 'T' !in date
    ensures Cutoff(date + "T" + time) == date
  {
    SplitPrefix(date, 'T', time);
  }

  /** `cleanupUpcoming`: `scan` answers the scan for events starting before the
      cutoff (None when the response has no Items). Returns the BatchWriteItem
      requests sent, none without Items; the deletions themselves happen in the
      table and are not modelled. */
  method CleanupUpcoming(nowIso: string, scan: string -> Option<seq<Item>>) returns (requests: seq<seq<Option<AttributeValue>>>)
    ensures scan(Cutoff(nowIso)).None? ==> requests == []
    ensures scan(Cutoff(nowIso)).Some? ==> exists batches :: IsBatching(batches, scan(Cutoff(nowIso)).value) && requests == DeleteRequests(batches)
  {
    var scanned := scan(Cutoff(nowIso));
    if scanned.None? {
      return [];
    }
    var batches := Batch(scanned.value);
    requests := DeleteRequests(batches);
  }

  /** `batch.map(item => item.url)` over every scanned item. */
  function Keys(items: seq<Item>): (keys: seq<Option<AttributeValue>>)
    ensures |keys| == |items|
    ensures forall k :: 0 <= k < |items| ==> keys[k] == KeyOf(items[k])
  {
    seq(|items|, k requires 0 <= k < |items| => KeyOf(items[k]))
  }

  /** Batching loses, adds and reorders nothing: the requests, flattened, hold one
      key per scanned item, in scan order. */
  lemma {:induction false} RequestsFollowItems(batches: seq<seq<Item>>)
    ensures Concat(DeleteRequests(batches)) == Keys(Concat(batches))
  {
    if batches != [] {
      var init := batches[..|batches| - 1];
      var last := batches[|batches| - 1];
      RequestsFollowItems(init);
      assert DeleteRequests(batches)[..|batches| - 1] == DeleteRequests(init);
      assert DeleteRequests(batches)[|batches| - 1] == Keys(last);
      assert Keys(Concat(init) + last) == Keys(Concat(init)) + Keys(last);
    }
  }
}
