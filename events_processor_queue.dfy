/** The queue-based crawler intake: `enqueue` validates a finished crawler run and
    sends each normalised event to a queue, and `saveToAll` drains queue messages
    into the all-events table with the same save rule as the workflow step. */
module EventsProcessorQueue {
  import opened Common
  import opened Events
  import opened DynamoDb
  import opened Conversion
  import opened AllEventsStorage
  import opened AllEventsHandler
  import opened Crawler
  import opened Clients
  import opened EventsProcessor

  /** The crawled-events queue: the events sent, oldest first. */
  class Queue {
    var messages: seq<Event>

    constructor()
      ensures messages == []
    {
      messages := [];
    }
  }

  datatype EnqueueReply = EnqueueReply(status: string, enqueuedEvents: nat, receivedEvents: nat)

  /** The events among the first `n` whose send succeeded (`sendOk(i)` for the
      i-th), in order. */
  function SentUpTo(events: seq<Event>, sendOk: nat -> bool, n: nat): (sent: seq<Event>)
    requires n <= |events|
    ensures |sent| <= n
  {
    if n == 0 then [] else SentUpTo(events, sendOk, n - 1) + (if sendOk(n - 1) then [events[n - 1]] else [])
  }

  /** Nothing is sent exactly when every send failed. */
  lemma {:induction false} NothingSent(events: seq<Event>, sendOk: nat -> bool, n: nat)
    requires n <= |events|
    ensures SentUpTo(events, sendOk, n) == [] <==> forall i :: 0 <= i < n ==> !sendOk(i)
  {
    if n > 0 {
      NothingSent(events, sendOk, n - 1);
    }
  }

  /** With every send succeeding, the queue receives the events in order. */
  lemma {:induction false} AllSent(events: seq<Event>, sendOk: nat -> bool, n: nat)
    requires n <= |events|
    requires forall i :: 0 <= i < n ==> sendOk(i)
    ensures SentUpTo(events, sendOk, n) == events[..n]
  {
    if n > 0 {
      AllSent(events, sendOk, n - 1);
      assert events[..n] == events[..n - 1] + [events[n - 1]];
    }
  }

  /** The checks `enqueue` makes before reading the dataset: a body (absent or empty
      is an error), that parses, describing a valid run. */
  function Intake(body: Option<string>, parse: string -> Result<ApifyPayload>, actorName: Option<string>): (r: Result<ApifyPayload>)
    ensures body.None? || body.value == "" ==> r == Err("Payload body is empty")
    ensures body.Some? && body.value != "" && parse(body.value).Err? ==> r == Err(parse(body.value).message)
    ensures body.Some? && body.value != "" && parse(body.value).Ok? ==>
      var p := parse(body.value).value;
      var run := ValidateRun(p.exitCode, p.actorId, actorName);
      (run.Err? ==> r == Err(run.message)) && (run.Ok? ==> r == Ok(p))
  {
    if body.None? || body.value == "" then Err("Payload body is empty")
    else
      var p :- parse(body.value);
      var _ :- ValidateRun(p.exitCode, p.actorId, actorName);
      Ok(p)
  }

  /** The send loop: each event is sent once, in order; a failed send is passed over. */
  method SendAll(queue: Queue, events: seq<Event>, sendOk: nat -> bool) returns (enqueued: nat)
    modifies queue
    ensures queue.messages == old(queue.messages) + SentUpTo(events, sendOk, |events|)
    ensures enqueued == |SentUpTo(events, sendOk, |events|)|
  {
    enqueued := 0;
    var i := 0;
    while i < |events|
      invariant 0 <= i <= |events|
      invariant enqueued == |SentUpTo(events, sendOk, i)|
      invariant queue.messages == old(queue.messages) + SentUpTo(events, sendOk, i)
    {
      if sendOk(i) {
        queue.messages := queue.messages + [events[i]];
        enqueued := enqueued + 1;
      }
      i := i + 1;
    }
  }

  /** `enqueue`. Both clients are fetched first; a failed intake check is an error
      before anything is sent. The handler then fails only when there were events
      and none was sent. */
  method Enqueue(apifySlot: ClientSlot, sqsSlot: ClientSlot, queue: Queue,
                 newApify: nat, newSqs: nat,
                 body: Option<string>, parse: string -> Result<ApifyPayload>,
                 actorName: Option<string>, dataset: string -> seq<RawItem>, sendOk: nat -> bool)
    returns (r: Result<EnqueueReply>)
    requires apifySlot.Valid() && sqsSlot.Valid() && apifySlot != sqsSlot
    modifies apifySlot, sqsSlot, queue
    ensures apifySlot.Valid() && apifySlot.instance.Some? && sqsSlot.Valid() && sqsSlot.instance.Some?
    ensures old(apifySlot.instance).Some? ==> apifySlot.instance == old(apifySlot.instance)
    ensures old(sqsSlot.instance).Some? ==> sqsSlot.instance == old(sqsSlot.instance)
    ensures Intake(body, parse, actorName).Err? ==>
      r == Err(Intake(body, parse, actorName).message) && queue.messages == old(queue.messages)
    ensures Intake(body, parse, actorName).Ok? ==>
      var events := NormalizeAll(dataset(Intake(body, parse, actorName).value.datasetId));
      var sent := SentUpTo(events, sendOk, |events|);
      queue.messages == old(queue.messages) + sent &&
      (|events| > 0 && sent == [] ==> r == Err("Failed to enqueue events to the queue")) &&
      (|events| == 0 || sent != [] ==> r == Ok(EnqueueReply("success", |sent|, |events|)))
  {
    var _ := apifySlot.Get(newApify);
    var _ := sqsSlot.Get(newSqs);
    var intake := Intake(body, parse, actorName);
    if intake.Err? {
      return Err(intake.message);
    }
    var events := NormalizeAll(dataset(intake.value.datasetId));
    var enqueued := SendAll(queue, events, sendOk);
    if |events| > 0 && enqueued == 0 {
      return Err("Failed to enqueue events to the queue");
    }
    return Ok(EnqueueReply("success", enqueued, |events|));
  }

  // ---------------------------------------------------------------- saveToAll

  /** The queue's `saveToAll` from record `k` on: each record's lookup (status
      `status(k)`), which DynamoDB refuses for an empty url, either fails the batch,
      skips a stored event that has started, or saves the record. */
  function SaveAllFrom(items: map<string, Item>, records: seq<Event>, k: nat, status: nat -> int, clock: Clock): (o: Outcome)
    decreases |records| - k
  {
    if k >= |records| then Outcome(Ok(()), items)
    else if records[k].url == "" then Outcome(Err("ValidationException"), items)
    else if status(k) != 200 then Outcome(Err("Bad status code"), items)
    else
      var e := records[k];
      if Decide(StoredEvent(items, e.url), clock) == Skipped then SaveAllFrom(items, records, k + 1, status, clock)
      else SaveAllFrom(items[e.url := EncodeEvent(WithUniqueLists(e))], records, k + 1, status, clock)
  }

  /** `saveToAll` over an SQS batch of events, in record order. */
  method SaveToAllQueued(table: Table, records: seq<Event>, status: nat -> int, clock: Clock) returns (r: Result<string>)
    modifies table
    ensures var o := SaveAllFrom(old(table.items), records, 0, status, clock);
      table.items == o.items && (o.result.Ok? ==> r == Ok("success")) && (o.result.Err? ==> r == Err(o.result.message))
  {
    var i := 0;
    while i < |records|
      invariant 0 <= i <= |records|
      invariant SaveAllFrom(table.items, records, i, status, clock) == SaveAllFrom(old(table.items), records, 0, status, clock)
    {
      var item := records[i];
      var found := GetEvent(table, status(i), item.url);
      if found.Err? {
        return Err(found.message);
      }
      assert found.value == StoredEvent(table.items, item.url);
      if Decide(found.value, clock) != Skipped {
        var _, _ := SaveEvent(table, item);
      }
      i := i + 1;
    }
    return Ok("success");
  }

  /** A stored event that has started is never overwritten by a later delivery. */
  lemma {:induction false} StartedEventsKept(items: map<string, Item>, records: seq<Event>, k: nat, status: nat -> int, clock: Clock, url: string)
    requires url in items && clock.instant(ConvertItemImage(items[url]).dateStart) < clock.now
    ensures var o := SaveAllFrom(items, records, k, status, clock); url in o.items && o.items[url] == items[url]
    decreases |records| - k
  {
    if k < |records| && records[k].url != "" && status(k) == 200 {
      var e := records[k];
      if Decide(StoredEvent(items, e.url), clock) == Skipped {
        StartedEventsKept(items, records, k + 1, status, clock, url);
      } else {
        assert e.url != url;
        var after := items[e.url := EncodeEvent(WithUniqueLists(e))];
        StartedEventsKept(after, records, k + 1, status, clock, url);
      }
    }
  }

  /** With every lookup answered and every url non-empty, the batch succeeds and each
      record ends up stored or was skipped. */
  lemma {:induction false} BatchSucceeds(items: map<string, Item>, records: seq<Event>, k: nat, status: nat -> int, clock: Clock)
    requires forall i :: k <= i < |records| ==> status(i) == 200 && records[i].url != ""
    ensures var o := SaveAllFrom(items, records, k, status, clock);
      o.result.Ok? && forall i :: k <= i < |records| ==> records[i].url in o.items
    decreases |records| - k
  {
    if k < |records| {
      var e := records[k];
      var skipped := Decide(StoredEvent(items, e.url), clock) == Skipped;
      var next := if skipped then items else items[e.url := EncodeEvent(WithUniqueLists(e))];
      assert SaveAllFrom(items, records, k, status, clock) == SaveAllFrom(next, records, k + 1, status, clock);
      assert e.url in next;
      BatchSucceeds(next, records, k + 1, status, clock);
      KeysKept(next, records, k + 1, status, clock);
    }
  }

  /** No url ever disappears from the table during a batch. */
  lemma {:induction false} KeysKept(items: map<string, Item>, records: seq<Event>, k: nat, status: nat -> int, clock: Clock)
    ensures items.Keys <= SaveAllFrom(items, records, k, status, clock).items.Keys
    decreases |records| - k
  {
    if k < |records| && records[k].url != "" && status(k) == 200 {
      var e := records[k];
      if Decide(StoredEvent(items, e.url), clock) == Skipped {
        KeysKept(items, records, k + 1, status, clock);
      } else {
        KeysKept(items[e.url := EncodeEvent(WithUniqueLists(e))], records, k + 1, status, clock);
      }
    }
  }
}
