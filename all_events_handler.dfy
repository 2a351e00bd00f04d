/** The `saveToAll` handler behind the events workflow: an event is written to the
    all-events table unless the stored copy of it has already started. */
module AllEventsHandler {
  import opened Common
  import opened Events
  import opened DynamoDb
  import opened Conversion
  import opened AllEventsStorage

  datatype Decision = Saved | Updated | Skipped

  datatype Reply = Reply(status: string, message: string)

  /** The stored event under `url`, decoded as `getEvent` decodes it. */
  function StoredEvent(items: map<string, Item>, url: string): (r: Option<Event>)
    ensures r.Some? <==> url in items
  {
    if url in items then Some(ConvertItemImage(items[url])) else None
  }

  /** The save rule. Whether an event has started is judged from the stored copy's
      start, never the incoming one: a new event is saved, a stored one that has not
      started is updated, and a stored one that has started is left alone. */
  function Decide(stored: Option<Event>, clock: Clock): (d: Decision)
    ensures d == Saved <==> stored.None?
    ensures d == Skipped <==> stored.Some? && clock.instant(stored.value.dateStart) < clock.now
    ensures d == Updated <==> stored.Some? && clock.instant(stored.value.dateStart) >= clock.now
  {
    if stored.None? then Saved
    else if clock.instant(stored.value.dateStart) >= clock.now then Updated
    else Skipped
  }

  function Message(d: Decision): string
  {
    match d
    case Saved => "saved"
    case Updated => "updated"
    case Skipped => "skipped"
  }

  /** `saveToAll`: looks the event up (`status` is the lookup's status code; an
      empty url is refused by the lookup), then skips it or saves it; the reply's
      status is always "success". */
  method SaveToAll(table: Table, status: int, clock: Clock, event: Event) returns (r: Result<Reply>)
    modifies table
    ensures event.url == "" ==> r == Err("ValidationException") && table.items == old(table.items)
    ensures event.url != "" && status != 200 ==> r == Err("Bad status code") && table.items == old(table.items)
    ensures status == 200 ==> r.Ok? ==> r.value == Reply("success", Message(Decide(StoredEvent(old(table.items), event.url), clock)))
    ensures event.url != "" && status == 200 && Decide(StoredEvent(old(table.items), event.url), clock) == Skipped ==>
      r.Ok? && table.items == old(table.items)
    ensures event.url != "" && status == 200 && Decide(StoredEvent(old(table.items), event.url), clock) != Skipped ==>
      r.Ok? && table.items == old(table.items)[event.url := EncodeEvent(WithUniqueLists(event))]
  {
    var found := GetEvent(table, status, event.url);
    if found.Err? {
      return Err(found.message);
    }
    assert found.value == StoredEvent(table.items, event.url);
    var decision := Decide(found.value, clock);
    if decision == Skipped {
      return Ok(Reply("success", "skipped"));
    }
    // The lookup accepted the url, so the save cannot be refused.
    var _, _ := SaveEvent(table, event);
    return Ok(Reply("success", Message(decision)));
  }

  /** After an event is saved, the next delivery of it is decided by its own start:
      updated while it has not started, skipped once it has. */
  lemma DecideAfterSave(items: map<string, Item>, event: Event, clock: Clock)
    requires event.url != ""
    ensures var after := items[event.url := EncodeEvent(WithUniqueLists(event))];
      Decide(StoredEvent(after, event.url), clock) ==
        if clock.instant(event.dateStart) >= clock.now then Updated else Skipped
  {
    RoundTrip(event);
  }
}
