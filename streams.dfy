/** The filter every stream handler applies to a DynamoDB stream batch: a `REMOVE`
    record and a record without a new image produce nothing, every other record
    produces its new image converted to an `Event`, in record order. */
module Streams {
  import opened Common
  import opened DynamoDb
  import opened Events
  import opened Conversion

  predicate Kept(r: StreamRecord)
  {
    r.eventName != "REMOVE" && r.newImage.Some?
  }

  /** The `map` callback: undefined for a dropped record. */
  function ToNewEvent(r: StreamRecord): Option<Event>
  {
    if r.eventName == "REMOVE" then None
    else if r.newImage.None? then None
    else Some(ConvertItemImage(r.newImage.value))
  }

  /** `records.map(ToNewEvent).filter(e => e !== undefined)`. */
  function NewEvents(records: seq<StreamRecord>): (events: seq<Event>)
    ensures |events| <= |records|
  {
    Somes(seq(|records|, i requires 0 <= i < |records| => ToNewEvent(records[i])))
  }

  /** One record yields its converted new image exactly when it is kept. */
  lemma NewEventsSingle(r: StreamRecord)
    ensures NewEvents([r]) == if Kept(r) then [ConvertItemImage(r.newImage.value)] else []
  {
    assert seq(1, i requires 0 <= i < 1 => ToNewEvent([r][i])) == [ToNewEvent(r)];
  }

  /** The events of two batches in sequence are those of the first, then those of
      the second: the filter keeps record order. */
  lemma NewEventsAppend(a: seq<StreamRecord>, b: seq<StreamRecord>)
    ensures NewEvents(a + b) == NewEvents(a) + NewEvents(b)
  {
    var f := (rs: seq<StreamRecord>) => seq(|rs|, i requires 0 <= i < |rs| => ToNewEvent(rs[i]));
    assert f(a + b) == f(a) + f(b);
    SomesAppend(f(a), f(b));
  }

  /** A batch of removals produces no event. */
  lemma {:induction false} OnlyRemovals(records: seq<StreamRecord>)
    requires forall i :: 0 <= i < |records| ==> records[i].eventName == "REMOVE"
    ensures NewEvents(records) == []
  {
    if records != [] {
      NewEventsAppend([records[0]], records[1..]);
      assert [records[0]] + records[1..] == records;
      NewEventsSingle(records[0]);
      OnlyRemovals(records[1..]);
    }
  }
}
