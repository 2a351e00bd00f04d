/** The `sendToEventUpdates` handler: it selects the new or changed events of the
    stream and, for now, takes no action on them. */
module EventUpdates {
  import opened Common
  import opened DynamoDb
  import opened Events
  import opened Streams

  datatype Reply = Reply(status: string, selected: seq<Event>)

  /** The selection and the reply; `selected` exposes the events the empty loop
      walks over. */
  function SendToEventUpdates(records: seq<StreamRecord>): (r: Reply)
    ensures r.status == "success"
    ensures |r.selected| <= |records|
    ensures r.selected == NewEvents(records)
  {
    Reply("success", NewEvents(records))
  }

  /** A removal contributes nothing: appending REMOVE records leaves the selection
      unchanged. */
  lemma RemovalsIgnored(records: seq<StreamRecord>, removals: seq<StreamRecord>)
    requires forall i :: 0 <= i < |removals| ==> removals[i].eventName == "REMOVE"
    ensures SendToEventUpdates(records + removals).selected == SendToEventUpdates(records).selected
  {
    NewEventsAppend(records, removals);
    OnlyRemovals(removals);
  }
}
