/** The `retrieveFromApify` step of the events workflow: validates a finished
    crawler run and returns the normalised items of its dataset. */
module EventsProcessor {
  import opened Common
  import opened Events
  import opened Crawler

  /** The parts of Apify's webhook payload the handlers read. */
  datatype ApifyPayload = ApifyPayload(exitCode: int, actorId: string, datasetId: string)

  datatype Retrieved = Retrieved(status: string, events: seq<Event>)

  /** `actorName` is the looked-up actor's name (None for an unknown actor) and
      `dataset` the items of each dataset. A valid run gives "success" and one
      normalised event per dataset item, in order; any failed check gives its error. */
  function RetrieveFromApify(payload: ApifyPayload, actorName: Option<string>, dataset: string -> seq<RawItem>): (r: Result<Retrieved>)
    ensures r.Ok? <==> ValidateRun(payload.exitCode, payload.actorId, actorName).Ok?
    ensures r.Err? ==> r.message == ValidateRun(payload.exitCode, payload.actorId, actorName).message
    ensures r.Ok? ==> r.value.status == "success" && |r.value.events| == |dataset(payload.datasetId)|
    ensures r.Ok? ==> forall i :: 0 <= i < |r.value.events| ==> r.value.events[i] == Normalize(dataset(payload.datasetId)[i])
  {
    var _ :- ValidateRun(payload.exitCode, payload.actorId, actorName);
    Ok(Retrieved("success", NormalizeAll(dataset(payload.datasetId))))
  }
}
