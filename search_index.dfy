/** The `ingestSearch` handler: every new or changed event of the all-events
    stream is indexed for search, in record order. */
module SearchIngest {
  import opened Common
  import opened DynamoDb
  import opened Events
  import opened Streams
  import opened OpenSearch

  /** The index after indexing `events` in order. */
  function IndexAll(docs: map<string, Doc>, events: seq<Event>): map<string, Doc>
  {
    if events == [] then docs
    else IndexAll(docs, events[..|events| - 1])[events[|events| - 1].url := EventDoc(events[|events| - 1])]
  }

  /** Each url some event carries ends up holding the last event indexed under it. */
  lemma {:induction false} IndexAllLastWins(docs: map<string, Doc>, events: seq<Event>, i: nat)
    requires i < |events|
    requires forall j :: i < j < |events| ==> events[j].url != events[i].url
    ensures events[i].url in IndexAll(docs, events)
    ensures IndexAll(docs, events)[events[i].url] == EventDoc(events[i])
  {
    if i < |events| - 1 {
      var init := events[..|events| - 1];
      assert init[i] == events[i];
      IndexAllLastWins(docs, init, i);
    }
  }

  /** An url no event carries keeps its document, or stays absent. */
  lemma {:induction false} IndexAllKeepsOthers(docs: map<string, Doc>, events: seq<Event>, url: string)
    requires forall j :: 0 <= j < |events| ==> events[j].url != url
    ensures url in IndexAll(docs, events) <==> url in docs
    ensures url in docs ==> IndexAll(docs, events)[url] == docs[url]
  {
    if events != [] {
      var init := events[..|events| - 1];
      IndexAllKeepsOthers(docs, init, url);
    }
  }

  /** `ingestSearch`: indexes each kept record's new image once, in order; the
      status is always "success". */
  method IngestSearch(index: SearchIndex, records: seq<StreamRecord>) returns (status: string)
    modifies index
    ensures index.docs == IndexAll(old(index.docs), NewEvents(records))
    ensures status == "success"
  {
    var events := NewEvents(records);
    var i := 0;
    while i < |events|
      invariant 0 <= i <= |events|
      invariant index.docs == IndexAll(old(index.docs), events[..i])
    {
      assert events[..i + 1][..i] == events[..i];
      index.IndexEvent(events[i]);
      i := i + 1;
    }
    assert events[..i] == events;
    return "success";
  }
}
