/** The OpenSearch service: indexing events and rich events by url, and paging
    through upcoming rich events with a `search_after` cursor. The search itself
    is a parameter; sort values are taken as the strings they print as. */
module OpenSearch {
  import opened Common
  import opened JsText
  import opened Events
  import opened Clients

  datatype Doc = EventDoc(event: Event) | RichDoc(rich: RichEvent)

  /** The events index: documents by id. */
  class SearchIndex {
    var docs: map<string, Doc>

    constructor()
      ensures docs == map[]
    {
      docs := map[];
    }

    /** `indexEvent`: the event under its url, replacing any earlier document. */
    method IndexEvent(event: Event)
      modifies this
      ensures docs == old(docs)[event.url := EventDoc(event)]
    {
      docs := docs[event.url := EventDoc(event)];
    }

    /** `indexRichEvent`: the rich event under its event's url. */
    method IndexRichEvent(rich: RichEvent)
      modifies this
      ensures docs == old(docs)[rich.event.url := RichDoc(rich)]
    {
      docs := docs[rich.event.url := RichDoc(rich)];
    }
  }

  /** `getClient`: the module's one client, created on the first call. */
  method GetClient(slot: ClientSlot, newClient: nat) returns (client: nat)
    requires slot.Valid()
    modifies slot
    ensures slot.Valid() && slot.instance == Some(client)
    ensures old(slot.instance).Some? ==> client == old(slot.instance).value && slot.created == old(slot.created)
  {
    client := slot.Get(newClient);
  }

  datatype SortKey = SortKey(field: string, order: string)

  /** The parts of the search request the handler varies; the `_source` field list
      and the two-week `dateStart` range are fixed. */
  datatype SearchRequest = SearchRequest(size: int, sort: seq<SortKey>, searchAfter: Option<seq<string>>)

  const DefaultSize := 10
  const ResultOrder: seq<SortKey> := [SortKey("_score", "desc"), SortKey("_id", "asc")]

  /** `size = 10`: the default applies only when no size is passed. */
  function PageSize(size: Option<int>): (r: int)
    ensures size.Some? ==> r == size.value
    ensures size.None? ==> r == DefaultSize
  {
    size.GetOr(DefaultSize)
  }

  /** A cursor counts only when it is a non-empty string. */
  predicate Truthy(cursor: Option<string>)
  {
    cursor.Some? && cursor.value != ""
  }

  function BuildSearchRequest(size: int, cursor: Option<string>): (r: SearchRequest)
    ensures r.size == size && r.sort == ResultOrder
    ensures r.searchAfter.Some? <==> Truthy(cursor)
    ensures r.searchAfter.Some? ==> Join(r.searchAfter.value, ',') == cursor.value
  {
    if Truthy(cursor) then
      JoinSplit(cursor.value, ',');
      SearchRequest(size, ResultOrder, Some(Split(cursor.value, ',')))
    else SearchRequest(size, ResultOrder, None)
  }

  datatype Hit = Hit(source: RichEvent, sort: Option<seq<string>>)

  datatype Page = Page(events: seq<RichEvent>, cursor: Option<string>)

  function Sources(hits: seq<Hit>): (r: seq<RichEvent>)
    ensures |r| == |hits|
    ensures forall i :: 0 <= i < |hits| ==> r[i] == hits[i].source
  {
    seq(|hits|, i requires 0 <= i < |hits| => hits[i].source)
  }

  /** The last hit's sort values joined by ","; none without hits or sort values. */
  function NewCursor(hits: seq<Hit>): (r: Option<string>)
    ensures r.None? <==> hits == [] || hits[|hits| - 1].sort.None?
    ensures r.Some? ==> r.value == Join(hits[|hits| - 1].sort.value, ',')
  {
    if |hits| > 0 && hits[|hits| - 1].sort.Some? then Some(Join(hits[|hits| - 1].sort.value, ',')) else None
  }

  /** `getAllEvents(size, cursor)`, with `search` standing for the index. */
  function GetAllEvents(size: Option<int>, cursor: Option<string>, search: SearchRequest -> seq<Hit>): (p: Page)
    ensures var hits := search(BuildSearchRequest(PageSize(size), cursor));
      p.events == Sources(hits) && p.cursor == NewCursor(hits)
  {
    var hits := search(BuildSearchRequest(PageSize(size), cursor));
    Page(Sources(hits), NewCursor(hits))
  }

  /** The cursor of one page resumes exactly after its last hit: the next request
      searches after that hit's sort values, as long as it has both of them and
      neither contains a comma. */
  lemma CursorRoundTrip(hits: seq<Hit>, size: int)
    requires |hits| > 0 && hits[|hits| - 1].sort.Some?
    requires var sort := hits[|hits| - 1].sort.value;
      |sort| >= 2 && forall i :: 0 <= i < |sort| ==> ',' !in sort[i]
    ensures BuildSearchRequest(size, NewCursor(hits)).searchAfter == hits[|hits| - 1].sort
  {
    var sort := hits[|hits| - 1].sort.value;
    SplitJoin(sort, ',');
    assert Join(sort, ',') == sort[0] + [','] + Join(sort[1..], ',');
  }

  /** A last hit with an empty sort list yields the empty cursor, which the next
      request ignores: it starts again from the first page. */
  lemma EmptySortRestarts(hits: seq<Hit>, size: int)
    requires |hits| > 0 && hits[|hits| - 1].sort == Some([])
    ensures NewCursor(hits) == Some("")
    ensures BuildSearchRequest(size, NewCursor(hits)).searchAfter.None?
  {
  }
}
