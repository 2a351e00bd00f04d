/** The event records: a crawled `Event`, the ten scores an LLM assigns to it, the
    generated highlights, and the `RichEvent` that merges the three for the search
    index. A JavaScript `null` in a nullable field is `None`. */
module Events {
  import opened Common

  datatype Event = Event(
    url: string,
    dateStart: string,
    dateEnd: string,
    title: string,
    hosts: seq<string>,
    group: string,
    address: string,
    guests: seq<string>,
    attendees: int,
    description: string,
    cover: string,
    tags: seq<string>,
    venue: string,
    online: bool,
    eventSeriesDates: seq<string>,
    price: Option<real>,
    minPrice: Option<real>,
    maxPrice: Option<real>,
    spotsLeft: Option<int>,
    waitlist: Option<bool>,
    registrationClosed: Option<bool>)

  datatype Scores = Scores(
    nonCommercial: real,
    popularity: real,
    freeAdmision: real,
    noAdditionalExpenses: real,
    drinksProvided: real,
    foodProvided: real,
    venueNiceness: real,
    quietness: real,
    uniqueness: real,
    proximity: real)

  datatype Highlights = Highlights(shortDescription: string, longDescription: string, tags: seq<string>, tweet: string)

  /** The 21 event fields, the 10 scores, three highlight texts and `genTags`; the
      event's own `tags` stay in `event`. */
  datatype RichEvent = RichEvent(
    event: Event,
    scores: Scores,
    shortDescription: string,
    longDescription: string,
    tweet: string,
    genTags: seq<string>)

  function MergeRichEvent(event: Event, scores: Scores, highlights: Highlights): RichEvent
  {
    RichEvent(event, scores, highlights.shortDescription, highlights.longDescription, highlights.tweet, highlights.tags)
  }

  /** The highlights a rich event was merged from: its generated tags are the
      highlights' tags. */
  function HighlightsOf(r: RichEvent): Highlights
  {
    Highlights(r.shortDescription, r.longDescription, r.genTags, r.tweet)
  }

  /** Merging loses nothing and adds nothing: the event, scores and highlights are
      recovered from the merged record, and every rich event is such a merge. */
  lemma MergeRichEventInverse(event: Event, scores: Scores, highlights: Highlights, r: RichEvent)
    ensures var m := MergeRichEvent(event, scores, highlights);
      m.event == event && m.scores == scores && HighlightsOf(m) == highlights
    ensures MergeRichEvent(r.event, r.scores, HighlightsOf(r)) == r
    ensures MergeRichEvent(event, scores, highlights).event.tags == event.tags
  {
  }
}
