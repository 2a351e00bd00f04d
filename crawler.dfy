/** What the two Apify webhook handlers share: checking that a finished crawler run
    is usable (exit code, known actor, an `events-crawler-<name>` actor name) and
    normalising the dataset items the crawler produced into events. */
module Crawler {
  import opened Common
  import opened JsText
  import opened Events

  /** A dataset field that may be absent, `null` or a value. */
  datatype Raw<T> = Missing | Null | Value(v: T)

  /** A dataset item. The fields copied through unchanged are typed as the event's;
      the fields the normalisation defaults keep their raw form. */
  datatype RawItem = RawItem(
    url: string,
    dateStart: string,
    dateEnd: string,
    title: string,
    hosts: seq<string>,
    group: string,
    address: string,
    guests: seq<string>,
    attendees: int,
    description: string,
    cover: string,
    tags: Raw<seq<string>>,
    venue: Raw<string>,
    online: Raw<bool>,
    eventSeriesDates: Raw<seq<string>>,
    price: Raw<real>,
    minPrice: Raw<real>,
    maxPrice: Raw<real>,
    spotsLeft: Raw<int>,
    waitlist: Raw<bool>,
    registrationClosed: Raw<bool>)

  // ---------------------------------------------------------------- run validation

  const CrawlerPrefix := "events-crawler-"

  /** `/events-crawler-(.+)$/` matches with its prefix at `j`: the prefix is followed
      by at least one character and no line terminator up to the end. */
  predicate NameMatchAt(name: string, j: nat)
  {
    OccursAt(name, CrawlerPrefix, j) && j + |CrawlerPrefix| < |name|
    && forall k :: j + |CrawlerPrefix| <= k < |name| ==> !IsLineTerminator(name[k])
  }

  /** The leftmost match at or after `j`, as the regular expression search tries the
      start positions in order. */
  function FirstMatchFrom(name: string, j: nat): (r: Option<nat>)
    ensures r.Some? ==> j <= r.value && NameMatchAt(name, r.value)
    ensures forall i: nat :: j <= i && (r.None? || i < r.value) ==> !NameMatchAt(name, i)
    decreases |name| - j
  {
    if j >= |name| then None
    else if NameMatchAt(name, j) then Some(j)
    else FirstMatchFrom(name, j + 1)
  }

  /** `match[1]` of `/events-crawler-(.+)$/`: the text after the leftmost match. */
  function CrawlerName(name: string): (r: Option<string>)
    ensures r.Some? <==> exists j: nat :: NameMatchAt(name, j)
    ensures r.Some? ==> r.value != ""
  {
    match FirstMatchFrom(name, 0)
    case None => None
    case Some(j) => Some(name[j + |CrawlerPrefix|..])
  }

  /** The actor names the comment in the handlers gives. */
  lemma CrawlerNameExample()
    ensures CrawlerName("iliazlobin/events-crawler-meetup") == Some("meetup")
  {
    var n := "iliazlobin/events-crawler-meetup";
    var head, tail := "iliazlobin/", "meetup";
    assert n == head + CrawlerPrefix + tail;
    assert n[11..26] == CrawlerPrefix;
    forall k | 26 <= k < |n| ensures !IsLineTerminator(n[k]) {
      assert n[k] == tail[k - 26];
      var t := k - 26;
      assert t == 0 || t == 1 || t == 2 || t == 3 || t == 4 || t == 5;
    }
    assert NameMatchAt(n, 11);
    assert 'e' !in head;
    forall i: nat | i < 11 ensures !NameMatchAt(n, i) {
      assert n[i] == head[i];
      assert n[i..i + 15][0] == n[i];
    }
    assert FirstMatchFrom(n, 0) == Some(11);
  }

  /** A prefix with nothing after it is not a match. */
  lemma CrawlerNameEmptySuffix()
    ensures CrawlerName("iliazlobin/events-crawler-") == None
  {
    var n := "iliazlobin/events-crawler-";
    var head := "iliazlobin/";
    assert n == head + CrawlerPrefix;
    assert 'e' !in head;
    forall i: nat ensures !NameMatchAt(n, i) {
      if i < 11 {
        assert n[i] == head[i];
        assert i + 15 <= |n| ==> n[i..i + 15][0] != CrawlerPrefix[0];
      }
    }
  }

  /** The checks both handlers make before reading the dataset, in their order: the
      exit code, the actor lookup (`actorName` is None when the actor is unknown) and
      the actor name; the result is the crawler name. */
  function ValidateRun(exitCode: int, actorId: string, actorName: Option<string>): (r: Result<string>)
    ensures r.Ok? <==> exitCode == 0 && actorName.Some? && CrawlerName(actorName.value).Some?
    ensures exitCode != 0 ==> r == Err("Exist code is not successful: " + IntToString(exitCode))
    ensures exitCode == 0 && actorName.None? ==> r == Err("Actor isn't identified: " + actorId)
    ensures exitCode == 0 && actorName.Some? && CrawlerName(actorName.value).None? ==>
      r == Err("Actor name is invalid: " + actorName.value)
    ensures r.Ok? ==> r.value == CrawlerName(actorName.value).value
  {
    if exitCode != 0 then Err("Exist code is not successful: " + IntToString(exitCode))
    else if actorName.None? then Err("Actor isn't identified: " + actorId)
    else match CrawlerName(actorName.value)
      case None => Err("Actor name is invalid: " + actorName.value)
      case Some(crawler) => Ok(crawler)
  }

  // ---------------------------------------------------------------- normalisation

  /** `url.replace(/\/$/, "")`: at most one trailing slash is removed. */
  function StripTrailingSlash(url: string): (r: string)
    ensures url == r || url == r + "/"
    ensures url == r <==> url == [] || url[|url| - 1] != '/'
  {
    if |url| > 0 && url[|url| - 1] == '/' then url[..|url| - 1] else url
  }

  /** `x || []` for a list: any array is truthy. */
  function ListOr(x: Raw<seq<string>>): seq<string>
  {
    if x.Value? then x.v else []
  }

  /** `x || ""`. */
  function TextOr(x: Raw<string>): string
  {
    if x.Value? then x.v else ""
  }

  /** `x || false`. */
  function FlagOr(x: Raw<bool>): bool
  {
    x == Value(true)
  }

  /** `x !== undefined ? x : null`. */
  function NullIfMissing<T>(x: Raw<T>): Option<T>
  {
    if x.Value? then Some(x.v) else None
  }

  function Normalize(item: RawItem): Event
  {
    Event(StripTrailingSlash(item.url), item.dateStart, item.dateEnd, item.title, item.hosts, item.group,
      item.address, item.guests, item.attendees, item.description, item.cover,
      ListOr(item.tags), TextOr(item.venue), FlagOr(item.online), ListOr(item.eventSeriesDates),
      NullIfMissing(item.price), NullIfMissing(item.minPrice), NullIfMissing(item.maxPrice),
      NullIfMissing(item.spotsLeft), NullIfMissing(item.waitlist), NullIfMissing(item.registrationClosed))
  }

  /** The normalisation rules: one trailing slash dropped from the url, absent or
      null lists become empty, an absent, null or empty venue becomes "", `online` is
      true only when it was true, and a nullable field is null unless it held a
      value; the other fields pass through. */
  lemma NormalizeSpec(item: RawItem)
    ensures var e := Normalize(item);
      (item.url == e.url || item.url == e.url + "/")
      && (e.tags == [] <==> item.tags.Value? ==> item.tags.v == [])
      && (item.tags.Value? ==> e.tags == item.tags.v)
      && (e.venue == "" <==> !item.venue.Value? || item.venue.v == "")
      && (e.online <==> item.online == Value(true))
      && (e.price.Some? <==> item.price.Value?) && (e.spotsLeft.Some? <==> item.spotsLeft.Value?)
      && (e.waitlist.Some? <==> item.waitlist.Value?)
      && (e.registrationClosed.Some? <==> item.registrationClosed.Value?)
      && e.title == item.title && e.hosts == item.hosts && e.attendees == item.attendees
  {
  }

  /** An event read back as a dataset item. */
  function AsRawItem(e: Event): RawItem
  {
    RawItem(e.url, e.dateStart, e.dateEnd, e.title, e.hosts, e.group, e.address, e.guests, e.attendees,
      e.description, e.cover, Value(e.tags), Value(e.venue), Value(e.online), Value(e.eventSeriesDates),
      Lift(e.price), Lift(e.minPrice), Lift(e.maxPrice), Lift(e.spotsLeft), Lift(e.waitlist), Lift(e.registrationClosed))
  }

  function Lift<T>(x: Option<T>): Raw<T>
  {
    if x.Some? then Value(x.value) else Null
  }

  /** Normalising an event again changes it only by another trailing slash: it is
      the identity exactly when the url does not end in "/". */
  lemma NormalizeAgain(item: RawItem)
    ensures var e := Normalize(item);
      Normalize(AsRawItem(e)) == e.(url := StripTrailingSlash(e.url))
    ensures var e := Normalize(item);
      Normalize(AsRawItem(e)) == e <==> e.url == [] || e.url[|e.url| - 1] != '/'
  {
  }

  /** A url ending in two slashes loses both over two normalisations. */
  lemma DoubleSlashExample()
    ensures StripTrailingSlash("a//") == "a/" && StripTrailingSlash(StripTrailingSlash("a//")) == "a"
  {
  }

  /** `datasetItems.items.map(...)`: one event per item, in order. */
  function NormalizeAll(items: seq<RawItem>): (events: seq<Event>)
    ensures |events| == |items|
    ensures forall i :: 0 <= i < |items| ==> events[i] == Normalize(items[i])
  {
    seq(|items|, i requires 0 <= i < |items| => Normalize(items[i]))
  }
}
