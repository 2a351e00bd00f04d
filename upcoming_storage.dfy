/** The upcoming-events table: the future events shown on the site. `saveEvent`
    deletes an event that has already started (unless asked to keep past events),
    and otherwise writes its eleven display fields plus a `ttl` attribute, which
    the table's time-to-live setting uses to drop the item once it has expired. */
module UpcomingStorage {
  import opened Common
  import opened JsText
  import opened DynamoDb
  import opened Events
  import opened Conversion

  /** The fields the table keeps; `getEvent` and `getAllEvents` return only these. */
  datatype UpcomingEvent = UpcomingEvent(
    url: string,
    dateStart: string,
    dateEnd: string,
    title: string,
    hosts: seq<string>,
    group: string,
    address: string,
    guests: seq<string>,
    attendees: int,
    description: string,
    cover: string)

  function Project(e: Event): UpcomingEvent
  {
    UpcomingEvent(e.url, e.dateStart, e.dateEnd, e.title, e.hosts, e.group, e.address,
      e.guests, e.attendees, e.description, e.cover)
  }

  /** `moment(item.dateStart).isBefore(moment())`. */
  predicate HasStarted(clock: Clock, e: Event)
  {
    clock.instant(e.dateStart) < clock.now
  }

  // ---------------------------------------------------------------- expiry time

  /** `dateStart.diff(now, "seconds")`, the `ttl` the source writes: the whole
      seconds from now until the start, truncated toward zero. */
  function TtlAsWritten(now: int, start: int): (ttl: int)
    ensures start >= now ==> 0 <= ttl * 1000 <= start - now < ttl * 1000 + 1000
  {
    if start >= now then (start - now) / 1000 else -((now - start) / 1000)
  }

  /** The time-to-live setting reads `ttl` as an epoch second. A duration in
      seconds is such an epoch second early in 1970, so for every event starting
      less than the current epoch time from now the expiry lies before the save. */
  lemma TtlAsWrittenAlreadyExpired(now: int, start: int)
    requires 0 <= now <= start && start - now + 1000 <= now
    ensures TtlAsWritten(now, start) < now / 1000
  {
    var ttl := TtlAsWritten(now, start);
    assert ttl * 1000 <= start - now <= now - 1000;
    assert (now / 1000) * 1000 > now - 1000;
  }

  /** Saved in November 2023 for an event a day later, the item carries `ttl` 86400,
      which is 2 January 1970. */
  lemma TtlAsWrittenExample()
    ensures TtlAsWritten(1_700_000_000_000, 1_700_086_400_000) == 86_400
    ensures 86_400 < 1_700_000_000_000 / 1000
  {
  }

  /** The epoch second at which the event starts (`dateStart.unix()`): the expiry
      the time-to-live setting expects. */
  function ExpiryAt(start: int): (ttl: int)
    ensures ttl * 1000 <= start < ttl * 1000 + 1000
  {
    start / 1000
  }

  /** The `ttl` written for an event, as the source computes it: none when past
      events are kept, otherwise the seconds from now until the start. */
  function TtlFor(clock: Clock, e: Event, savePast: bool): Option<int>
  {
    if savePast then None else Some(TtlAsWritten(clock.now, clock.instant(e.dateStart)))
  }

  /** When `saveEvent` writes an event that has not started, its `ttl` is the whole
      seconds from now until the start, so it is never negative. */
  lemma TtlForCountsDown(clock: Clock, e: Event)
    requires !HasStarted(clock, e)
    ensures TtlFor(clock, e, false).Some?
    ensures var ttl := TtlFor(clock, e, false).value;
      0 <= ttl && ttl * 1000 <= clock.instant(e.dateStart) - clock.now < ttl * 1000 + 1000
  {
    var ttl := TtlAsWritten(clock.now, clock.instant(e.dateStart));
    assert 0 <= ttl * 1000;
  }

  /** The `ttl` the time-to-live setting expects: the epoch second of the start. */
  function TtlForIntended(clock: Clock, e: Event, savePast: bool): Option<int>
  {
    if savePast then None else Some(ExpiryAt(clock.instant(e.dateStart)))
  }

  /** With the intended `ttl`, an event that has not started yet is never written
      already expired, and it expires in the second it starts. */
  lemma ExpiryNotBeforeSave(clock: Clock, e: Event)
    requires !HasStarted(clock, e)
    ensures TtlForIntended(clock, e, false).Some?
    ensures clock.now / 1000 <= TtlForIntended(clock, e, false).value
    ensures var ttl := TtlForIntended(clock, e, false).value;
      ttl * 1000 <= clock.instant(e.dateStart) < ttl * 1000 + 1000
  {
    var n := clock.now / 1000;
    assert n * 1000 <= clock.now;
  }

  // ---------------------------------------------------------------- encoding

  /** The value the item literal gives attribute `a`. */
  function UpcomingValue(u: UpcomingEvent, ttl: Option<int>, a: AttrName): Option<AttributeValue>
  {
    match a
    case Url => Some(Str(u.url))
    case DateStart => Some(Str(u.dateStart))
    case DateEnd => Some(Str(u.dateEnd))
    case Title => Some(Str(u.title))
    case Hosts => Some(StrSet(u.hosts))
    case Group => Some(Str(u.group))
    case Address => Some(Str(u.address))
    case Guests => Some(StrSet(u.guests))
    case Attendees => Some(Num(u.attendees as real))
    case Description => Some(Str(u.description))
    case Cover => Some(Str(u.cover))
    case Ttl => if ttl.Some? then Some(Num(ttl.value as real)) else None
    case _ => None
  }

  /** The item `saveEvent` puts. */
  function EncodeUpcoming(u: UpcomingEvent, ttl: Option<int>): Item
  {
    map a | UpcomingValue(u, ttl, a).Some? :: UpcomingValue(u, ttl, a).value
  }

  lemma EncodedUpcomingAttr(u: UpcomingEvent, ttl: Option<int>, a: AttrName)
    ensures a in EncodeUpcoming(u, ttl) <==> UpcomingValue(u, ttl, a).Some?
    ensures a in EncodeUpcoming(u, ttl) ==> EncodeUpcoming(u, ttl)[a] == UpcomingValue(u, ttl, a).value
  {
  }

  /** `ttl` is written exactly when past events are not kept, with the given value. */
  lemma EncodeTtl(u: UpcomingEvent, ttl: Option<int>)
    ensures Ttl in EncodeUpcoming(u, ttl) <==> ttl.Some?
    ensures ttl.Some? ==> EncodeUpcoming(u, ttl)[Ttl] == Num(ttl.value as real)
  {
    EncodedUpcomingAttr(u, ttl, Ttl);
  }

  /** Hosts and guests are written even when empty, and DynamoDB refuses an empty
      string set: the item is accepted exactly when the url, the hosts and the
      guests are all non-empty. */
  lemma EncodeUpcomingStorable(u: UpcomingEvent, ttl: Option<int>)
    ensures Storable(EncodeUpcoming(u, ttl)) <==> u.url != "" && |u.hosts| > 0 && |u.guests| > 0
  {
    var item := EncodeUpcoming(u, ttl);
    EncodedUpcomingAttr(u, ttl, Url);
    EncodedUpcomingAttr(u, ttl, Hosts);
    EncodedUpcomingAttr(u, ttl, Guests);
    if u.url != "" && |u.hosts| > 0 && |u.guests| > 0 {
      forall a | a in item ensures !EmptySet(item[a]) {
        EncodedUpcomingAttr(u, ttl, a);
      }
    }
  }

  // ---------------------------------------------------------------- decoding

  /** The attributes `getEvent` dereferences, in the order it reads them. */
  const ReadOrder: seq<AttrName> :=
    [Url, DateStart, DateEnd, Title, Hosts, Group, Address, Guests, Attendees, Description, Cover]

  /** The member the read of attribute `a` asks for. */
  function Member(a: AttrName): string
  {
    match a
    case Hosts => "SS"
    case Guests => "SS"
    case Attendees => "N"
    case _ => "S"
  }

  /** The first attribute of `order` the item lacks. */
  function FirstMissing(item: Item, order: seq<AttrName>): (r: Option<AttrName>)
    ensures r.None? <==> forall i :: 0 <= i < |order| ==> order[i] in item
    ensures r.Some? ==> r.value in order && r.value !in item
  {
    if order == [] then None
    else if order[0] !in item then Some(order[0])
    else FirstMissing(item, order[1..])
  }

  /** Reading `item.a.S` (or `.SS`, `.N`) of an absent attribute throws. */
  function MissingError(a: AttrName): string
  {
    "TypeError: Cannot read properties of undefined (reading '" + Member(a) + "')"
  }

  /** The object `getEvent` and `getAllEvents` build from an item: `S || ""`,
      `SS || []`, and `N ? parseInt(N) : 0`, with no optional chaining. */
  function DecodeUpcoming(item: Item): (r: Result<UpcomingEvent>)
    ensures r.Err? <==> exists i :: 0 <= i < |ReadOrder| && ReadOrder[i] !in item
  {
    match FirstMissing(item, ReadOrder)
    case Some(a) => Err(MissingError(a))
    case None =>
      Ok(UpcomingEvent(
        StrOr(item, Url), StrOr(item, DateStart), StrOr(item, DateEnd), StrOr(item, Title),
        SetOr(item, Hosts), StrOr(item, Group), StrOr(item, Address), SetOr(item, Guests),
        IntOrNull(item, Attendees).GetOr(0), StrOr(item, Description), StrOr(item, Cover)))
  }

  lemma ReadBackStrings(u: UpcomingEvent, ttl: Option<int>)
    ensures var item := EncodeUpcoming(u, ttl);
      StrOr(item, Url) == u.url && StrOr(item, DateStart) == u.dateStart &&
      StrOr(item, DateEnd) == u.dateEnd && StrOr(item, Title) == u.title
  {
    EncodedUpcomingAttr(u, ttl, Url);
    EncodedUpcomingAttr(u, ttl, DateStart);
    EncodedUpcomingAttr(u, ttl, DateEnd);
    EncodedUpcomingAttr(u, ttl, Title);
  }

  lemma ReadBackDetails(u: UpcomingEvent, ttl: Option<int>)
    ensures var item := EncodeUpcoming(u, ttl);
      StrOr(item, Group) == u.group && StrOr(item, Address) == u.address &&
      StrOr(item, Description) == u.description && StrOr(item, Cover) == u.cover
  {
    EncodedUpcomingAttr(u, ttl, Group);
    EncodedUpcomingAttr(u, ttl, Address);
    EncodedUpcomingAttr(u, ttl, Description);
    EncodedUpcomingAttr(u, ttl, Cover);
  }

  lemma ReadBackPeople(u: UpcomingEvent, ttl: Option<int>)
    ensures var item := EncodeUpcoming(u, ttl);
      SetOr(item, Hosts) == u.hosts && SetOr(item, Guests) == u.guests &&
      IntOrNull(item, Attendees) == Some(u.attendees)
  {
    EncodedUpcomingAttr(u, ttl, Hosts);
    EncodedUpcomingAttr(u, ttl, Guests);
    EncodedUpcomingAttr(u, ttl, Attendees);
    assert Trunc(u.attendees as real) == u.attendees;
  }

  /** The item literal gives each of the eleven read attributes a value. */
  lemma ReadOrderValued(u: UpcomingEvent, ttl: Option<int>, i: nat)
    requires i < |ReadOrder|
    ensures UpcomingValue(u, ttl, ReadOrder[i]).Some?
  {
  }

  lemma EncodeHasReadOrder(u: UpcomingEvent, ttl: Option<int>)
    ensures FirstMissing(EncodeUpcoming(u, ttl), ReadOrder) == None
  {
    forall i | 0 <= i < |ReadOrder| ensures ReadOrder[i] in EncodeUpcoming(u, ttl) {
      ReadOrderValued(u, ttl, i);
      EncodedUpcomingAttr(u, ttl, ReadOrder[i]);
    }
  }

  /** Every written field reads back unchanged, whether or not `ttl` was written. */
  lemma UpcomingRoundTrip(u: UpcomingEvent, ttl: Option<int>)
    ensures DecodeUpcoming(EncodeUpcoming(u, ttl)) == Ok(u)
  {
    EncodeHasReadOrder(u, ttl);
    ReadBackStrings(u, ttl);
    ReadBackDetails(u, ttl);
    ReadBackPeople(u, ttl);
  }

  /** An item missing any of the eleven attributes makes the read throw. */
  lemma DecodeMissing(item: Item, a: AttrName)
    requires a in ReadOrder && a !in item
    ensures DecodeUpcoming(item).Err?
  {
  }

  // ---------------------------------------------------------------- operations

  /** `getEvent` over the table's contents. */
  function Lookup(items: map<string, Item>, status: int, url: string): (r: Result<Option<UpcomingEvent>>)
    ensures url == "" ==> r == Err("ValidationException")
    ensures url != "" && status != 200 ==> r == Err("Bad status code")
    ensures url != "" && status == 200 && url !in items ==> r == Ok(None)
    ensures url != "" && status == 200 && url in items ==>
      (r.Ok? <==> DecodeUpcoming(items[url]).Ok?) &&
      (r.Ok? ==> r.value == Some(DecodeUpcoming(items[url]).value))
  {
    if url == "" then Err("ValidationException")
    else if status != 200 then Err("Bad status code")
    else if url !in items then Ok(None)
    else
      match DecodeUpcoming(items[url])
      case Err(m) => Err(m)
      case Ok(u) => Ok(Some(u))
  }

  function GetEvent(table: Table, status: int, url: string): Result<Option<UpcomingEvent>>
    reads table
  {
    Lookup(table.items, status, url)
  }

  /** Reading back an event just written gives its eleven fields; an empty url,
      which the save refuses, cannot be read either. */
  lemma SaveThenLookup(items: map<string, Item>, u: UpcomingEvent, ttl: Option<int>)
    ensures u.url == "" ==> Lookup(items[u.url := EncodeUpcoming(u, ttl)], 200, u.url) == Err("ValidationException")
    ensures u.url != "" ==> Lookup(items[u.url := EncodeUpcoming(u, ttl)], 200, u.url) == Ok(Some(u))
  {
    UpcomingRoundTrip(u, ttl);
  }

  /** The caller's event after `saveEvent` reassigns its hosts and guests. */
  function WithUniquePeople(e: Event): Event
  {
    e.(hosts := Dedup(e.hosts), guests := Dedup(e.guests))
  }

  /** `saveEvent(item, savePast)`. An event that has started is deleted unless past
      events are kept; any other is written with its hosts and guests deduped and,
      unless past events are kept, the seconds from now until its start as `ttl`. */
  method SaveEvent(table: Table, clock: Clock, event: Event, savePast: bool) returns (written: Event, r: Result<()>)
    modifies table
    ensures !savePast && HasStarted(clock, event) ==>
      written == event &&
      (event.url == "" ==> r == Err("ValidationException") && table.items == old(table.items)) &&
      (event.url != "" ==> r.Ok? && table.items == old(table.items) - {event.url})
    ensures savePast || !HasStarted(clock, event) ==>
      written == WithUniquePeople(event) &&
      var item := EncodeUpcoming(Project(written), TtlFor(clock, event, savePast));
      (Storable(item) ==> r.Ok? && table.items == old(table.items)[event.url := item]) &&
      (!Storable(item) ==> r == Err("ValidationException") && table.items == old(table.items))
    ensures savePast && r.Ok? ==> event.url in table.items && Ttl !in table.items[event.url]
    ensures !savePast && !HasStarted(clock, event) && r.Ok? ==>
      var ttl := TtlAsWritten(clock.now, clock.instant(event.dateStart));
      0 <= ttl && ttl * 1000 <= clock.instant(event.dateStart) - clock.now < ttl * 1000 + 1000 &&
      event.url in table.items && Ttl in table.items[event.url] &&
      table.items[event.url][Ttl] == Num(ttl as real)
  {
    written := event;
    if !savePast && clock.instant(event.dateStart) < clock.now {
      r := table.DeleteItem(event.url);
      return;
    }
    written := WithUniquePeople(event);
    var item := EncodeUpcoming(Project(written), TtlFor(clock, event, savePast));
    EncodedUpcomingAttr(Project(written), TtlFor(clock, event, savePast), Url);
    EncodeTtl(Project(written), TtlFor(clock, event, savePast));
    if !savePast {
      TtlForCountsDown(clock, event);
    }
    r := table.PutItem(item);
  }

  /** `deleteEvent`. */
  method DeleteEvent(table: Table, url: string) returns (r: Result<()>)
    modifies table
    ensures url == "" ==> r.Err? && table.items == old(table.items)
    ensures url != "" ==> r.Ok? && table.items == old(table.items) - {url}
  {
    r := table.DeleteItem(url);
  }

  /** `deleteAllEvents` over one scan page. */
  method DeleteAllEvents(table: Table, status: int, scanned: seq<Item>) returns (r: Result<()>)
    modifies table
    ensures status != 200 ==> r == Err("Bad status code") && table.items == old(table.items)
    ensures status == 200 ==>
      table.items == old(table.items) - ScannedUrls(scanned[..FirstWithoutUrl(scanned)]) &&
      (r.Ok? <==> FirstWithoutUrl(scanned) == |scanned|)
  {
    r := table.DeleteScanned(status, scanned);
  }

  /** `items.map(...)`: the decoded items in scan order, or the first read error. */
  function DecodeAll(items: seq<Item>): (r: Result<seq<UpcomingEvent>>)
    ensures r.Ok? <==> forall i :: 0 <= i < |items| ==> DecodeUpcoming(items[i]).Ok?
    ensures r.Ok? ==> |r.value| == |items|
    ensures r.Ok? ==> forall i :: 0 <= i < |items| ==> r.value[i] == DecodeUpcoming(items[i]).value
  {
    if items == [] then Ok([])
    else
      match DecodeUpcoming(items[0])
      case Err(m) => Err(m)
      case Ok(u) =>
        match DecodeAll(items[1..])
        case Err(m) => Err(m)
        case Ok(us) => Ok([u] + us)
  }

  /** `getAllEvents` over one scan page. */
  function GetAllEvents(status: int, scanned: seq<Item>): (r: Result<seq<UpcomingEvent>>)
    ensures status != 200 ==> r == Err("Bad status code")
    ensures status == 200 ==> r == DecodeAll(scanned)
  {
    if status != 200 then Err("Bad status code") else DecodeAll(scanned)
  }

  /** A page whose every item decodes gives exactly those events. */
  lemma DecodeAllOk(items: seq<Item>, us: seq<UpcomingEvent>)
    requires |items| == |us|
    requires forall i :: 0 <= i < |items| ==> DecodeUpcoming(items[i]) == Ok(us[i])
    ensures DecodeAll(items) == Ok(us)
  {
    var r := DecodeAll(items);
    assert r.Ok?;
    assert r.value == us;
  }

  /** A page of items written by `saveEvent` decodes to the events written. */
  lemma DecodeAllOfSaved(us: seq<UpcomingEvent>, ttls: seq<Option<int>>)
    requires |ttls| == |us|
    ensures DecodeAll(seq(|us|, i requires 0 <= i < |us| => EncodeUpcoming(us[i], ttls[i]))) == Ok(us)
  {
    var items := seq(|us|, i requires 0 <= i < |us| => EncodeUpcoming(us[i], ttls[i]));
    forall i | 0 <= i < |us| ensures DecodeUpcoming(items[i]) == Ok(us[i]) {
      UpcomingRoundTrip(us[i], ttls[i]);
    }
    DecodeAllOk(items, us);
  }
}
