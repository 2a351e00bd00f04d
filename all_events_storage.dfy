/** The all-events table: `saveEvent` dedups the list fields of the caller's event,
    writes a DynamoDB item in which meaningless attributes are left out, and
    `getEvent` reads an item back with defaults for absent attributes. */
module AllEventsStorage {
  import opened Common
  import opened JsText
  import opened DynamoDb
  import opened Events
  import opened Conversion

  /** `s && s != "undefined"`: a string worth writing. */
  predicate Meaningful(s: string)
  {
    s != "" && s != "undefined"
  }

  /** The caller's event after `saveEvent` reassigns its hosts, guests and tags
      (lists hold no nulls here, so only the dedup has an effect). */
  function WithUniqueLists(e: Event): Event
  {
    e.(hosts := Dedup(e.hosts), guests := Dedup(e.guests), tags := Dedup(e.tags))
  }

  function StrIfMeaningful(s: string): Option<AttributeValue>
  {
    if Meaningful(s) then Some(Str(s)) else None
  }

  function SetIfNonEmpty(ss: seq<string>): Option<AttributeValue>
  {
    if |ss| > 0 then Some(StrSet(ss)) else None
  }

  function ListOfStrings(ds: seq<string>): seq<AttributeValue>
  {
    seq(|ds|, i requires 0 <= i < |ds| => Str(ds[i]))
  }

  function NullableBool(b: Option<bool>): Option<AttributeValue>
  {
    if b.Some? then Some(Bool(b.value)) else None
  }

  function NullableReal(x: Option<real>): Option<AttributeValue>
  {
    if x.Some? then Some(Num(x.value)) else None
  }

  /** The attributes the item literal names. */
  predicate EventAttr(a: AttrName)
  {
    !(a.Ttl? || a.BlueSkyPostedDate? || a.TwitterPostedDate? || a.NonCommercial? || a.Popularity?
      || a.FreeAdmision? || a.NoAdditionalExpenses? || a.DrinksProvided? || a.FoodProvided?
      || a.VenueNiceness? || a.Quietness? || a.Uniqueness? || a.Proximity? || a.Token?
      || a.Principal? || a.Policy?)
  }

  /** The value the item literal gives attribute `a`, with `undefined` as None. */
  function DraftValue(e: Event, a: AttrName): Option<AttributeValue>
  {
    match a
    case Url => Some(Str(e.url))
    case DateStart => Some(Str(e.dateStart))
    case DateEnd => Some(Str(e.dateEnd))
    case Title => Some(Str(e.title))
    case Hosts => SetIfNonEmpty(e.hosts)
    case Group => StrIfMeaningful(e.group)
    case Address => StrIfMeaningful(e.address)
    case Guests => SetIfNonEmpty(e.guests)
    case Attendees => Some(Num(e.attendees as real))
    case Description => StrIfMeaningful(e.description)
    case Cover => StrIfMeaningful(e.cover)
    case Tags => SetIfNonEmpty(e.tags)
    case Venue => StrIfMeaningful(e.venue)
    case Online => Some(Bool(e.online))
    case EventSeriesDates => if |e.eventSeriesDates| > 0 then Some(List(ListOfStrings(e.eventSeriesDates))) else None
    case Waitlist => NullableBool(e.waitlist)
    case RegistrationClosed => NullableBool(e.registrationClosed)
    case Price => NullableReal(e.price)
    case MinPrice => NullableReal(e.minPrice)
    case MaxPrice => NullableReal(e.maxPrice)
    case SpotsLeft => if e.spotsLeft.Some? then Some(Num(e.spotsLeft.value as real)) else None
    case _ => None
  }

  /** The item literal as a JavaScript object: every named attribute is a key,
      possibly holding `undefined`. */
  function Draft(e: Event): map<AttrName, Option<AttributeValue>>
  {
    map a | EventAttr(a) :: DraftValue(e, a)
  }

  /** The keys of the literal in their written order (`Object.keys(item)`). */
  const DraftKeys: seq<AttrName> := [
    Url, DateStart, DateEnd, Title, Hosts, Group, Address, Guests, Attendees, Description,
    Cover, Tags, Venue, Online, EventSeriesDates, Waitlist, RegistrationClosed,
    Price, MinPrice, MaxPrice, SpotsLeft]

  lemma DraftKeysComplete()
    ensures forall a :: EventAttr(a) ==> a in DraftKeys
  {
    forall a | EventAttr(a) ensures a in DraftKeys {
      match a
      case Url => assert DraftKeys[0] == a;
      case DateStart => assert DraftKeys[1] == a;
      case DateEnd => assert DraftKeys[2] == a;
      case Title => assert DraftKeys[3] == a;
      case Hosts => assert DraftKeys[4] == a;
      case Group => assert DraftKeys[5] == a;
      case Address => assert DraftKeys[6] == a;
      case Guests => assert DraftKeys[7] == a;
      case Attendees => assert DraftKeys[8] == a;
      case Description => assert DraftKeys[9] == a;
      case Cover => assert DraftKeys[10] == a;
      case Tags => assert DraftKeys[11] == a;
      case Venue => assert DraftKeys[12] == a;
      case Online => assert DraftKeys[13] == a;
      case EventSeriesDates => assert DraftKeys[14] == a;
      case Waitlist => assert DraftKeys[15] == a;
      case RegistrationClosed => assert DraftKeys[16] == a;
      case Price => assert DraftKeys[17] == a;
      case MinPrice => assert DraftKeys[18] == a;
      case MaxPrice => assert DraftKeys[19] == a;
      case SpotsLeft => assert DraftKeys[20] == a;
    }
  }

  /** What the cleanup deletes: an undefined value or an empty string set. */
  predicate Dropped(v: Option<AttributeValue>)
  {
    v.None? || (v.value.SS.Some? && |v.value.SS.value| == 0)
  }

  /** The item left once every dropped attribute is deleted. */
  function Cleaned(draft: map<AttrName, Option<AttributeValue>>): Item
  {
    map a | a in draft && !Dropped(draft[a]) :: draft[a].value
  }

  /** The `forEach` over the literal's keys deleting dropped attributes. */
  method RemoveUndefined(draft: map<AttrName, Option<AttributeValue>>, keys: seq<AttrName>) returns (item: Item)
    requires forall a :: a in draft ==> a in keys
    ensures item == Cleaned(draft)
  {
    var obj := draft;
    var i := 0;
    while i < |keys|
      invariant 0 <= i <= |keys|
      invariant forall a :: a in obj <==> a in draft && (a !in keys[..i] || !Dropped(draft[a]))
      invariant forall a :: a in obj ==> obj[a] == draft[a]
    {
      var key := keys[i];
      if key in obj && Dropped(obj[key]) {
        obj := obj - {key};
      }
      assert keys[..i + 1] == keys[..i] + [key];
      i := i + 1;
    }
    assert keys[..i] == keys;
    item := map a | a in obj :: obj[a].value;
  }

  /** The item `saveEvent` writes for an event whose lists are already deduped:
      every attribute whose literal value survives the cleanup. */
  function EncodeEvent(e: Event): Item
  {
    map a | !Dropped(DraftValue(e, a)) :: DraftValue(e, a).value
  }

  /** Only attributes the literal names can survive the cleanup. */
  lemma KeptAreNamed(e: Event, a: AttrName)
    ensures !Dropped(DraftValue(e, a)) ==> EventAttr(a)
  {
  }

  /** The cleanup loop over the literal produces exactly `EncodeEvent`. */
  lemma CleanedDraft(e: Event)
    ensures Cleaned(Draft(e)) == EncodeEvent(e)
  {
    forall a ensures !Dropped(DraftValue(e, a)) ==> EventAttr(a) {
      KeptAreNamed(e, a);
    }
  }

  /** An attribute is written exactly when the literal names it with a value that
      is not dropped, and then it holds that value. */
  lemma EncodedAttr(e: Event, a: AttrName)
    ensures a in EncodeEvent(e) <==> EventAttr(a) && !Dropped(DraftValue(e, a))
    ensures a in EncodeEvent(e) ==> EncodeEvent(e)[a] == DraftValue(e, a).value
  {
    KeptAreNamed(e, a);
  }

  /** Url, dates, title, attendees and online are always written, with their values. */
  lemma EncodeAlwaysWritten(e: Event)
    ensures var item := EncodeEvent(e);
      Url in item && item[Url] == Str(e.url) &&
      DateStart in item && item[DateStart] == Str(e.dateStart) &&
      DateEnd in item && item[DateEnd] == Str(e.dateEnd) &&
      Title in item && item[Title] == Str(e.title) &&
      Attendees in item && item[Attendees] == Num(e.attendees as real) &&
      Online in item && item[Online] == Bool(e.online)
  {
    var item := EncodeEvent(e);
    assert Url in item && item[Url] == Str(e.url) by { EncodedAttr(e, Url); }
    assert DateStart in item && item[DateStart] == Str(e.dateStart) by { EncodedAttr(e, DateStart); }
    assert DateEnd in item && item[DateEnd] == Str(e.dateEnd) by { EncodedAttr(e, DateEnd); }
    assert Title in item && item[Title] == Str(e.title) by { EncodedAttr(e, Title); }
    assert Attendees in item && item[Attendees] == Num(e.attendees as real) by { EncodedAttr(e, Attendees); }
    assert Online in item && item[Online] == Bool(e.online) by { EncodedAttr(e, Online); }
  }

  /** The optional texts are written only when truthy and not "undefined". */
  lemma EncodeTexts(e: Event)
    ensures var item := EncodeEvent(e);
      (Group in item <==> Meaningful(e.group)) && (Address in item <==> Meaningful(e.address)) &&
      (Description in item <==> Meaningful(e.description)) && (Cover in item <==> Meaningful(e.cover)) &&
      (Venue in item <==> Meaningful(e.venue))
  {
    var item := EncodeEvent(e);
    assert Group in item <==> Meaningful(e.group) by { EncodedAttr(e, Group); }
    assert Address in item <==> Meaningful(e.address) by { EncodedAttr(e, Address); }
    assert Description in item <==> Meaningful(e.description) by { EncodedAttr(e, Description); }
    assert Cover in item <==> Meaningful(e.cover) by { EncodedAttr(e, Cover); }
    assert Venue in item <==> Meaningful(e.venue) by { EncodedAttr(e, Venue); }
  }

  /** Lists are written only when non-empty. */
  lemma EncodeLists(e: Event)
    ensures var item := EncodeEvent(e);
      (Hosts in item <==> |e.hosts| > 0) && (Guests in item <==> |e.guests| > 0) &&
      (Tags in item <==> |e.tags| > 0) && (EventSeriesDates in item <==> |e.eventSeriesDates| > 0)
  {
    var item := EncodeEvent(e);
    assert Hosts in item <==> |e.hosts| > 0 by { EncodedAttr(e, Hosts); }
    assert Guests in item <==> |e.guests| > 0 by { EncodedAttr(e, Guests); }
    assert Tags in item <==> |e.tags| > 0 by { EncodedAttr(e, Tags); }
    assert EventSeriesDates in item <==> |e.eventSeriesDates| > 0 by { EncodedAttr(e, EventSeriesDates); }
  }

  /** Nullable fields are written only when not null, and `ttl` is never written. */
  lemma EncodeNullables(e: Event)
    ensures var item := EncodeEvent(e);
      (Waitlist in item <==> e.waitlist.Some?) && (RegistrationClosed in item <==> e.registrationClosed.Some?) &&
      (Price in item <==> e.price.Some?) && (SpotsLeft in item <==> e.spotsLeft.Some?) &&
      Ttl !in item
  {
    var item := EncodeEvent(e);
    assert Waitlist in item <==> e.waitlist.Some? by { EncodedAttr(e, Waitlist); }
    assert RegistrationClosed in item <==> e.registrationClosed.Some? by { EncodedAttr(e, RegistrationClosed); }
    assert Price in item <==> e.price.Some? by { EncodedAttr(e, Price); }
    assert SpotsLeft in item <==> e.spotsLeft.Some? by { EncodedAttr(e, SpotsLeft); }
    assert Ttl !in item by { EncodedAttr(e, Ttl); }
  }

  /** After the cleanup no attribute is an empty string set, so DynamoDB accepts
      the item exactly when the event has a url. */
  lemma EncodeStorable(e: Event)
    ensures forall a :: a in EncodeEvent(e) ==> !EmptySet(EncodeEvent(e)[a])
    ensures Storable(EncodeEvent(e)) <==> e.url != ""
  {
    EncodedAttr(e, Url);
  }

  /** What reading the item back gives: deduped lists, "undefined" texts as empty,
      and null flags as `false`. */
  function Stored(e: Event): Event
  {
    var u := WithUniqueLists(e);
    u.(group := if Meaningful(e.group) then e.group else "",
       address := if Meaningful(e.address) then e.address else "",
       description := if Meaningful(e.description) then e.description else "",
       cover := if Meaningful(e.cover) then e.cover else "",
       venue := if Meaningful(e.venue) then e.venue else "",
       waitlist := Some(e.waitlist.GetOr(false)),
       registrationClosed := Some(e.registrationClosed.GetOr(false)))
  }

  // Reading one attribute of an encoded item back, one lemma per kind of field.

  lemma ReadRequiredText(e: Event, a: AttrName, s: string)
    requires EventAttr(a) && DraftValue(e, a) == Some(Str(s))
    ensures StrOr(EncodeEvent(e), a) == s
  {
    EncodedAttr(e, a);
  }

  lemma ReadOptionalText(e: Event, a: AttrName, s: string)
    requires EventAttr(a) && DraftValue(e, a) == StrIfMeaningful(s)
    ensures StrOr(EncodeEvent(e), a) == if Meaningful(s) then s else ""
  {
    EncodedAttr(e, a);
  }

  lemma ReadSet(e: Event, a: AttrName, ss: seq<string>)
    requires EventAttr(a) && DraftValue(e, a) == SetIfNonEmpty(ss)
    ensures SetOr(EncodeEvent(e), a) == ss
  {
    EncodedAttr(e, a);
  }

  lemma ReadFlag(e: Event, a: AttrName, b: Option<bool>)
    requires EventAttr(a) && DraftValue(e, a) == NullableBool(b)
    ensures BoolOr(EncodeEvent(e), a) == b.GetOr(false)
  {
    EncodedAttr(e, a);
  }

  lemma ReadReal(e: Event, a: AttrName, x: Option<real>)
    requires EventAttr(a) && DraftValue(e, a) == NullableReal(x)
    ensures RealOrNull(EncodeEvent(e), a) == x
  {
    EncodedAttr(e, a);
  }

  lemma ReadInt(e: Event, a: AttrName, n: Option<int>)
    requires EventAttr(a) && DraftValue(e, a) == (if n.Some? then Some(Num(n.value as real)) else None)
    ensures IntOrNull(EncodeEvent(e), a) == n
  {
    EncodedAttr(e, a);
    if n.Some? {
      assert Trunc(n.value as real) == n.value;
    }
  }

  lemma ReadOnline(e: Event)
    ensures BoolOr(EncodeEvent(e), Online) == e.online
  {
    EncodedAttr(e, Online);
  }

  lemma ReadSeriesDates(e: Event)
    ensures StrListOr(EncodeEvent(e), EventSeriesDates) == e.eventSeriesDates
  {
    EncodedAttr(e, EventSeriesDates);
    var ds := e.eventSeriesDates;
    if |ds| > 0 {
      var item := EncodeEvent(e);
      var l := item[EventSeriesDates].L.value;
      assert l == ListOfStrings(ds);
      var xs := seq(|item[EventSeriesDates].L.value|, i requires 0 <= i < |item[EventSeriesDates].L.value| => item[EventSeriesDates].L.value[i].S);
      assert StrListOr(item, EventSeriesDates) == Somes(xs);
      assert xs == seq(|ds|, i requires 0 <= i < |ds| => Str(ds[i]).S);
      StrListOfStrings(ds);
    }
  }

  /** An item whose attributes read back as the fields of `d` decodes to `d`. */
  lemma DecodeFromReads(item: Item, d: Event)
    requires StrOr(item, Url) == d.url && StrOr(item, DateStart) == d.dateStart
    requires StrOr(item, DateEnd) == d.dateEnd && StrOr(item, Title) == d.title
    requires SetOr(item, Hosts) == d.hosts && StrOr(item, Group) == d.group
    requires StrOr(item, Address) == d.address && SetOr(item, Guests) == d.guests
    requires IntOrNull(item, Attendees) == Some(d.attendees) && StrOr(item, Description) == d.description
    requires StrOr(item, Cover) == d.cover && SetOr(item, Tags) == d.tags
    requires StrOr(item, Venue) == d.venue && BoolOr(item, Online) == d.online
    requires StrListOr(item, EventSeriesDates) == d.eventSeriesDates
    requires RealOrNull(item, Price) == d.price && RealOrNull(item, MinPrice) == d.minPrice
    requires RealOrNull(item, MaxPrice) == d.maxPrice && IntOrNull(item, SpotsLeft) == d.spotsLeft
    requires Some(BoolOr(item, Waitlist)) == d.waitlist
    requires Some(BoolOr(item, RegistrationClosed)) == d.registrationClosed
    ensures ConvertItemImage(item) == d
  {
  }

  lemma ReadBackRequired(u: Event)
    ensures var item := EncodeEvent(u);
      StrOr(item, Url) == u.url && StrOr(item, DateStart) == u.dateStart &&
      StrOr(item, DateEnd) == u.dateEnd && StrOr(item, Title) == u.title
  {
    ReadRequiredText(u, Url, u.url);
    ReadRequiredText(u, DateStart, u.dateStart);
    ReadRequiredText(u, DateEnd, u.dateEnd);
    ReadRequiredText(u, Title, u.title);
  }

  lemma ReadBackOptional(u: Event)
    ensures var item := EncodeEvent(u);
      StrOr(item, Group) == (if Meaningful(u.group) then u.group else "") &&
      StrOr(item, Address) == (if Meaningful(u.address) then u.address else "") &&
      StrOr(item, Description) == (if Meaningful(u.description) then u.description else "")
  {
    ReadOptionalText(u, Group, u.group);
    ReadOptionalText(u, Address, u.address);
    ReadOptionalText(u, Description, u.description);
  }

  lemma ReadBackCoverVenue(u: Event)
    ensures var item := EncodeEvent(u);
      StrOr(item, Cover) == (if Meaningful(u.cover) then u.cover else "") &&
      StrOr(item, Venue) == (if Meaningful(u.venue) then u.venue else "")
  {
    ReadOptionalText(u, Cover, u.cover);
    ReadOptionalText(u, Venue, u.venue);
  }

  lemma ReadBackSets(u: Event)
    ensures var item := EncodeEvent(u);
      SetOr(item, Hosts) == u.hosts && SetOr(item, Guests) == u.guests && SetOr(item, Tags) == u.tags
  {
    ReadSet(u, Hosts, u.hosts);
    ReadSet(u, Guests, u.guests);
    ReadSet(u, Tags, u.tags);
  }

  lemma ReadBackNumbers(u: Event)
    ensures var item := EncodeEvent(u);
      RealOrNull(item, Price) == u.price && RealOrNull(item, MinPrice) == u.minPrice &&
      RealOrNull(item, MaxPrice) == u.maxPrice
  {
    ReadReal(u, Price, u.price);
    ReadReal(u, MinPrice, u.minPrice);
    ReadReal(u, MaxPrice, u.maxPrice);
  }

  lemma ReadBackCounts(u: Event)
    ensures var item := EncodeEvent(u);
      IntOrNull(item, Attendees) == Some(u.attendees) && IntOrNull(item, SpotsLeft) == u.spotsLeft
  {
    ReadInt(u, Attendees, Some(u.attendees));
    ReadInt(u, SpotsLeft, u.spotsLeft);
  }

  lemma ReadBackFlags(u: Event)
    ensures var item := EncodeEvent(u);
      BoolOr(item, Waitlist) == u.waitlist.GetOr(false) &&
      BoolOr(item, RegistrationClosed) == u.registrationClosed.GetOr(false) &&
      BoolOr(item, Online) == u.online
  {
    ReadFlag(u, Waitlist, u.waitlist);
    ReadFlag(u, RegistrationClosed, u.registrationClosed);
    ReadOnline(u);
  }

  /** Reading back what `saveEvent` wrote gives the stored view of the event. */
  lemma RoundTrip(e: Event)
    ensures ConvertItemImage(EncodeEvent(WithUniqueLists(e))) == Stored(e)
  {
    var u := WithUniqueLists(e);
    ReadBackRequired(u);
    ReadBackOptional(u);
    ReadBackCoverVenue(u);
    ReadBackSets(u);
    ReadBackNumbers(u);
    ReadBackCounts(u);
    ReadBackFlags(u);
    ReadSeriesDates(u);
    DecodeFromReads(EncodeEvent(u), Stored(e));
  }

  /** Saving and reading back again changes nothing more: the stored view is a
      fixed point. */
  lemma StoredIdempotent(e: Event)
    ensures Stored(Stored(e)) == Stored(e)
  {
    DedupIdempotent(e.hosts);
    DedupIdempotent(e.guests);
    DedupIdempotent(e.tags);
  }

  /** `getEvent`: Err for an empty url or a bad status, None for a missing item,
      else the decoded item. */
  function GetEvent(table: Table, status: int, url: string): (r: Result<Option<Event>>)
    reads table
    ensures url == "" ==> r == Err("ValidationException")
    ensures url != "" ==> (r.Err? <==> status != 200)
    ensures r.Ok? ==> (r.value.Some? <==> url in table.items)
    ensures r.Ok? && r.value.Some? ==> r.value.value == ConvertItemImage(table.items[url])
  {
    match table.GetItem(status, url)
    case Err(m) => Err(m)
    case Ok(None) => Ok(None)
    case Ok(Some(item)) => Ok(Some(ConvertItemImage(item)))
  }

  /** `saveEvent`: dedups the caller's lists (returned as `written`), then puts the
      encoded item under the event's url. */
  method SaveEvent(table: Table, event: Event) returns (written: Event, r: Result<()>)
    modifies table
    ensures written == WithUniqueLists(event)
    ensures event.url == "" ==> r == Err("ValidationException") && table.items == old(table.items)
    ensures event.url != "" ==> r.Ok? && table.items == old(table.items)[event.url := EncodeEvent(written)]
  {
    written := WithUniqueLists(event);
    DraftKeysComplete();
    var item := RemoveUndefined(Draft(written), DraftKeys);
    CleanedDraft(written);
    EncodeStorable(written);
    r := table.PutItem(item);
  }

  /** `deleteEvent`: removes the item stored under `url`. */
  method DeleteEvent(table: Table, url: string) returns (r: Result<()>)
    modifies table
    ensures url == "" ==> r.Err? && table.items == old(table.items)
    ensures url != "" ==> r.Ok? && table.items == old(table.items) - {url}
  {
    r := table.DeleteItem(url);
  }

  /** `deleteAllEvents` over one scan page. */
  method DeleteAllEvents(table: Table, status: int, scanned: seq<Item>) returns (r: Result<()>)
    modifies table
    ensures status != 200 ==> r == Err("Bad status code") && table.items == old(table.items)
    ensures status == 200 ==>
      table.items == old(table.items) - ScannedUrls(scanned[..FirstWithoutUrl(scanned)]) &&
      (r.Ok? <==> FirstWithoutUrl(scanned) == |scanned|)
  {
    r := table.DeleteScanned(status, scanned);
  }
}
