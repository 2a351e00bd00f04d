/** The post-status table: for each event posted to social media, when it was
    posted to Bluesky and to Twitter and the scores it had then. The post publisher
    reads it to decide whether an event is worth posting again. */
module PostStatusStorage {
  import opened Common
  import opened DynamoDb
  import opened Events
  import opened Conversion

  /** An optional posting date: `undefined`, `null` or a date string. */
  datatype PostedDate = Undefined | Null | Posted(date: string)
  {
    /** The date is truthy. */
    predicate IsSet()
    {
      Posted? && date != ""
    }
  }

  /** A post status; the ten score fields are kept together as `Scores`. */
  datatype PostStatus = PostStatus(
    url: string,
    dateStart: string,
    dateEnd: string,
    blueSkyPostedDate: PostedDate,
    twitterPostedDate: PostedDate,
    scores: Scores)

  /** `d ? { S: d } : null`; a `null` attribute is left out when the item is
      marshalled, so it is never stored. */
  function PostedValue(d: PostedDate): Option<AttributeValue>
  {
    if d.IsSet() then Some(Str(d.date)) else None
  }

  /** The value the item literal gives attribute `a`. */
  function PostStatusValue(p: PostStatus, a: AttrName): Option<AttributeValue>
  {
    match a
    case Url => Some(Str(p.url))
    case DateStart => Some(Str(p.dateStart))
    case DateEnd => Some(Str(p.dateEnd))
    case BlueSkyPostedDate => PostedValue(p.blueSkyPostedDate)
    case TwitterPostedDate => PostedValue(p.twitterPostedDate)
    case NonCommercial => Some(Num(p.scores.nonCommercial))
    case Popularity => Some(Num(p.scores.popularity))
    case FreeAdmision => Some(Num(p.scores.freeAdmision))
    case NoAdditionalExpenses => Some(Num(p.scores.noAdditionalExpenses))
    case DrinksProvided => Some(Num(p.scores.drinksProvided))
    case FoodProvided => Some(Num(p.scores.foodProvided))
    case VenueNiceness => Some(Num(p.scores.venueNiceness))
    case Quietness => Some(Num(p.scores.quietness))
    case Uniqueness => Some(Num(p.scores.uniqueness))
    case Proximity => Some(Num(p.scores.proximity))
    case _ => None
  }

  /** The item `savePostStatus` puts. */
  function EncodePostStatus(p: PostStatus): Item
  {
    map a | PostStatusValue(p, a).Some? :: PostStatusValue(p, a).value
  }

  lemma EncodedPostAttr(p: PostStatus, a: AttrName)
    ensures a in EncodePostStatus(p) <==> PostStatusValue(p, a).Some?
    ensures a in EncodePostStatus(p) ==> EncodePostStatus(p)[a] == PostStatusValue(p, a).value
  {
  }

  /** A posting date is stored only when truthy. */
  lemma EncodePostedDates(p: PostStatus)
    ensures BlueSkyPostedDate in EncodePostStatus(p) <==> p.blueSkyPostedDate.IsSet()
    ensures TwitterPostedDate in EncodePostStatus(p) <==> p.twitterPostedDate.IsSet()
  {
    EncodedPostAttr(p, BlueSkyPostedDate);
    EncodedPostAttr(p, TwitterPostedDate);
  }

  /** The item holds no string set, so DynamoDB accepts it exactly when the url is
      non-empty. */
  lemma EncodePostStatusStorable(p: PostStatus)
    ensures Storable(EncodePostStatus(p)) <==> p.url != ""
  {
    var item := EncodePostStatus(p);
    EncodedPostAttr(p, Url);
    forall a | a in item ensures !EmptySet(item[a]) {
      EncodedPostAttr(p, a);
    }
  }

  /** `item.a?.S`: the date string when present. */
  function PostedOf(item: Item, a: AttrName): PostedDate
  {
    if a in item && item[a].S.Some? then Posted(item[a].S.value) else Undefined
  }

  /** `item.a?.N ? parseFloat(item.a.N) : 0`. */
  function ScoreOr(item: Item, a: AttrName): real
  {
    RealOrNull(item, a).GetOr(0.0)
  }

  /** The object `getPostStatus` builds from an item, with defaults for absent
      attributes. */
  function DecodePostStatus(item: Item): PostStatus
  {
    PostStatus(
      StrOr(item, Url), StrOr(item, DateStart), StrOr(item, DateEnd),
      PostedOf(item, BlueSkyPostedDate), PostedOf(item, TwitterPostedDate),
      Scores(
        ScoreOr(item, NonCommercial), ScoreOr(item, Popularity), ScoreOr(item, FreeAdmision),
        ScoreOr(item, NoAdditionalExpenses), ScoreOr(item, DrinksProvided), ScoreOr(item, FoodProvided),
        ScoreOr(item, VenueNiceness), ScoreOr(item, Quietness), ScoreOr(item, Uniqueness),
        ScoreOr(item, Proximity)))
  }

  /** A date that was not stored reads back as `undefined`. */
  function Stored(d: PostedDate): PostedDate
  {
    if d.IsSet() then d else Undefined
  }

  lemma ReadBackKeys(p: PostStatus)
    ensures var item := EncodePostStatus(p);
      StrOr(item, Url) == p.url && StrOr(item, DateStart) == p.dateStart && StrOr(item, DateEnd) == p.dateEnd
  {
    EncodedPostAttr(p, Url);
    EncodedPostAttr(p, DateStart);
    EncodedPostAttr(p, DateEnd);
  }

  lemma ReadBackDates(p: PostStatus)
    ensures var item := EncodePostStatus(p);
      PostedOf(item, BlueSkyPostedDate) == Stored(p.blueSkyPostedDate) &&
      PostedOf(item, TwitterPostedDate) == Stored(p.twitterPostedDate)
  {
    EncodedPostAttr(p, BlueSkyPostedDate);
    EncodedPostAttr(p, TwitterPostedDate);
  }

  lemma ReadBackScore(p: PostStatus, a: AttrName, x: real)
    requires PostStatusValue(p, a) == Some(Num(x))
    ensures ScoreOr(EncodePostStatus(p), a) == x
  {
    EncodedPostAttr(p, a);
  }

  lemma ReadBackPublicScores(p: PostStatus)
    ensures var item := EncodePostStatus(p);
      ScoreOr(item, NonCommercial) == p.scores.nonCommercial &&
      ScoreOr(item, Popularity) == p.scores.popularity &&
      ScoreOr(item, FreeAdmision) == p.scores.freeAdmision
  {
    ReadBackScore(p, NonCommercial, p.scores.nonCommercial);
    ReadBackScore(p, Popularity, p.scores.popularity);
    ReadBackScore(p, FreeAdmision, p.scores.freeAdmision);
  }

  lemma ReadBackCostScores(p: PostStatus)
    ensures var item := EncodePostStatus(p);
      ScoreOr(item, NoAdditionalExpenses) == p.scores.noAdditionalExpenses &&
      ScoreOr(item, DrinksProvided) == p.scores.drinksProvided
  {
    ReadBackScore(p, NoAdditionalExpenses, p.scores.noAdditionalExpenses);
    ReadBackScore(p, DrinksProvided, p.scores.drinksProvided);
  }

  lemma ReadBackPlaceScores(p: PostStatus)
    ensures var item := EncodePostStatus(p);
      ScoreOr(item, FoodProvided) == p.scores.foodProvided &&
      ScoreOr(item, VenueNiceness) == p.scores.venueNiceness &&
      ScoreOr(item, Quietness) == p.scores.quietness
  {
    ReadBackScore(p, FoodProvided, p.scores.foodProvided);
    ReadBackScore(p, VenueNiceness, p.scores.venueNiceness);
    ReadBackScore(p, Quietness, p.scores.quietness);
  }

  lemma ReadBackOtherScores(p: PostStatus)
    ensures var item := EncodePostStatus(p);
      ScoreOr(item, Uniqueness) == p.scores.uniqueness &&
      ScoreOr(item, Proximity) == p.scores.proximity
  {
    ReadBackScore(p, Uniqueness, p.scores.uniqueness);
    ReadBackScore(p, Proximity, p.scores.proximity);
  }

  /** Reading back a saved status gives it unchanged, except that a posting date
      that was not truthy comes back `undefined`. */
  lemma PostStatusRoundTrip(p: PostStatus)
    ensures DecodePostStatus(EncodePostStatus(p)) ==
      p.(blueSkyPostedDate := Stored(p.blueSkyPostedDate), twitterPostedDate := Stored(p.twitterPostedDate))
  {
    ReadBackKeys(p);
    ReadBackDates(p);
    ReadBackPublicScores(p);
    ReadBackCostScores(p);
    ReadBackPlaceScores(p);
    ReadBackOtherScores(p);
  }

  /** `getPostStatus` over the table's contents. */
  function Lookup(items: map<string, Item>, status: int, url: string): (r: Result<Option<PostStatus>>)
    ensures url == "" ==> r == Err("ValidationException")
    ensures url != "" ==> (status != 200 <==> r.Err?)
    ensures r.Ok? ==> (r.value.Some? <==> url in items)
    ensures r.Ok? && url in items ==> r.value.value == DecodePostStatus(items[url])
  {
    if url == "" then Err("ValidationException")
    else if status != 200 then Err("Bad status code")
    else if url !in items then Ok(None)
    else Ok(Some(DecodePostStatus(items[url])))
  }

  function GetPostStatus(table: Table, status: int, url: string): Result<Option<PostStatus>>
    reads table
  {
    Lookup(table.items, status, url)
  }

  /** The status just saved is the one read back; an empty url, which the save
      refuses, cannot be read either. */
  lemma SaveThenLookup(items: map<string, Item>, p: PostStatus)
    ensures p.url == "" ==> Lookup(items[p.url := EncodePostStatus(p)], 200, p.url) == Err("ValidationException")
    ensures p.url != "" ==>
      Lookup(items[p.url := EncodePostStatus(p)], 200, p.url) ==
      Ok(Some(p.(blueSkyPostedDate := Stored(p.blueSkyPostedDate), twitterPostedDate := Stored(p.twitterPostedDate))))
  {
    PostStatusRoundTrip(p);
  }

  /** `savePostStatus`: puts the encoded status under its url. */
  method SavePostStatus(table: Table, p: PostStatus) returns (r: Result<()>)
    modifies table
    ensures p.url == "" ==> r.Err? && table.items == old(table.items)
    ensures p.url != "" ==> r.Ok? && table.items == old(table.items)[p.url := EncodePostStatus(p)]
  {
    EncodePostStatusStorable(p);
    EncodedPostAttr(p, Url);
    r := table.PutItem(EncodePostStatus(p));
  }

  /** `deletePostStatus`. */
  method DeletePostStatus(table: Table, url: string) returns (r: Result<()>)
    modifies table
    ensures url == "" ==> r.Err? && table.items == old(table.items)
    ensures url != "" ==> r.Ok? && table.items == old(table.items) - {url}
  {
    r := table.DeleteItem(url);
  }

  /** `deleteAllPostStatuses` over one scan page. */
  method DeleteAllPostStatuses(table: Table, status: int, scanned: seq<Item>) returns (r: Result<()>)
    modifies table
    ensures status != 200 ==> r == Err("Bad status code") && table.items == old(table.items)
    ensures status == 200 ==>
      table.items == old(table.items) - ScannedUrls(scanned[..FirstWithoutUrl(scanned)]) &&
      (r.Ok? <==> FirstWithoutUrl(scanned) == |scanned|)
  {
    r := table.DeleteScanned(status, scanned);
  }
}
