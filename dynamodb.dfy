/** DynamoDB as the source sees it: attribute values with optional `S`, `N`, `SS`,
    `BOOL` and `L` members, items keyed by attribute name, stream records, and a
    table keyed by its `url` string. A number attribute's decimal string is
    represented by the number it denotes. */
module DynamoDb {
  import opened Common

  /** Every attribute name the core reads or writes, as written in the source
      (`Url` is `url`, `NonCommercial` is `non_commercial`, `Ttl` is `ttl`, ...). */
  datatype AttrName =
    | Url | DateStart | DateEnd | Title | Hosts | Group | Address | Guests | Attendees
    | Description | Cover | Tags | Venue | Online | EventSeriesDates | Price | MinPrice
    | MaxPrice | SpotsLeft | Waitlist | RegistrationClosed | Ttl
    | BlueSkyPostedDate | TwitterPostedDate
    | NonCommercial | Popularity | FreeAdmision | NoAdditionalExpenses | DrinksProvided
    | FoodProvided | VenueNiceness | Quietness | Uniqueness | Proximity
    | Token | Principal | Policy

  datatype AttributeValue = AttributeValue(
    S: Option<string>,
    N: Option<real>,
    SS: Option<seq<string>>,
    BOOL: Option<bool>,
    L: Option<seq<AttributeValue>>)

  type Item = map<AttrName, AttributeValue>

  function Str(s: string): AttributeValue { AttributeValue(Some(s), None, None, None, None) }
  function Num(x: real): AttributeValue { AttributeValue(None, Some(x), None, None, None) }
  function StrSet(ss: seq<string>): AttributeValue { AttributeValue(None, None, Some(ss), None, None) }
  function Bool(b: bool): AttributeValue { AttributeValue(None, None, None, Some(b), None) }
  function List(l: seq<AttributeValue>): AttributeValue { AttributeValue(None, None, None, None, Some(l)) }

  /** `parseInt` of a number's decimal string: the integer part, truncated toward zero. */
  function Trunc(x: real): (n: int)
    ensures x >= 0.0 ==> n as real <= x < n as real + 1.0
    ensures x < 0.0 ==> n as real - 1.0 < x <= n as real
  {
    if x >= 0.0 then x.Floor else -((-x).Floor)
  }

  /** One record of a table's change stream. */
  datatype StreamRecord = StreamRecord(eventName: string, newImage: Option<Item>, oldImage: Option<Item>)

  /** `item.url.S` when it is a non-empty string: the key the delete loops use. */
  function UrlKey(item: Item): Option<string>
  {
    if Url in item && item[Url].S.Some? && item[Url].S.value != "" then Some(item[Url].S.value) else None
  }

  /** An attribute value DynamoDB refuses to store: a string set with no member. */
  predicate EmptySet(v: AttributeValue)
  {
    v.SS == Some([])
  }

  /** An item PutItem accepts: a non-empty url key and no empty string set. */
  predicate Storable(item: Item)
  {
    UrlKey(item).Some? && forall a :: a in item ==> !EmptySet(item[a])
  }

  /** The index of the first scanned item with no `url` attribute, where reading
      `item.url.S` throws; `|scanned|` when there is none. */
  function FirstWithoutUrl(scanned: seq<Item>): (n: nat)
    ensures n <= |scanned|
    ensures forall j :: 0 <= j < n ==> Url in scanned[j]
    ensures n < |scanned| ==> Url !in scanned[n]
  {
    if scanned == [] then 0
    else if Url !in scanned[0] then 0
    else 1 + FirstWithoutUrl(scanned[1..])
  }

  /** The urls of the scanned items that have a non-empty one. */
  function ScannedUrls(scanned: seq<Item>): (urls: set<string>)
  {
    if scanned == [] then {}
    else
      var last := scanned[|scanned| - 1];
      ScannedUrls(scanned[..|scanned| - 1]) + (if UrlKey(last).Some? then {UrlKey(last).value} else {})
  }

  /** A url is collected exactly when some scanned item carries it. */
  lemma {:induction false} ScannedUrlsSpec(scanned: seq<Item>, url: string)
    ensures url in ScannedUrls(scanned) <==> exists j :: 0 <= j < |scanned| && UrlKey(scanned[j]) == Some(url)
  {
    if scanned != [] {
      var init := scanned[..|scanned| - 1];
      ScannedUrlsSpec(init, url);
      if url in ScannedUrls(scanned) && url !in ScannedUrls(init) {
        assert UrlKey(scanned[|scanned| - 1]) == Some(url);
      }
      if exists j :: 0 <= j < |scanned| && UrlKey(scanned[j]) == Some(url) {
        var j :| 0 <= j < |scanned| && UrlKey(scanned[j]) == Some(url);
        if j < |scanned| - 1 {
          assert init[j] == scanned[j];
        }
      }
    }
  }

  /** What a sequence of writes to a table produced: how it ended and the items
      stored afterwards. */
  datatype Outcome = Outcome(result: Result<()>, items: map<string, Item>)

  /** One table, keyed by the `url` attribute's string. */
  class Table {
    var items: map<string, Item>

    constructor(items: map<string, Item>)
      ensures this.items == items
    {
      this.items := items;
    }

    /** GetItem: DynamoDB rejects an empty key before answering; otherwise Err on a
        status other than 200, and the item if present. */
    function GetItem(status: int, url: string): (r: Result<Option<Item>>)
      reads this
      ensures url == "" ==> r == Err("ValidationException")
      ensures url != "" ==> (r.Err? <==> status != 200)
      ensures r.Ok? ==> (r.value.Some? <==> url in items)
      ensures r.Ok? && r.value.Some? ==> r.value.value == items[url]
    {
      if url == "" then Err("ValidationException")
      else if status != 200 then Err("Bad status code")
      else if url in items then Ok(Some(items[url]))
      else Ok(None)
    }

    /** PutItem replaces the whole item stored under its url. DynamoDB rejects an
        item whose key is missing or empty, or that holds an empty string set. */
    method PutItem(item: Item) returns (r: Result<()>)
      modifies this
      ensures !Storable(item) ==> r == Err("ValidationException") && items == old(items)
      ensures Storable(item) ==> r.Ok? && items == old(items)[UrlKey(item).value := item]
    {
      if !Storable(item) {
        return Err("ValidationException");
      }
      items := items[UrlKey(item).value := item];
      return Ok(());
    }

    /** DeleteItem removes the item under `url`, if any; an empty key is rejected. */
    method DeleteItem(url: string) returns (r: Result<()>)
      modifies this
      ensures url == "" ==> r == Err("ValidationException") && items == old(items)
      ensures url != "" ==> r.Ok? && items == old(items) - {url}
    {
      if url == "" {
        return Err("ValidationException");
      }
      items := items - {url};
      return Ok(());
    }

    /** The delete-all loop over one scan page: Err on a status other than 200;
        otherwise each item with a non-empty url is deleted in scan order, until an
        item without a `url` attribute makes `item.url.S` throw. */
    method DeleteScanned(status: int, scanned: seq<Item>) returns (r: Result<()>)
      modifies this
      ensures status != 200 ==> r == Err("Bad status code") && items == old(items)
      ensures status == 200 ==>
        items == old(items) - ScannedUrls(scanned[..FirstWithoutUrl(scanned)]) &&
        (r.Ok? <==> FirstWithoutUrl(scanned) == |scanned|)
    {
      if status != 200 {
        return Err("Bad status code");
      }
      var i := 0;
      while i < |scanned|
        invariant 0 <= i <= FirstWithoutUrl(scanned)
        invariant items == old(items) - ScannedUrls(scanned[..i])
      {
        var item := scanned[i];
        if Url !in item {
          return Err("TypeError: Cannot read properties of undefined (reading 'S')");
        }
        assert scanned[..i + 1][..i] == scanned[..i];
        var url := UrlKey(item);
        var gone := if url.Some? then {url.value} else {};
        assert ScannedUrls(scanned[..i + 1]) == ScannedUrls(scanned[..i]) + gone;
        assert old(items) - ScannedUrls(scanned[..i + 1]) == items - gone;
        if url.Some? {
          var _ := DeleteItem(url.value);
        }
        i := i + 1;
      }
      assert scanned[..i] == scanned;
      return Ok(());
    }
  }
}
