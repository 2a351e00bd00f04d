/** `convertItemImageToItem`: reading an `Event` back out of a DynamoDB item image,
    with a default for every attribute that is absent. The all-events table's
    `getEvent` applies the same mapping to a stored item. */
module Conversion {
  import opened Common
  import opened DynamoDb
  import opened Events

  /** `item.a?.S || ""`. */
  function StrOr(item: Item, a: AttrName): (s: string)
    ensures a !in item ==> s == ""
    ensures a in item && item[a].S.Some? ==> s == item[a].S.value
  {
    if a in item && item[a].S.Some? then item[a].S.value else ""
  }

  /** `item.a?.SS || []` (an array is truthy even when empty). */
  function SetOr(item: Item, a: AttrName): (ss: seq<string>)
    ensures a !in item ==> ss == []
    ensures a in item && item[a].SS.Some? ==> ss == item[a].SS.value
  {
    if a in item && item[a].SS.Some? then item[a].SS.value else []
  }

  /** `item.a?.BOOL || false`. */
  function BoolOr(item: Item, a: AttrName): (b: bool)
    ensures b <==> a in item && item[a].BOOL == Some(true)
  {
    a in item && item[a].BOOL.Some? && item[a].BOOL.value
  }

  /** `item.a?.N ? parseFloat(item.a.N) : null`. */
  function RealOrNull(item: Item, a: AttrName): (x: Option<real>)
    ensures x.Some? <==> a in item && item[a].N.Some?
    ensures x.Some? ==> x.value == item[a].N.value
  {
    if a in item && item[a].N.Some? then Some(item[a].N.value) else None
  }

  /** `item.a?.N ? parseInt(item.a.N, 10) : null`. */
  function IntOrNull(item: Item, a: AttrName): (n: Option<int>)
    ensures n.Some? <==> a in item && item[a].N.Some?
    ensures n.Some? ==> n.value == Trunc(item[a].N.value)
  {
    if a in item && item[a].N.Some? then Some(Trunc(item[a].N.value)) else None
  }

  /** `L.map(d => d.S).filter(d => d !== undefined)`, or `[]` without `L`. */
  function StrListOr(item: Item, a: AttrName): (ds: seq<string>)
    ensures a !in item || item[a].L.None? ==> ds == []
  {
    if a in item && item[a].L.Some? then Somes(seq(|item[a].L.value|, i requires 0 <= i < |item[a].L.value| => item[a].L.value[i].S))
    else []
  }

  /** The S values of a list, in order; entries without S are dropped. */
  lemma {:induction false} StrListOfStrings(ds: seq<string>)
    ensures Somes(seq(|ds|, i requires 0 <= i < |ds| => Str(ds[i]).S)) == ds
  {
    if ds != [] {
      var xs := seq(|ds|, i requires 0 <= i < |ds| => Str(ds[i]).S);
      StrListOfStrings(ds[1..]);
      assert xs[1..] == seq(|ds[1..]|, i requires 0 <= i < |ds[1..]| => Str(ds[1..][i]).S);
      assert [ds[0]] + ds[1..] == ds;
    }
  }

  function ConvertItemImage(image: Item): Event
  {
    Event(
      url := StrOr(image, Url),
      dateStart := StrOr(image, DateStart),
      dateEnd := StrOr(image, DateEnd),
      title := StrOr(image, Title),
      hosts := SetOr(image, Hosts),
      group := StrOr(image, Group),
      address := StrOr(image, Address),
      guests := SetOr(image, Guests),
      attendees := IntOrNull(image, Attendees).GetOr(0),
      description := StrOr(image, Description),
      cover := StrOr(image, Cover),
      tags := SetOr(image, Tags),
      venue := StrOr(image, Venue),
      online := BoolOr(image, Online),
      eventSeriesDates := StrListOr(image, EventSeriesDates),
      price := RealOrNull(image, Price),
      minPrice := RealOrNull(image, MinPrice),
      maxPrice := RealOrNull(image, MaxPrice),
      spotsLeft := IntOrNull(image, SpotsLeft),
      waitlist := Some(BoolOr(image, Waitlist)),
      registrationClosed := Some(BoolOr(image, RegistrationClosed)))
  }

  /** An image with no attributes at all decodes to the all-defaults event: empty
      strings and lists, zero attendees, offline, no prices, and flags that are
      `false` rather than null. */
  lemma EmptyImage()
    ensures ConvertItemImage(map[]) ==
      Event("", "", "", "", [], "", "", [], 0, "", "", [], "", false, [], None, None, None, None, Some(false), Some(false))
  {
  }

  /** The decoded flags are never null, and the list fields come only from the
      attribute of the same name. */
  lemma ConvertFlagsNeverNull(image: Item)
    ensures ConvertItemImage(image).waitlist.Some? && ConvertItemImage(image).registrationClosed.Some?
    ensures ConvertItemImage(image).waitlist.value <==> Waitlist in image && image[Waitlist].BOOL == Some(true)
  {
  }
}
