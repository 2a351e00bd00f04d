/** Posting an event to Bluesky. The post text is laid out from the event's
    description, a cleaned-up address, the start date and the attendee count, and
    the description is shortened so that the whole post stays within Bluesky's
    300-character limit. JavaScript measures and slices strings in UTF-16 code
    units and each emoji marker takes two, so the text is a sequence of code units
    here. */
module Bsky {
  import opened Common
  import opened JsText

  newtype CodeUnit = x: int | 0 <= x < 0x1_0000

  /** A JavaScript string. */
  type JsString = seq<CodeUnit>

  // ---------------------------------------------------------------- UTF-16

  /** The code units of one Unicode scalar value: itself below 0x10000, else a
      surrogate pair. */
  function CharUnits(c: char): (r: JsString)
    ensures |r| == if c as int < 0x1_0000 then 1 else 2
  {
    var v := c as int;
    if v < 0x1_0000 then [v as CodeUnit]
    else
      var w := v - 0x1_0000;
      [(0xD800 + w / 0x400) as CodeUnit, (0xDC00 + w % 0x400) as CodeUnit]
  }

  /** The UTF-16 encoding of a string. */
  function Utf16(s: string): (r: JsString)
    ensures |r| >= |s|
  {
    if s == [] then [] else CharUnits(s[0]) + Utf16(s[1..])
  }

  predicate IsBmp(s: string)
  {
    forall i :: 0 <= i < |s| ==> s[i] as int < 0x1_0000
  }

  /** A string with no character beyond U+FFFF, one code unit per character. */
  function Bmp(s: string): (r: JsString)
    requires IsBmp(s)
    ensures |r| == |s|
  {
    seq(|s|, i requires 0 <= i < |s| => s[i] as int as CodeUnit)
  }

  /** For such a string the two encodings agree. */
  lemma {:induction false} BmpIsUtf16(s: string)
    requires IsBmp(s)
    ensures Utf16(s) == Bmp(s)
  {
    if s != [] {
      BmpIsUtf16(s[1..]);
      assert Bmp(s) == [s[0] as int as CodeUnit] + Bmp(s[1..]);
    }
  }

  const NewLine: CodeUnit := 0x0A
  const Space: CodeUnit := 0x20
  const Comma: CodeUnit := 0x2C

  /** "\n📍 ", "\n📅 " and "\n👥 ": a newline, an emoji (a surrogate pair) and a
      space. */
  const PinLine: JsString := [NewLine, 0xD83D, 0xDCCD, Space]
  const CalendarLine: JsString := [NewLine, 0xD83D, 0xDCC5, Space]
  const PeopleLine: JsString := [NewLine, 0xD83D, 0xDC65, Space]

  lemma MarkersAreUtf16()
    ensures PinLine == Utf16("\n\U{1F4CD} ")
    ensures CalendarLine == Utf16("\n\U{1F4C5} ")
    ensures PeopleLine == Utf16("\n\U{1F465} ")
  {
  }

  // ---------------------------------------------------------------- address cleanup

  /** The case folding of a case-insensitive regular expression, on ASCII letters. */
  function Fold(c: CodeUnit): CodeUnit
  {
    if 0x41 <= c <= 0x5A then c + 0x20 else c
  }

  /** `pat` matches `s` at `i`, ignoring ASCII case. */
  predicate MatchesAt(s: JsString, pat: JsString, i: nat)
  {
    i + |pat| <= |s| && forall k :: 0 <= k < |pat| ==> Fold(s[i + k]) == Fold(pat[k])
  }

  /** `s.replace(/pat/gi, "")`: scanning left to right, every match is removed and
      the scan resumes after it. */
  function RemoveAll(s: JsString, pat: JsString): (r: JsString)
    requires |pat| > 0
    ensures |r| <= |s|
    ensures forall c :: c in r ==> c in s
    decreases |s|
  {
    if |s| < |pat| then s
    else if MatchesAt(s, pat, 0) then RemoveAll(s[|pat|..], pat)
    else [s[0]] + RemoveAll(s[1..], pat)
  }

  /** A match at the front, in any letter case, is dropped and the scan resumes
      right after it. */
  lemma RemoveAllDropsMatch(m: JsString, s: JsString, pat: JsString)
    requires |pat| > 0 && |m| == |pat| && MatchesAt(m, pat, 0)
    ensures RemoveAll(m + s, pat) == RemoveAll(s, pat)
  {
    assert MatchesAt(m + s, pat, 0) by {
      forall k | 0 <= k < |pat| ensures Fold((m + s)[k]) == Fold(pat[k]) {
        assert (m + s)[k] == m[k];
      }
    }
    assert (m + s)[|pat|..] == s;
  }

  /** A code unit where no match starts is kept, ahead of the rest of the scan. */
  lemma RemoveAllKeepsNonMatch(c: CodeUnit, s: JsString, pat: JsString)
    requires |pat| > 0 && !MatchesAt([c] + s, pat, 0)
    ensures RemoveAll([c] + s, pat) == [c] + RemoveAll(s, pat)
  {
    assert ([c] + s)[1..] == s;
  }

  /** A text without a match is left unchanged. */
  lemma {:induction false} RemoveAllNoMatch(s: JsString, pat: JsString)
    requires |pat| > 0
    requires forall i :: 0 <= i <= |s| ==> !MatchesAt(s, pat, i)
    ensures RemoveAll(s, pat) == s
    decreases |s|
  {
    if |s| >= |pat| {
      assert !MatchesAt(s, pat, 0);
      forall i | 0 <= i <= |s[1..]| ensures !MatchesAt(s[1..], pat, i) {
        assert !MatchesAt(s, pat, i + 1);
        if MatchesAt(s[1..], pat, i) {
          forall k | 0 <= k < |pat| ensures Fold(s[i + 1 + k]) == Fold(pat[k]) {
            assert s[1..][i + k] == s[i + 1 + k];
          }
        }
      }
      RemoveAllNoMatch(s[1..], pat);
      assert [s[0]] + s[1..] == s;
    }
  }

  /** Removing every comma leaves none. */
  lemma {:induction false} RemoveCommas(s: JsString)
    ensures Comma !in RemoveAll(s, [Comma])
    decreases |s|
  {
    if |s| >= 1 {
      RemoveCommas(s[1..]);
      if !MatchesAt(s, [Comma], 0) {
        assert Fold(s[0]) != Fold(Comma);
      }
    }
  }

  /** The code units `String.prototype.trim` removes. */
  predicate IsWhiteUnit(c: CodeUnit)
  {
    || c == 0x09 || c == 0x0A || c == 0x0B || c == 0x0C || c == 0x0D || c == 0x20
    || c == 0xA0 || c == 0x1680 || (0x2000 <= c <= 0x200A) || c == 0x2028 || c == 0x2029
    || c == 0x202F || c == 0x205F || c == 0x3000 || c == 0xFEFF
  }

  function TrimUnits(s: JsString): (r: JsString)
    ensures |r| <= |s|
    ensures forall c :: c in r ==> c in s
    ensures r == [] || (!IsWhiteUnit(r[0]) && !IsWhiteUnit(r[|r| - 1]))
    decreases |s|
  {
    if |s| > 0 && IsWhiteUnit(s[0]) then TrimUnits(s[1..])
    else if |s| > 0 && IsWhiteUnit(s[|s| - 1]) then TrimUnits(s[..|s| - 1])
    else s
  }

  /** `address ? address.replace(...).replace(...).replace(...).replace(/,/gi, "").trim() : ""`. */
  function CleanAddress(address: Option<JsString>): (r: JsString)
  {
    if address.None? || address.value == [] then []
    else
      var a := RemoveAll(address.value, Bmp("New York, New York"));
      var b := RemoveAll(a, Bmp("New York"));
      var c := RemoveAll(b, Bmp("NY"));
      TrimUnits(RemoveAll(c, [Comma]))
  }

  /** The cleaned address has no comma and no surrounding whitespace, is no longer
      than the address, and is empty for an absent or empty one. */
  lemma CleanAddressSpec(address: Option<JsString>)
    ensures Comma !in CleanAddress(address)
    ensures address.Some? ==> |CleanAddress(address)| <= |address.value|
    ensures address.None? || address.value == [] ==> CleanAddress(address) == []
    ensures var r := CleanAddress(address); r == [] || (!IsWhiteUnit(r[0]) && !IsWhiteUnit(r[|r| - 1]))
  {
    if address.Some? && address.value != [] {
      var a := RemoveAll(address.value, Bmp("New York, New York"));
      var b := RemoveAll(a, Bmp("New York"));
      var c := RemoveAll(b, Bmp("NY"));
      RemoveCommas(c);
    }
  }

  // ---------------------------------------------------------------- length budget

  /** What `sendTweetToBsky` is given; dates are epoch milliseconds. */
  datatype BskyTweet = BskyTweet(
    title: JsString,
    description: JsString,
    url: JsString,
    image: Option<JsString>,
    address: Option<JsString>,
    dateStart: Option<int>,
    dateEnd: Option<int>,
    attendees: Option<int>)

  const MaxTweetLength := 300

  /** `attendees ?`: present and not zero. */
  predicate CountsAttendees(attendees: Option<int>)
  {
    attendees.Some? && attendees.value != 0
  }

  /** The length kept for everything but the description: the url, the address plus
      3, 25 for the date, the digits plus 12 for the attendees, and 10. */
  function Reserved(t: BskyTweet, address: JsString): int
  {
    |t.url|
    + (if address != [] then |address| + 3 else 0)
    + (if t.dateStart.Some? then 25 else 0)
    + (if CountsAttendees(t.attendees) then |IntToString(t.attendees.value)| + 12 else 0)
    + 10
  }

  /** The room left for the description; negative when the rest alone is too long. */
  function Available(t: BskyTweet, address: JsString): int
  {
    MaxTweetLength - Reserved(t, address)
  }

  const Ellipsis: JsString := [0x2E, 0x2E, 0x2E]

  /** `description.length > available ? description.slice(0, available - 3) + "..." : description`. */
  function Shorten(description: JsString, available: int): JsString
  {
    if |description| > available then SliceTo(description, available - 3) + Ellipsis else description
  }

  /** A description that fits is kept; one that does not is cut to exactly
      `available` units ending in "...", as long as there is room for the dots. */
  lemma ShortenSpec(description: JsString, available: int)
    ensures |description| <= available ==> Shorten(description, available) == description
    ensures |description| > available >= 3 ==>
      Shorten(description, available) == description[..available - 3] + Ellipsis &&
      |Shorten(description, available)| == available
    ensures available >= 3 ==> |Shorten(description, available)| <= available
  {
  }

  // ---------------------------------------------------------------- layout

  function AddressLine(address: JsString): (r: JsString)
    ensures r == [] <==> address == []
    ensures address != [] ==> |r| == |address| + 4
  {
    if address != [] then PinLine + address else []
  }

  function DateLine(dateStart: Option<int>, formatDate: int -> JsString): (r: JsString)
    ensures r == [] <==> dateStart.None?
    ensures dateStart.Some? ==> |r| == |formatDate(dateStart.value)| + 4
  {
    if dateStart.Some? then CalendarLine + formatDate(dateStart.value) else []
  }

  /** "\n👥 N attendees", only for a positive count. */
  function AttendeesLine(attendees: Option<int>): (r: JsString)
    ensures r == [] <==> attendees.None? || attendees.value <= 0
    ensures attendees.Some? && attendees.value > 0 ==> |r| == |IntToString(attendees.value)| + 14
  {
    if attendees.Some? && attendees.value > 0 then
      assert IsBmp(IntToString(attendees.value));
      PeopleLine + Bmp(IntToString(attendees.value)) + Bmp(" attendees")
    else []
  }

  /** The text of the post: the description, then the optional address, date and
      attendee lines, then the url on a line of its own. */
  function PostText(t: BskyTweet, formatDate: int -> JsString): JsString
  {
    var address := CleanAddress(t.address);
    Shorten(t.description, Available(t, address))
      + AddressLine(address) + DateLine(t.dateStart, formatDate) + AttendeesLine(t.attendees)
      + [NewLine] + t.url
  }

  /** The text built line by line, as `sendTweetToBsky` appends to `text`. */
  method ComposeText(t: BskyTweet, formatDate: int -> JsString) returns (text: JsString)
    ensures text == PostText(t, formatDate)
  {
    var address := CleanAddress(t.address);
    text := Shorten(t.description, Available(t, address));
    ghost var built := text;
    if address != [] {
      text := text + (PinLine + address);
    }
    assert text == built + AddressLine(address);
    built := text;
    if t.dateStart.Some? {
      text := text + (CalendarLine + formatDate(t.dateStart.value));
    }
    assert text == built + DateLine(t.dateStart, formatDate);
    built := text;
    if t.attendees.Some? && t.attendees.value > 0 {
      text := text + (PeopleLine + Bmp(IntToString(t.attendees.value)) + Bmp(" attendees"));
    }
    assert text == built + AttendeesLine(t.attendees);
    text := text + [NewLine] + t.url;
  }

  /** The post always ends with a newline and the url. */
  lemma PostTextEndsWithUrl(t: BskyTweet, formatDate: int -> JsString)
    ensures |PostText(t, formatDate)| >= |t.url| + 1
    ensures PostText(t, formatDate)[|PostText(t, formatDate)| - |t.url| - 1..] == [NewLine] + t.url
  {
  }

  /** The budget holds: with room for at least the dots and a formatted date of at
      most 27 units, the post is at most 300 units long. */
  lemma PostTextBudget(t: BskyTweet, formatDate: int -> JsString)
    requires Available(t, CleanAddress(t.address)) >= 3
    requires t.dateStart.Some? ==> |formatDate(t.dateStart.value)| <= 27
    ensures |PostText(t, formatDate)| <= MaxTweetLength
  {
    var address := CleanAddress(t.address);
    ShortenSpec(t.description, Available(t, address));
    if t.attendees.Some? && t.attendees.value > 0 {
      assert CountsAttendees(t.attendees);
    }
  }

  /** A negative count reserves room for its digits but prints no line. */
  lemma NegativeAttendeesReserveOnly(t: BskyTweet, formatDate: int -> JsString)
    requires t.attendees == Some(-5) && t.dateStart.None? && t.address.None?
    ensures Reserved(t, CleanAddress(t.address)) == |t.url| + 24
    ensures AttendeesLine(t.attendees) == []
  {
    assert IntToString(-5) == "-5";
  }

  // ---------------------------------------------------------------- post record

  datatype ImageEmbed = ImageEmbed(alt: string, blob: string, width: int, height: int)

  datatype PostRecord = PostRecord(recordType: string, text: JsString, embed: Option<ImageEmbed>)

  /** The record posted: an image embed exactly when an image url is given, holding
      the uploaded blob; facets are not modelled. */
  function PostRecordFor(t: BskyTweet, formatDate: int -> JsString, blob: string): (r: PostRecord)
    ensures r.recordType == "app.bsky.feed.post"
    ensures r.text == PostText(t, formatDate)
    ensures r.embed.Some? <==> t.image.Some? && t.image.value != []
    ensures r.embed.Some? ==> r.embed.value == ImageEmbed("Placeholder image", blob, 1000, 500)
  {
    var embed := if t.image.Some? && t.image.value != [] then Some(ImageEmbed("Placeholder image", blob, 1000, 500)) else None;
    PostRecord("app.bsky.feed.post", PostText(t, formatDate), embed)
  }

  /** The account's feed. */
  class Feed {
    var posts: seq<PostRecord>

    constructor()
      ensures posts == []
    {
      posts := [];
    }

    /** `sendTweetToBsky`: posts one record. Logging in, fetching and compressing the
        image and uploading it are outside the model; `blob` is what the upload
        returned. */
    method SendTweet(t: BskyTweet, formatDate: int -> JsString, blob: string)
      modifies this
      ensures posts == old(posts) + [PostRecordFor(t, formatDate, blob)]
    {
      var text := ComposeText(t, formatDate);
      var embed := if t.image.Some? && t.image.value != [] then Some(ImageEmbed("Placeholder image", blob, 1000, 500)) else None;
      posts := posts + [PostRecord("app.bsky.feed.post", text, embed)];
    }
  }

  // ---------------------------------------------------------------- data URIs

  newtype Byte = x: int | 0 <= x < 256

  /** `Uint8Array` assignment of char codes: each is taken modulo 256. */
  function Bytes(units: JsString): (r: seq<Byte>)
    ensures |r| == |units|
  {
    seq(|units|, i requires 0 <= i < |units| => (units[i] as int % 256) as Byte)
  }

  /** A binary string (every code unit below 256) converts code for code. */
  lemma BytesOfBinary(units: JsString)
    requires forall i :: 0 <= i < |units| ==> units[i] < 256
    ensures forall i :: 0 <= i < |units| ==> Bytes(units)[i] as int == units[i] as int
  {
  }

  /** `dataURI.split(",")[1]`; with no comma that is `undefined`, which `atob`
      receives as the text "undefined". */
  function EncodedPart(dataUri: JsString): JsString
  {
    var parts := Split(dataUri, Comma);
    if |parts| > 1 then parts[1] else Bmp("undefined")
  }

  /** For a `data:` URI whose header and payload hold no comma, the encoded part is
      the payload. */
  lemma EncodedPartOfDataUri(header: JsString, payload: JsString)
    requires Comma !in header && Comma !in payload
    ensures EncodedPart(header + [Comma] + payload) == payload
  {
    SplitPrefix(header, Comma, payload);
    SplitNoSeparator(payload, Comma);
  }

  /** `convertDataURIToUint8Array`: decodes the part after the first comma with
      `atob` (which throws on malformed input) and copies its char codes into a new
      byte array. */
  method DataUriToBytes(dataUri: JsString, atob: JsString -> Result<JsString>) returns (r: Result<array<Byte>>)
    ensures atob(EncodedPart(dataUri)).Err? ==> r == Err(atob(EncodedPart(dataUri)).message)
    ensures atob(EncodedPart(dataUri)).Ok? ==>
      r.Ok? && fresh(r.value) && r.value[..] == Bytes(atob(EncodedPart(dataUri)).value)
  {
    var decoded := atob(EncodedPart(dataUri));
    if decoded.Err? {
      return Err(decoded.message);
    }
    var byteString := decoded.value;
    var bytes := new Byte[|byteString|];
    var i := 0;
    while i < |byteString|
      invariant 0 <= i <= |byteString|
      invariant bytes[..i] == Bytes(byteString)[..i]
    {
      bytes[i] := (byteString[i] as int % 256) as Byte;
      assert bytes[..i + 1] == bytes[..i] + [bytes[i]];
      i := i + 1;
    }
    assert bytes[..] == bytes[..i];
    return Ok(bytes);
  }
}
