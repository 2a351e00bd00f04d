/** The post publisher workflow's Lambda steps: choosing the upcoming events worth
    posting, attaching a generated tweet, and posting it to Bluesky while recording
    the post status. Scores are reals; the generated tweet is a parameter. */
module PostPublisher {
  import opened Common
  import opened Events
  import opened DynamoDb
  import opened OpenSearch
  import opened PostStatusStorage
  import opened Bsky

  // ---------------------------------------------------------------- composite score

  /** The weighted sum of the ten scores; the weights add up to 1. */
  function WeightedScore(s: Scores): real
  {
    s.popularity * 0.1 + s.uniqueness * 0.2 + s.venueNiceness * 0.15 + s.freeAdmision * 0.2
    + s.drinksProvided * 0.1 + s.foodProvided * 0.1 + s.quietness * 0.05 + s.proximity * 0.05
    + s.nonCommercial * 0.025 + s.noAdditionalExpenses * 0.025
  }

  function Clamp(x: real): (r: real)
    ensures 0.0 <= r <= 1.0
    ensures 0.0 <= x <= 1.0 ==> r == x
  {
    if x < 0.0 then 0.0 else if x > 1.0 then 1.0 else x
  }

  /** The composite score: the weighted sum clamped to [0, 1], mapped to [0, 2]. */
  function Composite(s: Scores): real
  {
    1.0 + (Clamp(WeightedScore(s)) - 0.5) * 2.0
  }

  /** `calculateCompositeScore`, accumulating the weighted sum term by term. */
  method CalculateCompositeScore(s: Scores) returns (factor: real)
    ensures factor == Composite(s)
    ensures 0.0 <= factor <= 2.0
  {
    var score := 0.0;
    score := score + s.popularity * 0.1;
    score := score + s.uniqueness * 0.2;
    score := score + s.venueNiceness * 0.15;
    score := score + s.freeAdmision * 0.2;
    score := score + s.drinksProvided * 0.1;
    score := score + s.foodProvided * 0.1;
    score := score + s.quietness * 0.05;
    score := score + s.proximity * 0.05;
    score := score + s.nonCommercial * 0.025;
    score := score + s.noAdditionalExpenses * 0.025;
    score := if score > 0.0 then score else 0.0;
    score := if score < 1.0 then score else 1.0;
    factor := 1.0 + (score - 0.5) * 2.0;
  }

  predicate InUnitRange(s: Scores)
  {
    && 0.0 <= s.nonCommercial <= 1.0 && 0.0 <= s.popularity <= 1.0 && 0.0 <= s.freeAdmision <= 1.0
    && 0.0 <= s.noAdditionalExpenses <= 1.0 && 0.0 <= s.drinksProvided <= 1.0 && 0.0 <= s.foodProvided <= 1.0
    && 0.0 <= s.venueNiceness <= 1.0 && 0.0 <= s.quietness <= 1.0 && 0.0 <= s.uniqueness <= 1.0
    && 0.0 <= s.proximity <= 1.0
  }

  /** With every score in [0, 1] the clamp never applies, and a uniform score x
      gives the factor 2x: the weights add up to 1. */
  lemma CompositeOfUnitScores(s: Scores, x: real)
    requires InUnitRange(s)
    ensures Composite(s) == 2.0 * WeightedScore(s)
    ensures s == Scores(x, x, x, x, x, x, x, x, x, x) ==> Composite(s) == 2.0 * x
  {
  }

  /** Raising any one score never lowers the composite: every weight is positive. */
  lemma CompositeMonotone(s: Scores, d: real)
    requires d >= 0.0
    ensures Composite(s.(popularity := s.popularity + d)) >= Composite(s)
    ensures Composite(s.(uniqueness := s.uniqueness + d)) >= Composite(s)
    ensures Composite(s.(venueNiceness := s.venueNiceness + d)) >= Composite(s)
    ensures Composite(s.(freeAdmision := s.freeAdmision + d)) >= Composite(s)
    ensures Composite(s.(drinksProvided := s.drinksProvided + d)) >= Composite(s)
    ensures Composite(s.(foodProvided := s.foodProvided + d)) >= Composite(s)
    ensures Composite(s.(quietness := s.quietness + d)) >= Composite(s)
    ensures Composite(s.(proximity := s.proximity + d)) >= Composite(s)
    ensures Composite(s.(nonCommercial := s.nonCommercial + d)) >= Composite(s)
    ensures Composite(s.(noAdditionalExpenses := s.noAdditionalExpenses + d)) >= Composite(s)
  {
  }

  // ---------------------------------------------------------------- selection

  /** The post-status table as `getPostStatus` reads it: each stored item decoded. */
  function Known(items: map<string, Item>): (known: map<string, PostStatus>)
    ensures known.Keys == items.Keys
  {
    map url | url in items :: DecodePostStatus(items[url])
  }

  /** The stored post status of an event, or `None` when it was never posted. */
  function StatusOf(known: map<string, PostStatus>, url: string): Option<PostStatus>
  {
    if url in known then Some(known[url]) else None
  }

  /** Reading the decoded table is what a successful `getPostStatus` returns; for
      an empty url the lookup is refused instead. */
  lemma StatusOfIsLookup(items: map<string, Item>, url: string)
    ensures url == "" ==> Lookup(items, 200, url) == Err("ValidationException")
    ensures url != "" ==> Lookup(items, 200, url) == Ok(StatusOf(Known(items), url))
  {
  }

  /** An event is worth posting when it was never posted, or when its composite
      score now beats the one recorded at its last post by more than 5%. */
  predicate Eligible(known: map<string, PostStatus>, e: RichEvent)
  {
    var stored := StatusOf(known, e.event.url);
    stored.None? || Composite(e.scores) > Composite(stored.value.scores) * 1.05
  }

  function EligibleIn(known: map<string, PostStatus>): RichEvent -> bool
  {
    e => Eligible(known, e)
  }

  /** The elements of `xs` that satisfy `p`, in order. */
  function Keep<T>(p: T -> bool, xs: seq<T>): (r: seq<T>)
    ensures |r| <= |xs|
  {
    if xs == [] then []
    else Keep(p, xs[..|xs| - 1]) + (if p(xs[|xs| - 1]) then [xs[|xs| - 1]] else [])
  }

  lemma {:induction false} KeepAppend<T>(p: T -> bool, a: seq<T>, b: seq<T>)
    ensures Keep(p, a + b) == Keep(p, a) + Keep(p, b)
  {
    if b != [] {
      KeepAppend(p, a, b[..|b| - 1]);
      assert (a + b)[..|a + b| - 1] == a + b[..|b| - 1];
      assert (a + b)[|a + b| - 1] == b[|b| - 1];
    } else {
      assert a + b == a;
    }
  }

  /** Filtering one more element of `xs`. */
  lemma KeepSnoc<T>(p: T -> bool, xs: seq<T>, j: nat)
    requires j < |xs|
    ensures Keep(p, xs[..j + 1]) == Keep(p, xs[..j]) + (if p(xs[j]) then [xs[j]] else [])
  {
    assert xs[..j + 1][..j] == xs[..j];
  }

  /** An element is kept exactly when it occurs and satisfies `p`. */
  lemma {:induction false} KeepMembers<T>(p: T -> bool, xs: seq<T>, x: T)
    ensures x in Keep(p, xs) <==> x in xs && p(x)
  {
    if xs != [] {
      KeepMembers(p, xs[..|xs| - 1], x);
      assert xs == xs[..|xs| - 1] + [xs[|xs| - 1]];
    }
  }

  /** An event whose scores have not changed since its last post is never chosen
      again: no composite score beats itself by 5%. */
  lemma UnchangedNotReposted(known: map<string, PostStatus>, e: RichEvent)
    requires e.event.url in known && known[e.event.url].scores == e.scores
    ensures !Eligible(known, e)
  {
  }

  /** The first `n` elements, or all of them when there are fewer. */
  function Take<T>(xs: seq<T>, n: int): (r: seq<T>)
    ensures |r| == if n <= 0 then 0 else if |xs| <= n then |xs| else n
    ensures r == xs[..|r|]
  {
    if n <= 0 then [] else if |xs| <= n then xs else xs[..n]
  }

  /** Taking from a list that already has `n` elements ignores what follows. */
  lemma TakeStable<T>(xs: seq<T>, ys: seq<T>, n: int)
    requires |xs| >= n
    ensures Take(xs + ys, n) == Take(xs, n)
  {
    if n > 0 {
      assert (xs + ys)[..n] == xs[..n];
    }
  }

  /** Taking from a prefix that was itself cut to `n` gives the same as taking from
      the whole. */
  lemma TakeTwice<T>(xs: seq<T>, ys: seq<T>, n: int)
    ensures Take(Take(xs, n) + ys, n) == Take(xs + ys, n)
  {
    if n > 0 && |xs| >= n {
      assert (xs + ys)[..n] == xs[..n];
    }
  }

  /** The events of the first `n` pages, in page order. */
  function EventsOf(pages: seq<Page>, n: nat): seq<RichEvent>
    requires n <= |pages|
  {
    if n == 0 then [] else EventsOf(pages, n - 1) + pages[n - 1].events
  }

  /** The index of the first page without a cursor. */
  function LastPage(pages: seq<Page>): (k: nat)
    requires exists k :: 0 <= k < |pages| && !Truthy(pages[k].cursor)
    ensures k < |pages| && !Truthy(pages[k].cursor)
    ensures forall j :: 0 <= j < k ==> Truthy(pages[j].cursor)
  {
    if !Truthy(pages[0].cursor) then 0
    else
      assert exists k :: 0 <= k < |pages[1..]| && !Truthy(pages[1..][k].cursor) by {
        var k :| 0 <= k < |pages| && !Truthy(pages[k].cursor);
        assert pages[1..][k - 1] == pages[k];
      }
      1 + LastPage(pages[1..])
  }

  /** The per-event check: the new composite score, and the old one when the event
      was posted before. */
  method IsEligible(known: map<string, PostStatus>, e: RichEvent) returns (b: bool)
    ensures b == EligibleIn(known)(e)
  {
    var newScore := CalculateCompositeScore(e.scores);
    var stored := StatusOf(known, e.event.url);
    if stored.Some? {
      var oldScore := CalculateCompositeScore(stored.value.scores);
      if newScore <= oldScore * 1.05 {
        return false;
      }
    }
    return true;
  }

  /** Selecting from one page: adds its eligible events until `maxPosts` are chosen. */
  method SelectFromPage(known: map<string, PostStatus>, chosen: seq<RichEvent>, candidates: seq<RichEvent>, maxPosts: int)
    returns (selected: seq<RichEvent>)
    requires |chosen| < maxPosts
    ensures selected == Take(chosen + Keep(EligibleIn(known), candidates), maxPosts)
  {
    var p := EligibleIn(known);
    selected := chosen;
    var j := 0;
    while j < |candidates|
      invariant 0 <= j <= |candidates|
      invariant selected == chosen + Keep(p, candidates[..j])
      invariant |selected| < maxPosts
    {
      var e := candidates[j];
      var eligible := IsEligible(known, e);
      var kept := Keep(p, candidates[..j]);
      KeepSnoc(p, candidates, j);
      if eligible {
        assert Keep(p, candidates[..j + 1]) == kept + [e];
        assert (chosen + kept) + [e] == chosen + (kept + [e]);
        selected := selected + [e];
        if |selected| >= maxPosts {
          FilledUp(p, chosen, candidates, j + 1, maxPosts);
          return;
        }
      } else {
        assert Keep(p, candidates[..j + 1]) == kept + [];
        assert kept + [] == kept;
      }
      j := j + 1;
    }
    assert candidates[..j] == candidates;
  }

  /** Once the chosen events reach `n` after the first `j` candidates, the rest of
      the candidates are not looked at. */
  lemma FilledUp<T>(p: T -> bool, chosen: seq<T>, xs: seq<T>, j: nat, n: int)
    requires j <= |xs|
    requires |chosen + Keep(p, xs[..j])| == n
    ensures Take(chosen + Keep(p, xs), n) == chosen + Keep(p, xs[..j])
  {
    KeepAppend(p, xs[..j], xs[j..]);
    assert xs[..j] + xs[j..] == xs;
    assert chosen + Keep(p, xs) == (chosen + Keep(p, xs[..j])) + Keep(p, xs[j..]);
    TakeStable(chosen + Keep(p, xs[..j]), Keep(p, xs[j..]), n);
  }

  datatype Relevant = Relevant(status: string, events: seq<RichEvent>)

  /** `retrieveRelevantEvents`: `pages[k]` is the k-th `getAllEvents(10, cursor)`
      answer, `requested` the cursors those calls were given, and `known` the
      post-status table. Pages are fetched
      until one has no cursor or `maxPosts` events are chosen; the result is the
      first `maxPosts` eligible events of those pages, in page order. */
  method RetrieveRelevantEvents(known: map<string, PostStatus>, pages: seq<Page>, maxPosts: int)
    returns (r: Relevant, requested: seq<Option<string>>)
    requires exists k :: 0 <= k < |pages| && !Truthy(pages[k].cursor)
    ensures r.status == "success"
    ensures r.events == Chosen(EligibleIn(known), pages, LastPage(pages) + 1, maxPosts)
    ensures |requested| <= LastPage(pages) + 1
    ensures maxPosts > 0 ==> |requested| >= 1
    ensures requested == CursorsUpTo(pages, |requested|)
  {
    var p := EligibleIn(known);
    var last := LastPage(pages);
    var events: seq<RichEvent> := [];
    var cursor: Option<string> := None;
    requested := [];
    var k := 0;
    var done := false;
    while !done && |events| < maxPosts
      invariant 0 <= k <= last + 1
      invariant done <==> k == last + 1
      invariant |requested| == k
      invariant cursor == if k == 0 then None else pages[k - 1].cursor
      invariant requested == CursorsUpTo(pages, k)
      invariant events == Chosen(p, pages, k, maxPosts)
      decreases last + 1 - k
    {
      requested := requested + [cursor];
      var page := pages[k];
      cursor := page.cursor;
      events := SelectFromPage(known, events, page.events, maxPosts);
      k := k + 1;
      done := !Truthy(cursor);
    }
    var n := last + 1;
    if done {
      assert k == n;
    } else {
      Saturated(p, pages, k, n, maxPosts);
    }
    assert events == Chosen(p, pages, n, maxPosts);
    r := Relevant("success", events);
  }

  /** The cursors of the first `n` `getAllEvents` calls: none for the first, then
      the cursor each page returned. */
  function CursorsUpTo(pages: seq<Page>, n: nat): (r: seq<Option<string>>)
    requires n <= |pages| + 1
    ensures |r| == n
  {
    if n == 0 then [] else CursorsUpTo(pages, n - 1) + [if n == 1 then None else pages[n - 2].cursor]
  }

  /** The first call has no cursor; every later call passes on the truthy cursor of
      the page before it. */
  lemma {:induction false} CursorsFollowPages(pages: seq<Page>, n: nat)
    requires exists k :: 0 <= k < |pages| && !Truthy(pages[k].cursor)
    requires n <= LastPage(pages) + 1
    ensures n >= 1 ==> CursorsUpTo(pages, n)[0] == None
    ensures forall i :: 0 < i < n ==> CursorsUpTo(pages, n)[i] == pages[i - 1].cursor && Truthy(CursorsUpTo(pages, n)[i])
  {
    if n > 0 {
      CursorsFollowPages(pages, n - 1);
    }
  }

  /** The events chosen after the first `k` pages: each page's eligible events are
      appended and the list is cut back to `maxPosts`. */
  function Chosen(p: RichEvent -> bool, pages: seq<Page>, k: nat, maxPosts: int): (r: seq<RichEvent>)
    requires k <= |pages|
    ensures |r| <= if maxPosts < 0 then 0 else maxPosts
  {
    if k == 0 then [] else Take(Chosen(p, pages, k - 1, maxPosts) + Keep(p, pages[k - 1].events), maxPosts)
  }

  /** Cutting back after every page gives the first `maxPosts` eligible events of
      all the pages together. */
  lemma {:induction false} ChosenIsFlat(p: RichEvent -> bool, pages: seq<Page>, k: nat, maxPosts: int)
    requires k <= |pages|
    ensures Chosen(p, pages, k, maxPosts) == Take(Keep(p, EventsOf(pages, k)), maxPosts)
  {
    if k > 0 {
      var before := Keep(p, EventsOf(pages, k - 1));
      var page := Keep(p, pages[k - 1].events);
      assert Chosen(p, pages, k - 1, maxPosts) == Take(before, maxPosts) by {
        ChosenIsFlat(p, pages, k - 1, maxPosts);
      }
      assert Take(Take(before, maxPosts) + page, maxPosts) == Take(before + page, maxPosts) by {
        TakeTwice(before, page, maxPosts);
      }
      assert Keep(p, EventsOf(pages, k)) == before + page by {
        KeepAppend(p, EventsOf(pages, k - 1), pages[k - 1].events);
      }
    }
  }

  /** Once `maxPosts` events are chosen, later pages change nothing. */
  lemma {:induction false} Saturated(p: RichEvent -> bool, pages: seq<Page>, k: nat, n: nat, maxPosts: int)
    requires k <= n <= |pages|
    requires |Chosen(p, pages, k, maxPosts)| >= maxPosts
    ensures Chosen(p, pages, n, maxPosts) == Chosen(p, pages, k, maxPosts)
    decreases n - k
  {
    if k < n {
      Saturated(p, pages, k, n - 1, maxPosts);
      TakeStable(Chosen(p, pages, n - 1, maxPosts), Keep(p, pages[n - 1].events), maxPosts);
    }
  }

  // ---------------------------------------------------------------- posting

  /** `{ ...event, tweet }`: the event with its tweet replaced by the generated one. */
  function GenerateTweetEvent(event: RichEvent, tweet: string): (r: RichEvent)
    ensures r.tweet == tweet
    ensures r.(tweet := event.tweet) == event
  {
    event.(tweet := tweet)
  }

  /** What `postTweetEvent` hands to Bluesky: the generated tweet as the
      description, the cover as the image, and dates only when present. */
  function BskyInput(t: RichEvent, instant: string -> int): (b: BskyTweet)
    ensures b.url == Utf16(t.event.url) && b.description == Utf16(t.tweet)
    ensures b.dateStart.Some? <==> t.event.dateStart != ""
    ensures b.attendees == Some(t.event.attendees)
  {
    BskyTweet(Utf16(t.event.title), Utf16(t.tweet), Utf16(t.event.url), Some(Utf16(t.event.cover)),
      Some(Utf16(t.event.address)),
      if t.event.dateStart != "" then Some(instant(t.event.dateStart)) else None,
      if t.event.dateEnd != "" then Some(instant(t.event.dateEnd)) else None,
      Some(t.event.attendees))
  }

  /** The post status recorded after posting: posted to Bluesky now, not to Twitter,
      with the event's scores. */
  function PostedStatus(t: RichEvent, nowIso: string): (p: PostStatus)
    ensures p.url == t.event.url && p.scores == t.scores
    ensures p.blueSkyPostedDate == Posted(nowIso) && p.twitterPostedDate == Null
  {
    PostStatus(t.event.url, t.event.dateStart, t.event.dateEnd, Posted(nowIso), Null, t.scores)
  }

  /** `postTweetEvent`: posts to Bluesky, then saves the post status. */
  method PostTweetEvent(feed: Feed, statuses: Table, t: RichEvent, nowIso: string,
                        instant: string -> int, formatDate: int -> JsString, blob: string)
    returns (r: Result<string>)
    modifies feed, statuses
    ensures feed.posts == old(feed.posts) + [PostRecordFor(BskyInput(t, instant), formatDate, blob)]
    ensures t.event.url != "" ==> r == Ok("success") && statuses.items == old(statuses.items)[t.event.url := EncodePostStatus(PostedStatus(t, nowIso))]
    ensures t.event.url == "" ==> r.Err? && statuses.items == old(statuses.items)
  {
    feed.SendTweet(BskyInput(t, instant), formatDate, blob);
    var saved := SavePostStatus(statuses, PostedStatus(t, nowIso));
    if saved.Err? {
      return Err(saved.message);
    }
    return Ok("success");
  }

  /** After posting, the same event is not chosen again until its composite score
      improves by more than 5%. */
  lemma PostedNotReselected(statuses: map<string, Item>, t: RichEvent, nowIso: string)
    requires t.event.url != ""
    ensures !Eligible(Known(statuses[t.event.url := EncodePostStatus(PostedStatus(t, nowIso))]), t)
  {
    SaveThenLookup(statuses, PostedStatus(t, nowIso));
    StatusOfIsLookup(statuses[t.event.url := EncodePostStatus(PostedStatus(t, nowIso))], t.event.url);
  }
}
