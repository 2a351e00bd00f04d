/** The HTTP API's Lambda authorizer: reads the bearer token from the request,
    splits the route ARN into region, account, method and path, looks the token up
    in the tokens table and checks the request against the token's policy rules. */
module LambdaAuthorizer {
  import opened Common
  import opened JsText
  import opened DynamoDb

  // ---------------------------------------------------------------- token

  datatype Headers = Headers(authorization: Option<string>, userAgent: Option<string>)

  /** The parts of the authorizer payload the handler reads. */
  datatype Payload = Payload(headers: Option<Headers>, routeArn: string)

  /** `payload.headers?.authorization?.split(" ")[1]`: the second space-separated
      part of the header, `undefined` when the header or that part is missing. */
  function TokenOf(headers: Option<Headers>): (token: Option<string>)
    ensures token.Some? ==> ' ' !in token.value
    ensures headers.None? || headers.value.authorization.None? ==> token.None?
  {
    if headers.None? || headers.value.authorization.None? then None
    else
      var parts := Split(headers.value.authorization.value, ' ');
      if |parts| < 2 then None else Some(parts[1])
  }

  /** `Bearer <token>` yields the token. */
  lemma BearerToken(scheme: string, token: string, userAgent: Option<string>)
    requires ' ' !in scheme && ' ' !in token
    ensures TokenOf(Some(Headers(Some(scheme + " " + token), userAgent))) == Some(token)
  {
    SplitJoin([scheme, token], ' ');
    assert Join([scheme, token], ' ') == scheme + " " + token;
  }

  /** A header without a space carries no token. */
  lemma NoSpaceNoToken(header: string, userAgent: Option<string>)
    requires ' ' !in header
    ensures TokenOf(Some(Headers(Some(header), userAgent))).None?
  {
    SplitNoSeparator(header, ' ');
  }

  // ---------------------------------------------------------------- route ARN

  /** The route ARN is matched against
      `arn:aws:execute-api:(region):(account):<api>/$default/(method)/(rest)`, the
      first four parts lazy and at least one character long, the last greedy. A
      lazy part ends at the first position from which the rest of the pattern can
      still match, and the match starts at the first position where it can. */
  const ArnPrefix := "arn:aws:execute-api:"
  const DefaultStage := "/$default/"

  /** The parts of the pattern whose end is searched for, innermost first. */
  const MethodPart := 0
  const ApiPart := 1
  const AccountPart := 2
  const RegionPart := 3
  const WholeMatch := 4

  /** `.` matches every character of `s[i..j]`. */
  predicate NoLineBreak(s: string, i: nat, j: nat)
  {
    i <= j <= |s| && forall k :: i <= k < j ==> !IsLineTerminator(s[k])
  }

  /** `part` sits at `at` in `s`. */
  predicate PartAt(s: string, at: nat, part: string)
  {
    at + |part| <= |s| && s[at..at + |part|] == part
  }

  /** Part `part`, started at `i`, can end at `x`, and what follows it can match:
      - the method ends at a `/`;
      - the API id ends where `/$default/` and a method follow;
      - the account and the region end at a `:` followed by the next part;
      - for the whole match, `x` is where the fixed prefix and a region start. */
  predicate Ends(part: nat, s: string, i: nat, x: nat)
    decreases part, 0, 0
  {
    if part == MethodPart then
      i < x < |s| && s[x] == '/' && NoLineBreak(s, i, x)
    else if part == ApiPart then
      && i < x && x + |DefaultStage| <= |s| && NoLineBreak(s, i, x)
      && s[x..x + |DefaultStage|] == DefaultStage
      && Search(MethodPart, s, x + |DefaultStage|, x + |DefaultStage| + 1).Some?
    else if part == AccountPart || part == RegionPart then
      i < x < |s| && s[x] == ':' && NoLineBreak(s, i, x) && Search(part - 1, s, x + 1, x + 2).Some?
    else
      && x + |ArnPrefix| <= |s| && s[x..x + |ArnPrefix|] == ArnPrefix
      && Search(RegionPart, s, x + |ArnPrefix|, x + |ArnPrefix| + 1).Some?
  }

  /** The first `x` at or after `from` where part `part` can end. */
  function Search(part: nat, s: string, i: nat, from: nat): Option<nat>
    decreases part, 1, |s| - from
  {
    if from >= |s| then None
    else if Ends(part, s, i, from) then Some(from)
    else Search(part, s, i, from + 1)
  }

  /** `Search` finds the first position at or after `from` where the part can end,
      and there is none when it finds nothing. */
  lemma {:induction false} SearchSpec(part: nat, s: string, i: nat, from: nat)
    ensures var r := Search(part, s, i, from);
      && (r.Some? ==> from <= r.value && Ends(part, s, i, r.value))
      && (forall j :: from <= j && (r.None? || j < r.value) ==> !Ends(part, s, i, j))
    decreases |s| - from
  {
    if from < |s| && !Ends(part, s, i, from) {
      SearchSpec(part, s, i, from + 1);
    } else if from >= |s| {
      forall j | from <= j ensures !Ends(part, s, i, j) {
      }
    }
  }

  /** `(.*)`: the greedy last group starting at `i` runs to the first line break. */
  function RestEnd(s: string, i: nat): (f: nat)
    requires i <= |s|
    ensures NoLineBreak(s, i, f)
    ensures f == |s| || IsLineTerminator(s[f])
    decreases |s| - i
  {
    if i == |s| || IsLineTerminator(s[i]) then i else RestEnd(s, i + 1)
  }

  datatype Route = Route(region: string, accountId: string, httpMethod: string, path: string)

  /** Where the groups of a match sit: the region is `s[region..regionEnd]`, the
      account `s[regionEnd + 1..accountEnd]`, the API id ends at `apiEnd`, the method
      is `s[apiEnd + |DefaultStage|..methodEnd]` and the rest runs from `methodEnd + 1`. */
  datatype Spans = Spans(region: nat, regionEnd: nat, accountEnd: nat, apiEnd: nat, methodEnd: nat)

  predicate Ordered(s: string, sp: Spans)
  {
    sp.region < sp.regionEnd && sp.regionEnd + 1 < sp.accountEnd && sp.accountEnd + 1 < sp.apiEnd
    && sp.apiEnd + |DefaultStage| < sp.methodEnd < |s|
  }

  /** Where the part after part `part`, ended at `x`, starts. */
  function Next(part: nat, x: nat): nat
  {
    if part == ApiPart then x + |DefaultStage| else x + 1
  }

  /** The ends of the parts from `part` down to the method, the first one started
      at `i`, each ending at its first possible end. */
  function Groups(part: nat, s: string, i: nat): (r: Option<seq<nat>>)
    requires part < WholeMatch
    ensures r.Some? ==> |r.value| == part + 1 && i < r.value[0] && r.value[part] < |s|
    ensures r.Some? ==> forall k, m :: 0 <= k && m == k + 1 <= part ==> Next(part - k, r.value[k]) < r.value[m]
    decreases part
  {
    match Search(part, s, i, i + 1)
    case None => None
    case Some(x) =>
      SearchSpec(part, s, i, i + 1);
      if part == MethodPart then Some([x])
      else
        match Groups(part - 1, s, Next(part, x))
        case None => None
        case Some(g) => Some([x] + g)
  }

  /** The match once the fixed prefix is found and the region starts at `i`. */
  function LocateGroups(s: string, i: nat): (r: Option<Spans>)
    ensures r.Some? ==> Ordered(s, r.value)
  {
    match Groups(RegionPart, s, i)
    case None => None
    case Some(g) => Some(Spans(i, g[0], g[1], g[2], g[3]))
  }

  /** The leftmost match of the route ARN pattern; every group is non-empty and the
      groups are in order. */
  function Locate(s: string): (r: Option<Spans>)
    ensures r.Some? ==> Ordered(s, r.value)
  {
    match Search(WholeMatch, s, 0, 0)
    case None => None
    case Some(st) => LocateGroups(s, st + |ArnPrefix|)
  }

  /** The route read off a match. */
  function Cut(s: string, sp: Spans): Route
    requires Ordered(s, sp)
  {
    Route(s[sp.region..sp.regionEnd], s[sp.regionEnd + 1..sp.accountEnd],
      s[sp.apiEnd + |DefaultStage|..sp.methodEnd], "/" + s[sp.methodEnd + 1..RestEnd(s, sp.methodEnd + 1)])
  }

  /** `routeArn.match(...)` and `path = "/" + match[4]`; no match throws. */
  function ParseRouteArn(s: string): (r: Result<Route>)
    ensures r.Err? ==> r == Err("Invalid routeArn")
    ensures r.Ok? ==> |r.value.region| > 0 && |r.value.accountId| > 0 && |r.value.httpMethod| > 0
    ensures r.Ok? ==> |r.value.path| > 0 && r.value.path[0] == '/'
  {
    match Locate(s)
    case None => Err("Invalid routeArn")
    case Some(sp) => Ok(Cut(s, sp))
  }

  // ---------------------------------------------------------------- route ARN round trip

  /** A part ends at `x` when it can end there and its closing character does not
      occur before. */
  lemma SearchAt(part: nat, s: string, i: nat, x: nat, closing: char)
    requires part < WholeMatch && Ends(part, s, i, x)
    requires closing == (if part == AccountPart || part == RegionPart then ':' else '/')
    requires forall k :: i < k < x ==> s[k] != closing
    ensures Search(part, s, i, i + 1) == Some(x)
  {
    SearchSpec(part, s, i, i + 1);
    forall j | i < j < x ensures !Ends(part, s, i, j) {
      if part == ApiPart && j + |DefaultStage| <= |s| {
        assert s[j..j + |DefaultStage|][0] == s[j];
      }
    }
  }

  /** The route ARN the API builds for a request. */
  function BuildRouteArn(region: string, accountId: string, apiId: string, httpMethod: string, rest: string): string
  {
    ArnPrefix + region + ":" + accountId + ":" + apiId + DefaultStage + httpMethod + "/" + rest
  }

  predicate NoLineTerminator(t: string)
  {
    forall c :: c in t ==> !IsLineTerminator(c)
  }

  /** The parts are non-empty and hold no line break, the region and the account
      hold no `:`, and the API id and the method hold no `/`. */
  predicate WellFormedParts(region: string, accountId: string, apiId: string, httpMethod: string, rest: string)
  {
    && |region| > 0 && |accountId| > 0 && |apiId| > 0 && |httpMethod| > 0
    && ':' !in region && ':' !in accountId && '/' !in apiId && '/' !in httpMethod
    && NoLineTerminator(region) && NoLineTerminator(accountId) && NoLineTerminator(apiId)
    && NoLineTerminator(httpMethod) && NoLineTerminator(rest)
  }

  /** Where the groups of `BuildRouteArn(region, accountId, apiId, httpMethod, rest)` sit. */
  function BuiltSpans(region: string, accountId: string, apiId: string, httpMethod: string): Spans
  {
    var b := |ArnPrefix| + |region|;
    var c := b + 1 + |accountId|;
    var d := c + 1 + |apiId|;
    Spans(|ArnPrefix|, b, c, d, d + |DefaultStage| + |httpMethod|)
  }

  /** `s` is laid out as the parts at the places `sp` names. */
  predicate Laid(s: string, sp: Spans, region: string, accountId: string, apiId: string, httpMethod: string, rest: string)
  {
    && sp == BuiltSpans(region, accountId, apiId, httpMethod)
    && |s| == sp.methodEnd + 1 + |rest|
    && PartAt(s, 0, ArnPrefix) && PartAt(s, sp.region, region) && s[sp.regionEnd] == ':'
    && PartAt(s, sp.regionEnd + 1, accountId) && s[sp.accountEnd] == ':' && PartAt(s, sp.accountEnd + 1, apiId)
    && PartAt(s, sp.apiEnd, DefaultStage) && PartAt(s, sp.apiEnd + |DefaultStage|, httpMethod)
    && s[sp.methodEnd] == '/' && PartAt(s, sp.methodEnd + 1, rest)
  }

  /** `q` sits at the end of `a + q`. */
  lemma PartAtEnd(a: string, q: string)
    ensures PartAt(a + q, |a|, q)
  {
    assert (a + q)[|a|..|a| + |q|] == q;
  }

  /** What sits in a prefix of `s` sits in `s`. */
  lemma PartAtPrefix(s: string, a: string, at: nat, q: string)
    requires |a| <= |s| && s[..|a|] == a && PartAt(a, at, q)
    ensures PartAt(s, at, q)
  {
    assert s[at..at + |q|] == s[..|a|][at..at + |q|];
  }

  /** `a` is a prefix of `s`, given that it is a prefix of the prefix `a + b` of `s`. */
  lemma PrefixStep(s: string, a: string, b: string)
    requires |a + b| <= |s| && s[..|a + b|] == a + b
    ensures |a| <= |s| && s[..|a|] == a
  {
    assert s[..|a|] == (a + b)[..|a|];
  }

  /** Where the pieces of `pre + region + ":" + accountId + ":" + apiId + stage +
      httpMethod + "/" + rest` sit, for any fixed prefix and stage. */
  lemma ConcatLayout(pre: string, region: string, accountId: string, apiId: string, stage: string, httpMethod: string, rest: string)
    ensures var s := pre + region + ":" + accountId + ":" + apiId + stage + httpMethod + "/" + rest;
      var b := |pre| + |region|;
      var c := b + 1 + |accountId|;
      var d := c + 1 + |apiId|;
      var e := d + |stage| + |httpMethod|;
      && |s| == e + 1 + |rest|
      && PartAt(s, 0, pre) && PartAt(s, |pre|, region) && PartAt(s, b, ":")
      && PartAt(s, b + 1, accountId) && PartAt(s, c, ":") && PartAt(s, c + 1, apiId)
      && PartAt(s, d, stage) && PartAt(s, d + |stage|, httpMethod) && PartAt(s, e, "/")
      && PartAt(s, e + 1, rest)
  {
    var p1 := pre + region;
    var p2 := p1 + ":";
    var p3 := p2 + accountId;
    var p4 := p3 + ":";
    var p5 := p4 + apiId;
    var p6 := p5 + stage;
    var p7 := p6 + httpMethod;
    var p8 := p7 + "/";
    var s := p8 + rest;
    PrefixStep(s, p8, rest);
    PrefixStep(s, p7, "/");
    PrefixStep(s, p6, httpMethod);
    PrefixStep(s, p5, stage);
    PrefixStep(s, p4, apiId);
    PrefixStep(s, p3, ":");
    PrefixStep(s, p2, accountId);
    PrefixStep(s, p1, ":");
    PrefixStep(s, pre, region);
    PartAtEnd([], pre);
    assert [] + pre == pre;
    PartAtPrefix(s, pre, 0, pre);
    PartAtEnd(pre, region);
    PartAtPrefix(s, p1, |pre|, region);
    PartAtEnd(p1, ":");
    PartAtPrefix(s, p2, |p1|, ":");
    PartAtEnd(p2, accountId);
    PartAtPrefix(s, p3, |p2|, accountId);
    PartAtEnd(p3, ":");
    PartAtPrefix(s, p4, |p3|, ":");
    PartAtEnd(p4, apiId);
    PartAtPrefix(s, p5, |p4|, apiId);
    PartAtEnd(p5, stage);
    PartAtPrefix(s, p6, |p5|, stage);
    PartAtEnd(p6, httpMethod);
    PartAtPrefix(s, p7, |p6|, httpMethod);
    PartAtEnd(p7, "/");
    PartAtPrefix(s, p8, |p7|, "/");
    PartAtEnd(p8, rest);
  }

  /** Where the pieces of a built route ARN sit. */
  lemma BuiltLayout(region: string, accountId: string, apiId: string, httpMethod: string, rest: string)
    ensures Laid(BuildRouteArn(region, accountId, apiId, httpMethod, rest), BuiltSpans(region, accountId, apiId, httpMethod),
      region, accountId, apiId, httpMethod, rest)
  {
    var s := BuildRouteArn(region, accountId, apiId, httpMethod, rest);
    var sp := BuiltSpans(region, accountId, apiId, httpMethod);
    ConcatLayout(ArnPrefix, region, accountId, apiId, DefaultStage, httpMethod, rest);
    var b := |ArnPrefix| + |region|;
    var c := b + 1 + |accountId|;
    var d := c + 1 + |apiId|;
    CharPart(s, b, ':');
    CharPart(s, c, ':');
    CharPart(s, d + |DefaultStage| + |httpMethod|, '/');
    assert sp == Spans(|ArnPrefix|, b, c, d, d + |DefaultStage| + |httpMethod|);
  }

  /** A one-character part is that character. */
  lemma CharPart(s: string, at: nat, c: char)
    requires PartAt(s, at, [c])
    ensures s[at] == c
  {
    assert s[at] == s[at..at + 1][0];
  }

  /** The characters of a part sitting at `at` in `s`. */
  lemma CharsOfPart(s: string, at: nat, part: string)
    requires PartAt(s, at, part) && NoLineTerminator(part)
    ensures NoLineBreak(s, at, at + |part|)
    ensures forall k :: at <= k < at + |part| ==> s[k] == part[k - at]
  {
    forall k | at <= k < at + |part| ensures s[k] == part[k - at] && !IsLineTerminator(s[k]) {
      assert s[k] == s[at..at + |part|][k - at];
    }
  }

  /** One step of `Groups` once the part's end is known. */
  lemma GroupsAt(part: nat, s: string, i: nat, x: nat, g: seq<nat>)
    requires part < WholeMatch && Search(part, s, i, i + 1) == Some(x)
    requires part == MethodPart ==> g == []
    requires part != MethodPart ==> Groups(part - 1, s, Next(part, x)) == Some(g)
    ensures Groups(part, s, i) == Some([x] + g)
  {
    if part == MethodPart {
      assert [x] + g == [x];
    }
  }

  /** The groups once every part's end is known. */
  lemma GroupsFrom(s: string, i: nat, b: nat, c: nat, d: nat, e: nat)
    requires Search(RegionPart, s, i, i + 1) == Some(b)
    requires Search(AccountPart, s, b + 1, b + 2) == Some(c)
    requires Search(ApiPart, s, c + 1, c + 2) == Some(d)
    requires Search(MethodPart, s, d + |DefaultStage|, d + |DefaultStage| + 1) == Some(e)
    ensures LocateGroups(s, i) == Some(Spans(i, b, c, d, e))
  {
    var g: seq<nat> := [];
    GroupsAt(MethodPart, s, d + |DefaultStage|, e, g);
    g := [e] + g;
    GroupsAt(ApiPart, s, c + 1, d, g);
    g := [d] + g;
    GroupsAt(AccountPart, s, b + 1, c, g);
    g := [c] + g;
    GroupsAt(RegionPart, s, i, b, g);
    g := [b] + g;
    assert g[0] == b && g[1] == c && g[2] == d && g[3] == e;
  }

  lemma LocateStart(s: string, st: nat)
    requires Search(WholeMatch, s, 0, 0) == Some(st)
    ensures Locate(s) == LocateGroups(s, st + |ArnPrefix|)
  {
  }

  /** A part laid out as `piece` ends where the piece does, since the piece holds no
      closing character. */
  lemma SearchPiece(part: nat, s: string, i: nat, piece: string, closing: char)
    requires part < WholeMatch
    requires closing == (if part == AccountPart || part == RegionPart then ':' else '/')
    requires PartAt(s, i, piece) && closing !in piece
    requires Ends(part, s, i, i + |piece|)
    ensures Search(part, s, i, i + 1) == Some(i + |piece|)
  {
    forall k | i < k < i + |piece| ensures s[k] != closing {
      assert s[k] == s[i..i + |piece|][k - i];
    }
    SearchAt(part, s, i, i + |piece|, closing);
  }

  /** With no line break left, `(.*)` takes the rest of the string. */
  lemma {:induction false} RestEndAll(s: string, i: nat)
    requires NoLineBreak(s, i, |s|)
    ensures RestEnd(s, i) == |s|
    decreases |s| - i
  {
    if i < |s| {
      RestEndAll(s, i + 1);
    }
  }

  lemma MethodSearched(s: string, sp: Spans, region: string, accountId: string, apiId: string, httpMethod: string, rest: string)
    requires Laid(s, sp, region, accountId, apiId, httpMethod, rest) && WellFormedParts(region, accountId, apiId, httpMethod, rest)
    ensures Search(MethodPart, s, sp.apiEnd + |DefaultStage|, sp.apiEnd + |DefaultStage| + 1) == Some(sp.methodEnd)
  {
    var i, x := sp.apiEnd + |DefaultStage|, sp.methodEnd;
    assert x == i + |httpMethod|;
    CharsOfPart(s, i, httpMethod);
    assert Ends(MethodPart, s, i, x);
    SearchPiece(MethodPart, s, i, httpMethod, '/');
  }

  lemma ApiSearched(s: string, sp: Spans, region: string, accountId: string, apiId: string, httpMethod: string, rest: string)
    requires Laid(s, sp, region, accountId, apiId, httpMethod, rest) && WellFormedParts(region, accountId, apiId, httpMethod, rest)
    ensures Search(ApiPart, s, sp.accountEnd + 1, sp.accountEnd + 2) == Some(sp.apiEnd)
  {
    var i, x := sp.accountEnd + 1, sp.apiEnd;
    assert x == i + |apiId|;
    MethodSearched(s, sp, region, accountId, apiId, httpMethod, rest);
    CharsOfPart(s, i, apiId);
    assert s[x..x + |DefaultStage|] == DefaultStage;
    assert Search(MethodPart, s, x + |DefaultStage|, x + |DefaultStage| + 1).Some?;
    assert Ends(ApiPart, s, i, x);
    SearchPiece(ApiPart, s, i, apiId, '/');
  }

  lemma AccountSearched(s: string, sp: Spans, region: string, accountId: string, apiId: string, httpMethod: string, rest: string)
    requires Laid(s, sp, region, accountId, apiId, httpMethod, rest) && WellFormedParts(region, accountId, apiId, httpMethod, rest)
    ensures Search(AccountPart, s, sp.regionEnd + 1, sp.regionEnd + 2) == Some(sp.accountEnd)
  {
    ApiSearched(s, sp, region, accountId, apiId, httpMethod, rest);
    CharsOfPart(s, sp.regionEnd + 1, accountId);
    SearchPiece(AccountPart, s, sp.regionEnd + 1, accountId, ':');
  }

  lemma RegionSearched(s: string, sp: Spans, region: string, accountId: string, apiId: string, httpMethod: string, rest: string)
    requires Laid(s, sp, region, accountId, apiId, httpMethod, rest) && WellFormedParts(region, accountId, apiId, httpMethod, rest)
    ensures Search(RegionPart, s, sp.region, sp.region + 1) == Some(sp.regionEnd)
  {
    AccountSearched(s, sp, region, accountId, apiId, httpMethod, rest);
    CharsOfPart(s, sp.region, region);
    SearchPiece(RegionPart, s, sp.region, region, ':');
  }

  lemma PrefixSearched(s: string, sp: Spans, region: string, accountId: string, apiId: string, httpMethod: string, rest: string)
    requires Laid(s, sp, region, accountId, apiId, httpMethod, rest) && WellFormedParts(region, accountId, apiId, httpMethod, rest)
    ensures Search(WholeMatch, s, 0, 0) == Some(0)
  {
    RegionSearched(s, sp, region, accountId, apiId, httpMethod, rest);
    assert Ends(WholeMatch, s, 0, 0);
  }

  /** The spans of a laid-out route ARN are its groups. */
  lemma LocateLaid(s: string, sp: Spans, region: string, accountId: string, apiId: string, httpMethod: string, rest: string)
    requires Laid(s, sp, region, accountId, apiId, httpMethod, rest) && WellFormedParts(region, accountId, apiId, httpMethod, rest)
    ensures Locate(s) == Some(sp)
  {
    MethodSearched(s, sp, region, accountId, apiId, httpMethod, rest);
    ApiSearched(s, sp, region, accountId, apiId, httpMethod, rest);
    AccountSearched(s, sp, region, accountId, apiId, httpMethod, rest);
    RegionSearched(s, sp, region, accountId, apiId, httpMethod, rest);
    GroupsFrom(s, sp.region, sp.regionEnd, sp.accountEnd, sp.apiEnd, sp.methodEnd);
    PrefixSearched(s, sp, region, accountId, apiId, httpMethod, rest);
    LocateStart(s, 0);
  }

  lemma ParseLocated(s: string, sp: Spans)
    requires Locate(s) == Some(sp)
    ensures Ordered(s, sp) && ParseRouteArn(s) == Ok(Cut(s, sp))
  {
  }

  /** The groups of a laid-out route ARN are its parts. */
  lemma CutLaid(s: string, sp: Spans, region: string, accountId: string, apiId: string, httpMethod: string, rest: string)
    requires Laid(s, sp, region, accountId, apiId, httpMethod, rest) && WellFormedParts(region, accountId, apiId, httpMethod, rest)
    ensures Ordered(s, sp) && Cut(s, sp) == Route(region, accountId, httpMethod, "/" + rest)
  {
    CharsOfPart(s, sp.methodEnd + 1, rest);
    RestEndAll(s, sp.methodEnd + 1);
  }

  /** Parsing a route ARN built from well-formed parts gives the parts back, the path
      being `/` followed by everything after the method. */
  lemma ParseBuiltRouteArn(region: string, accountId: string, apiId: string, httpMethod: string, rest: string)
    requires WellFormedParts(region, accountId, apiId, httpMethod, rest)
    ensures ParseRouteArn(BuildRouteArn(region, accountId, apiId, httpMethod, rest))
      == Ok(Route(region, accountId, httpMethod, "/" + rest))
  {
    var s := BuildRouteArn(region, accountId, apiId, httpMethod, rest);
    var sp := BuiltSpans(region, accountId, apiId, httpMethod);
    BuiltLayout(region, accountId, apiId, httpMethod, rest);
    LocateLaid(s, sp, region, accountId, apiId, httpMethod, rest);
    ParseLocated(s, sp);
    CutLaid(s, sp, region, accountId, apiId, httpMethod, rest);
  }

  // ---------------------------------------------------------------- policy

  /** `const [ruleMethod, rulePath] = rule.split(":")`; a rule without `:` leaves
      `rulePath` undefined, which `startsWith` reads as the string "undefined". */
  function RuleParts(rule: string): (r: (string, string))
    ensures ':' !in r.0 && ':' !in r.1
  {
    var parts := Split(rule, ':');
    (parts[0], if |parts| >= 2 then parts[1] else "undefined")
  }

  /** `method.startsWith(ruleMethod) && path.startsWith(rulePath)`. */
  predicate RuleMatches(rule: string, httpMethod: string, path: string)
  {
    var (ruleMethod, rulePath) := RuleParts(rule);
    StartsWith(httpMethod, ruleMethod) && StartsWith(path, rulePath)
  }

  /** An empty policy lets every request through; otherwise some rule must match. */
  predicate PolicyPasses(policy: seq<string>, httpMethod: string, path: string)
  {
    |policy| == 0 || exists k :: 0 <= k < |policy| && RuleMatches(policy[k], httpMethod, path)
  }

  /** The loop over the policy's rules, stopping at the first one that matches. */
  method EvaluatePolicy(policy: seq<string>, httpMethod: string, path: string) returns (passed: bool)
    ensures passed == PolicyPasses(policy, httpMethod, path)
  {
    passed := false;
    if |policy| == 0 {
      passed := true;
    }
    var k := 0;
    var matched := false;
    while k < |policy| && !matched
      invariant 0 <= k <= |policy|
      invariant matched <==> exists j :: 0 <= j < k && RuleMatches(policy[j], httpMethod, path)
      invariant passed <==> |policy| == 0 || matched
    {
      if RuleMatches(policy[k], httpMethod, path) {
        passed := true;
        matched := true;
      }
      k := k + 1;
    }
  }

  /** A rule `M:P` whose parts hold no `:` matches exactly the requests whose method
      starts with `M` and whose path starts with `P`. */
  lemma RuleMatchesIff(ruleMethod: string, rulePath: string, httpMethod: string, path: string)
    requires ':' !in ruleMethod && ':' !in rulePath
    ensures RuleMatches(ruleMethod + ":" + rulePath, httpMethod, path)
      <==> StartsWith(httpMethod, ruleMethod) && StartsWith(path, rulePath)
  {
    SplitJoin([ruleMethod, rulePath], ':');
    assert Join([ruleMethod, rulePath], ':') == ruleMethod + ":" + rulePath;
  }

  /** Only the text up to a second `:` is the rule's path. */
  lemma RulePathStopsAtColon(ruleMethod: string, rulePath: string, tail: string, httpMethod: string, path: string)
    requires ':' !in ruleMethod && ':' !in rulePath
    ensures RuleMatches(ruleMethod + ":" + rulePath + ":" + tail, httpMethod, path)
      <==> RuleMatches(ruleMethod + ":" + rulePath, httpMethod, path)
  {
    SplitPrefix(ruleMethod, ':', rulePath + ":" + tail);
    SplitPrefix(rulePath, ':', tail);
    assert ruleMethod + ":" + rulePath + ":" + tail == ruleMethod + [':'] + (rulePath + [':'] + tail);
    RuleMatchesIff(ruleMethod, rulePath, httpMethod, path);
  }

  /** A rule without `:` compares the path with "undefined", which a path starting
      with `/` never starts with: such a rule matches nothing. */
  lemma RuleWithoutColonMatchesNothing(rule: string, httpMethod: string, path: string)
    requires ':' !in rule && |path| > 0 && path[0] == '/'
    ensures !RuleMatches(rule, httpMethod, path)
  {
    SplitNoSeparator(rule, ':');
  }

  // ---------------------------------------------------------------- the handler

  /** What the token's item grants: its principal and its policy rules. */
  datatype Grant = Grant(principal: string, policy: seq<string>)

  /** `!item?.token?.S || !item?.principal?.S` rejects the item; otherwise the grant
      carries `item.principal.S` and `item?.policy?.SS || []`. */
  function GrantOf(item: Option<Item>): (g: Option<Grant>)
    ensures g.Some? <==> (item.Some? && Token in item.value && item.value[Token].S.Some? && item.value[Token].S.value != ""
      && Principal in item.value && item.value[Principal].S.Some? && item.value[Principal].S.value != "")
    ensures g.Some? ==> g.value.principal == item.value[Principal].S.value
  {
    if item.None? then None
    else
      var it := item.value;
      if Token !in it || it[Token].S.None? || it[Token].S.value == "" then None
      else if Principal !in it || it[Principal].S.None? || it[Principal].S.value == "" then None
      else Some(Grant(it[Principal].S.value, if Policy in it && it[Policy].SS.Some? then it[Policy].SS.value else []))
  }

  /** The context handed to the API's integration. A field the handler leaves out
      of the object is `None`. */
  datatype Context = Context(
    principal: Option<string>, accountId: string, region: string, httpMethod: string, path: string,
    userAgent: Option<string>, policyPassed: Option<bool>)

  datatype Response = Response(isAuthorized: bool, context: Context)

  /** Reading `payload.headers["user-agent"]` when the payload has no headers. */
  const NoHeadersError := "TypeError: Cannot read properties of undefined (reading 'user-agent')"

  /** `authorizeRequest`: the route ARN must parse, the headers must be present, the
      token must be a non-empty string for the lookup to be accepted, and the lookup
      must answer 200. A token without a usable item is refused without a principal;
      otherwise the request is authorized exactly when the policy passes. */
  method AuthorizeRequest(table: Table, status: int, payload: Payload) returns (r: Result<Response>)
    ensures ParseRouteArn(payload.routeArn).Err? ==> r == Err("Invalid routeArn")
    ensures ParseRouteArn(payload.routeArn).Ok? && payload.headers.None? ==> r == Err(NoHeadersError)
    ensures ParseRouteArn(payload.routeArn).Ok? && payload.headers.Some? ==>
      var token := TokenOf(payload.headers);
      if token.None? || token.value == "" then r == Err("ValidationException")
      else if status != 200 then r == Err("Bad status code")
      else
        var route := ParseRouteArn(payload.routeArn).value;
        var grant := GrantOf(if token.value in table.items then Some(table.items[token.value]) else None);
        && r.Ok?
        && r.value.context.region == route.region && r.value.context.accountId == route.accountId
        && r.value.context.httpMethod == route.httpMethod && r.value.context.path == route.path
        && r.value.context.userAgent == payload.headers.value.userAgent
        && (r.value.isAuthorized <==> grant.Some? && PolicyPasses(grant.value.policy, route.httpMethod, route.path))
        && (r.value.context.principal.Some? <==> grant.Some?)
        && (grant.Some? ==>
              r.value.context.principal.value == grant.value.principal && r.value.context.policyPassed == Some(r.value.isAuthorized))
        && (grant.None? ==> r.value.context.policyPassed.None?)
  {
    var token := TokenOf(payload.headers);
    var route := ParseRouteArn(payload.routeArn);
    if route.Err? {
      return Err("Invalid routeArn");
    }
    if payload.headers.None? {
      return Err(NoHeadersError);
    }
    var userAgent := payload.headers.value.userAgent;
    if token.None? {
      return Err("ValidationException");
    }
    var found := table.GetItem(status, token.value);
    if found.Err? {
      return Err(found.message);
    }
    var rt := route.value;
    var grant := GrantOf(found.value);
    if grant.None? {
      return Ok(Response(false, Context(None, rt.accountId, rt.region, rt.httpMethod, rt.path, userAgent, None)));
    }
    var passed := EvaluatePolicy(grant.value.policy, rt.httpMethod, rt.path);
    return Ok(Response(passed, Context(Some(grant.value.principal), rt.accountId, rt.region, rt.httpMethod, rt.path, userAgent, Some(passed))));
  }
}
