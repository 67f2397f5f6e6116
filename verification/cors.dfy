/** cors.go: the CORS decision engine. A policy is compiled once from its
    options; for each request it decides whether the origin is accepted and
    which Access-Control-* response headers to set, for simple requests and
    for preflight requests. */
module Cors {
  import opened Optional
  import opened GoStrings
  import opened Strconv
  import opened Glob
  import opened Http

  /** The response headers the engine sets. */
  datatype CorsHeader =
    | AllowOrigin | AllowCredentials | AllowHeaders | AllowMethods | ExposeHeaders | MaxAge

  /** The name each header carries on the wire. */
  function Name(h: CorsHeader): string
  {
    match h
    case AllowOrigin => "Access-Control-Allow-Origin"
    case AllowCredentials => "Access-Control-Allow-Credentials"
    case AllowHeaders => "Access-Control-Allow-Headers"
    case AllowMethods => "Access-Control-Allow-Methods"
    case ExposeHeaders => "Access-Control-Expose-Headers"
    case MaxAge => "Access-Control-Max-Age"
  }

  /** No two headers share a wire name, so a map keyed by CorsHeader holds
      exactly what `Header().Set` on the names would. */
  lemma NamesDistinct()
    ensures forall a, b :: Name(a) == Name(b) ==> a == b
  {
  }

  /** The CORS headers of one response, one value per header, as
      `w.Header().Set` leaves them. */
  type CorsHeaders = map<CorsHeader, string>

  /** The allowed request headers a policy gets when it configures none. */
  const DefaultAllowHeaders: seq<string> := ["Origin", "Accept", "Content-Type", "Authorization"]

  /** time.Second, in the nanoseconds a time.Duration counts. */
  const Second: nat := 1_000_000_000

  /** time.Duration: a signed 64-bit count of nanoseconds. */
  type Duration = x: int | -0x8000_0000_0000_0000 <= x < 0x8000_0000_0000_0000

  /** CORSOptions. */
  datatype CorsOptions = CorsOptions(
    allowAllOrigins: bool,
    allowOrigins: seq<string>,
    allowCredentials: bool,
    allowMethods: seq<string>,
    allowHeaders: seq<string>,
    exposeHeaders: seq<string>,
    maxAge: Duration)

  /** DefaultCORSOptions: every origin, nothing else configured. */
  function DefaultCorsOptions(): (o: CorsOptions)
    ensures o.allowAllOrigins && !o.allowCredentials && o.maxAge == 0
    ensures o.allowOrigins == o.allowMethods == o.allowHeaders == o.exposeHeaders == []
  {
    CorsOptions(true, [], false, [], [], [], 0)
  }

  /** A compiled policy: the options after defaulting, and one anchored
      pattern per configured origin, owned by this policy alone. */
  datatype Cors = Cors(options: CorsOptions, patterns: seq<Pattern>)

  function CompileAll(origins: seq<string>): (ps: seq<Pattern>)
    ensures |ps| == |origins|
    ensures forall i :: 0 <= i < |origins| ==> ps[i] == Compile(origins[i])
  {
    if |origins| == 0 then [] else [Compile(origins[0])] + CompileAll(origins[1..])
  }

  /** The setup part of NewCORS: an empty AllowHeaders list becomes the
      default list, every other option is kept, and each configured origin is
      compiled into this policy's own pattern list. */
  function NewCors(opts: CorsOptions): (c: Cors)
    ensures |c.options.allowHeaders| > 0
    ensures |opts.allowHeaders| > 0 ==> c.options == opts
    ensures |opts.allowHeaders| == 0 ==> c.options == opts.(allowHeaders := DefaultAllowHeaders)
    ensures |c.patterns| == |opts.allowOrigins|
    ensures forall i :: 0 <= i < |opts.allowOrigins| ==> Source(c.patterns[i]) == opts.allowOrigins[i]
    ensures forall i :: 0 <= i < |opts.allowOrigins| ==> c.patterns[i] == Compile(opts.allowOrigins[i])
  {
    var options := if |opts.allowHeaders| == 0 then opts.(allowHeaders := DefaultAllowHeaders) else opts;
    Cors(options, CompileAll(opts.allowOrigins))
  }

  /** IsOriginAllowed: some compiled pattern matches the whole origin. */
  predicate IsOriginAllowed(c: Cors, origin: string)
  {
    exists i :: 0 <= i < |c.patterns| && Matches(c.patterns[i], origin)
  }

  /** The loop of IsOriginAllowed: try the patterns in order and stop at the
      first that matches the origin. */
  method ScanOrigins(c: Cors, origin: string) returns (allowed: bool)
    ensures allowed <==> IsOriginAllowed(c, origin)
  {
    var i := 0;
    while i < |c.patterns|
      invariant 0 <= i <= |c.patterns|
      invariant forall k :: 0 <= k < i ==> !Matches(c.patterns[k], origin)
    {
      if Matches(c.patterns[i], origin) {
        return true;
      }
      i := i + 1;
    }
    return false;
  }

  /** The origin gets CORS headers at all. */
  predicate Accepts(c: Cors, origin: string)
  {
    c.options.allowAllOrigins || IsOriginAllowed(c, origin)
  }

  /** `v` is the list joined with ",", no spaces, in list order; when no
      element holds a comma it splits back into exactly the list. */
  ghost predicate ListValue(v: string, xs: seq<string>)
  {
    && v == Join(xs, ',')
    && ((forall i :: 0 <= i < |xs| ==> ',' !in xs[i]) ==> Split(v, ',') == xs)
  }

  lemma ListValueOfJoin(xs: seq<string>)
    ensures |xs| > 0 ==> ListValue(Join(xs, ','), xs)
  {
    if |xs| > 0 && forall i :: 0 <= i < |xs| ==> ',' !in xs[i] {
      SplitJoin(xs, ',');
    }
  }

  /** `v` renders `d` nanoseconds as whole seconds, rounded down. */
  ghost predicate WholeSeconds(v: string, d: int)
  {
    IsSignedDecimal(v) && SignedValue(v) * Second <= d < (SignedValue(v) + 1) * Second
  }

  /** What every accepted origin gets, on both the simple and the preflight
      path: Allow-Origin is "*" under allow-all and
      otherwise the request's own origin (never a pattern); Allow-Credentials
      is always present and spells the configured flag exactly "true" or
      "false", which reads back as that flag; Expose-Headers
      is present exactly when configured; Max-Age is present exactly when
      positive, in whole seconds. */
  ghost predicate SharedHeaders(o: CorsOptions, origin: string, r: CorsHeaders)
  {
    && AllowOrigin in r
    && r[AllowOrigin] == (if o.allowAllOrigins then "*" else origin)
    && AllowCredentials in r
    && r[AllowCredentials] == (if o.allowCredentials then "true" else "false")
    && ParseBool(r[AllowCredentials]) == BoolResult(o.allowCredentials, NoError)
    && (ExposeHeaders in r <==> |o.exposeHeaders| > 0)
    && (ExposeHeaders in r ==> ListValue(r[ExposeHeaders], o.exposeHeaders))
    && (MaxAge in r <==> o.maxAge > 0)
    && (MaxAge in r ==> r[MaxAge] == FormatInt(o.maxAge / Second)
                              && WholeSeconds(r[MaxAge], o.maxAge))
  }

  /** Sets `k` to `v` when `cond` holds. */
  function PutIf(m: CorsHeaders, cond: bool, k: CorsHeader, v: string): CorsHeaders
  {
    if cond then m[k := v] else m
  }

  /** The headers both paths set for an accepted origin. */
  function BaseHeaders(o: CorsOptions, origin: string): (r: CorsHeaders)
    ensures SharedHeaders(o, origin, r)
    ensures AllowMethods !in r && AllowHeaders !in r
  {
    var m := map[AllowOrigin := if o.allowAllOrigins then "*" else origin,
                 AllowCredentials := FormatBool(o.allowCredentials)];
    var m := PutIf(m, |o.exposeHeaders| > 0, ExposeHeaders, Join(o.exposeHeaders, ','));
    ListValueOfJoin(o.exposeHeaders);
    ParseFormatBool(o.allowCredentials);
    PutIf(m, o.maxAge > 0, MaxAge, FormatInt(o.maxAge / Second))
  }

  /** Header: the response headers of a simple (non-preflight) request. A
      refused origin gets none; an accepted one gets the shared headers, and
      Allow-Methods and Allow-Headers exactly when those lists are configured,
      each the whole configured list. */
  function Header(c: Cors, origin: string): (r: CorsHeaders)
    ensures !Accepts(c, origin) ==> r == map[]
    ensures Accepts(c, origin) ==> SharedHeaders(c.options, origin, r)
    ensures Accepts(c, origin) ==> (AllowMethods in r <==> |c.options.allowMethods| > 0)
    ensures AllowMethods in r ==> ListValue(r[AllowMethods], c.options.allowMethods)
    ensures Accepts(c, origin) ==> (AllowHeaders in r <==> |c.options.allowHeaders| > 0)
    ensures AllowHeaders in r ==> ListValue(r[AllowHeaders], c.options.allowHeaders)
  {
    var o := c.options;
    if !Accepts(c, origin) then map[]
    else
      ListValueOfJoin(o.allowMethods);
      ListValueOfJoin(o.allowHeaders);
      var m := PutIf(BaseHeaders(o, origin), |o.allowMethods| > 0, AllowMethods, Join(o.allowMethods, ','));
      PutIf(m, |o.allowHeaders| > 0, AllowHeaders, Join(o.allowHeaders, ','))
  }

  /** A requested header is allowed when it equals some configured header up
      to case. */
  predicate Listed(h: string, allowed: seq<string>)
  {
    exists k :: 0 <= k < |allowed| && SameLower(h, allowed[k])
  }

  /** The entries of an Access-Control-Request-Headers value: split at commas,
      each trimmed of surrounding space. */
  function RequestedHeaders(rHeaders: string): (r: seq<string>)
    ensures |r| >= 1
    ensures |r| == |Split(rHeaders, ',')|
    ensures forall i :: 0 <= i < |r| ==> r[i] == TrimSpace(Split(rHeaders, ',')[i])
    ensures forall i :: 0 <= i < |r| ==> ',' !in r[i]
  {
    var pieces := Split(rHeaders, ',');
    TrimEachKeepsOut(pieces, ',');
    TrimEach(pieces)
  }

  /** Each entry trimmed of surrounding space, in order. */
  function TrimEach(xs: seq<string>): seq<string>
  {
    seq(|xs|, i requires 0 <= i < |xs| => TrimSpace(xs[i]))
  }

  /** Trimming each entry introduces no character into any of them. */
  lemma TrimEachKeepsOut(xs: seq<string>, c: char)
    requires forall i :: 0 <= i < |xs| ==> c !in xs[i]
    ensures forall i :: 0 <= i < |xs| ==> c !in TrimEach(xs)[i]
  {
    forall i | 0 <= i < |xs| ensures c !in TrimEach(xs)[i] {
      TrimSpaceKeepsOut(xs[i], c);
    }
  }

  /** Trimming never introduces a character. */
  lemma TrimSpaceKeepsOut(s: string, c: char)
    requires c !in s
    ensures c !in TrimSpace(s)
  {
    var i := |s| - |TrimLeftFunc(s, IsSpace)|;
    var j := i + |TrimSpace(s)|;
    TrimSpaceCut(s, i, j);
    assert forall k :: 0 <= k < j - i ==> TrimSpace(s)[k] == s[i + k];
  }

  /** The requested headers the policy grants: the listed entries of the
      request, in request order and with the requester's casing. */
  function GrantedHeaders(requested: seq<string>, allowed: seq<string>): (r: seq<string>)
    ensures |r| <= |requested|
  {
    if |requested| == 0 then []
    else (if Listed(requested[0], allowed) then [requested[0]] else []) + GrantedHeaders(requested[1..], allowed)
  }

  /** Each listed entry is granted exactly as often as it was requested, and
      no unlisted entry at all. */
  lemma {:induction false} GrantedHeadersCount(requested: seq<string>, allowed: seq<string>, h: string)
    ensures multiset(GrantedHeaders(requested, allowed))[h]
         == if Listed(h, allowed) then multiset(requested)[h] else 0
  {
    if |requested| > 0 {
      assert requested == [requested[0]] + requested[1..];
      GrantedHeadersCount(requested[1..], allowed, h);
    }
  }

  /** Granting works entry by entry, so it keeps the request order. */
  lemma {:induction false} GrantedHeadersAppend(a: seq<string>, b: seq<string>, allowed: seq<string>)
    ensures GrantedHeaders(a + b, allowed) == GrantedHeaders(a, allowed) + GrantedHeaders(b, allowed)
  {
    if |a| > 0 {
      assert (a + b)[1..] == a[1..] + b;
      GrantedHeadersAppend(a[1..], b, allowed);
    } else {
      assert a + b == b;
    }
  }

  /** A request that names only allowed headers is granted in full. */
  lemma {:induction false} GrantedAllListed(requested: seq<string>, allowed: seq<string>)
    requires forall i :: 0 <= i < |requested| ==> Listed(requested[i], allowed)
    ensures GrantedHeaders(requested, allowed) == requested
  {
    if |requested| > 0 {
      GrantedAllListed(requested[1..], allowed);
    }
  }

  lemma GrantedPair(a: string, b: string, allowed: seq<string>)
    requires Listed(a, allowed) && Listed(b, allowed)
    ensures GrantedHeaders([a, b], allowed) == [a, b]
  {
    assert [a, b][1..] == [b];
  }

  /** One more requested entry adds itself exactly when it is listed. */
  lemma GrantedHeadersSnoc(a: seq<string>, h: string, allowed: seq<string>)
    ensures GrantedHeaders(a + [h], allowed)
         == GrantedHeaders(a, allowed) + (if Listed(h, allowed) then [h] else [])
  {
    GrantedHeadersAppend(a, [h], allowed);
    assert GrantedHeaders([h], allowed) == (if Listed(h, allowed) then [h] else []) + GrantedHeaders([], allowed);
  }

  /** The inner loop of PreflightHeader: scan the allowed headers for a
      case-insensitive hit, stopping at the first. */
  method FindAllowed(h: string, allowHeaders: seq<string>) returns (found: bool)
    ensures found <==> Listed(h, allowHeaders)
  {
    found := false;
    var j := 0;
    while j < |allowHeaders| && !found
      invariant 0 <= j <= |allowHeaders|
      invariant found <==> exists k :: 0 <= k < j && SameLower(h, allowHeaders[k])
    {
      if ToLower(h) == ToLower(allowHeaders[j]) {
        found := true;
      }
      j := j + 1;
    }
  }

  /** The outer loop of PreflightHeader, as written: keep each requested
      entry the inner loop finds, in request order. */
  method FilterGranted(requested: seq<string>, allowHeaders: seq<string>) returns (allowed: seq<string>)
    ensures allowed == GrantedHeaders(requested, allowHeaders)
  {
    allowed := [];
    var i := 0;
    while i < |requested|
      invariant 0 <= i <= |requested|
      invariant allowed == GrantedHeaders(requested[..i], allowHeaders)
    {
      var found := FindAllowed(requested[i], allowHeaders);
      GrantedHeadersSnoc(requested[..i], requested[i], allowHeaders);
      assert requested[..i + 1] == requested[..i] + [requested[i]];
      if found {
        allowed := allowed + [requested[i]];
      }
      i := i + 1;
    }
    assert requested[..i] == requested;
  }

  /** The allowed headers of a preflight, computed by the loops above from the
      raw Access-Control-Request-Headers value. */
  method FilterRequestedHeaders(allowHeaders: seq<string>, rHeaders: string) returns (allowed: seq<string>)
    ensures allowed == GrantedHeaders(RequestedHeaders(rHeaders), allowHeaders)
  {
    allowed := FilterGranted(RequestedHeaders(rHeaders), allowHeaders);
  }

  /** PreflightHeader: the response headers of a preflight request. A refused
      origin gets none. An accepted one gets the shared headers; Allow-Methods
      exactly when the requested method is literally one of the configured
      methods, and then the whole configured list; Allow-Headers exactly when
      some requested header is granted, and then the granted ones. */
  function PreflightHeader(c: Cors, origin: string, rMethod: string, rHeaders: string): (r: CorsHeaders)
    ensures !Accepts(c, origin) ==> r == map[]
    ensures Accepts(c, origin) ==> SharedHeaders(c.options, origin, r)
    ensures Accepts(c, origin) ==> (AllowMethods in r <==> rMethod in c.options.allowMethods)
    ensures AllowMethods in r ==> ListValue(r[AllowMethods], c.options.allowMethods)
    ensures var granted := GrantedHeaders(RequestedHeaders(rHeaders), c.options.allowHeaders);
      && (Accepts(c, origin) ==> (AllowHeaders in r <==> |granted| > 0))
      && (AllowHeaders in r ==> ListValue(r[AllowHeaders], granted))
  {
    var o := c.options;
    if !Accepts(c, origin) then map[]
    else
      var requested := RequestedHeaders(rHeaders);
      var granted := GrantedHeaders(requested, o.allowHeaders);
      ListValueOfJoin(o.allowMethods);
      ListValueOfJoin(granted);
      var m := PutIf(BaseHeaders(o, origin), rMethod in o.allowMethods, AllowMethods, Join(o.allowMethods, ','));
      PutIf(m, |granted| > 0, AllowHeaders, Join(granted, ','))
  }

  /** What the CORS stage leaves on the response: headers, and a status when
      it answered the request itself. */
  datatype StageResult = StageResult(headers: CorsHeaders, status: Option<int>)

  /** A preflight: OPTIONS with a requested method or requested headers. */
  predicate IsPreflight(req: Request)
  {
    req.httpMethod == MethodOptions && (req.requestMethod != "" || req.requestHeaders != "")
  }

  /** The handler NewCORS returns: a preflight gets the preflight headers and
      status 200; every other request gets the simple headers and no status. */
  function Stage(c: Cors, req: Request): (r: StageResult)
    ensures r.status.Some? <==> IsPreflight(req)
    ensures r.status.Some? ==> r.status.value == StatusOK
    ensures IsPreflight(req) ==> r.headers == PreflightHeader(c, req.origin, req.requestMethod, req.requestHeaders)
    ensures !IsPreflight(req) ==> r.headers == Header(c, req.origin)
  {
    if IsPreflight(req) then
      StageResult(PreflightHeader(c, req.origin, req.requestMethod, req.requestHeaders), Some(StatusOK))
    else StageResult(Header(c, req.origin), None)
  }

  /** A policy's accepted origins depend on its own configured origins only. */
  lemma PolicyIsolation(opts: CorsOptions, origin: string)
    ensures IsOriginAllowed(NewCors(opts), origin)
      <==> exists i :: 0 <= i < |opts.allowOrigins| && Matches(Compile(opts.allowOrigins[i]), origin)
  {
  }

  /** cors.go as written keeps the compiled patterns in one process-wide list:
      NewCORS appends the new policy's patterns to it, and IsOriginAllowed
      consults all of it, whichever policy asks. */
  function NewCorsShared(shared: seq<Pattern>, opts: CorsOptions): (r: (seq<Pattern>, CorsOptions))
    ensures r.0 == shared + NewCors(opts).patterns
    ensures r.1 == NewCors(opts).options
  {
    var c := NewCors(opts);
    (shared + c.patterns, c.options)
  }

  predicate IsOriginAllowedShared(shared: seq<Pattern>, origin: string)
  {
    exists i :: 0 <= i < |shared| && Matches(shared[i], origin)
  }

  /** The leak: once a policy for origin `a` is built, a second policy that
      lists only a different origin `b` accepts `a` as well, although its own
      patterns refuse it. */
  lemma SharedPatternsLeak(base: CorsOptions, a: string, b: string)
    requires NoWildcards(a) && NoWildcards(b) && a != b
    ensures var first := NewCorsShared([], base.(allowOrigins := [a]));
      var second := NewCorsShared(first.0, base.(allowOrigins := [b]));
      && IsOriginAllowedShared(second.0, a)
      && !IsOriginAllowed(NewCors(base.(allowOrigins := [b])), a)
  {
    var first := NewCorsShared([], base.(allowOrigins := [a]));
    var second := NewCorsShared(first.0, base.(allowOrigins := [b]));
    LiteralMatch(a, a);
    LiteralMatch(b, a);
    assert second.0[0] == Compile(a);
    assert Matches(second.0[0], a);
  }

  /** The simple-request example of the CORS tests: allow-all, credentials,
      two methods, two headers, two exposed headers, five minutes. */
  lemma HeaderExample()
    ensures var c := NewCors(CorsOptions(true, [], true, [MethodPatch, MethodGet],
                                         ["Origin", "X-whatever"], ["Content-Length", "Hello"],
                                         5 * 60 * Second));
      Header(c, "") == map[
        AllowOrigin := "*",
        AllowCredentials := "true",
        AllowMethods := "PATCH,GET",
        AllowHeaders := "Origin,X-whatever",
        ExposeHeaders := "Content-Length,Hello",
        MaxAge := "300"]
  {
    var o := CorsOptions(true, [], true, [MethodPatch, MethodGet],
                         ["Origin", "X-whatever"], ["Content-Length", "Hello"], 5 * 60 * Second);
    var c := NewCors(o);
    assert c.options == o;
    assert Accepts(c, "");
    ExampleJoins();
    assert o.maxAge / Second == 300;
    ThreeHundredSeconds();
  }

  lemma ExampleJoins()
    ensures Join([MethodPatch, MethodGet], ',') == "PATCH,GET"
    ensures Join(["Origin", "X-whatever"], ',') == "Origin,X-whatever"
    ensures Join(["Content-Length", "Hello"], ',') == "Content-Length,Hello"
  {
  }

  lemma ThreeHundredSeconds()
    ensures FormatInt(300) == "300"
  {
    assert FormatUint(3) == "3";
    assert FormatUint(30) == "30";
  }

  /** With no configured headers, the simple response lists the defaults. */
  lemma DefaultAllowHeadersExample()
    ensures var c := NewCors(CorsOptions(true, [], false, [], [], [], 0));
      AllowHeaders in Header(c, "") && Header(c, "")[AllowHeaders] == "Origin,Accept,Content-Type,Authorization"
  {
    var c := NewCors(CorsOptions(true, [], false, [], [], [], 0));
    assert Accepts(c, "");
    DefaultAllowHeadersJoined();
  }

  lemma JoinFour(a: string, b: string, c: string, d: string, sep: char)
    ensures Join([a, b, c, d], sep) == a + [sep] + b + [sep] + c + [sep] + d
  {
    assert [c, d][1..] == [d];
    assert Join([c, d], sep) == c + [sep] + d;
    assert [b, c, d][1..] == [c, d];
    assert Join([b, c, d], sep) == b + [sep] + c + [sep] + d;
    assert [a, b, c, d][1..] == [b, c, d];
  }

  lemma DefaultAllowHeadersJoined()
    ensures Join(DefaultAllowHeaders, ',') == "Origin,Accept,Content-Type,Authorization"
  {
    JoinFour("Origin", "Accept", "Content-Type", "Authorization", ',');
  }

  /** The policy of the preflight example of the CORS tests. */
  function PreflightPolicy(): Cors
  {
    NewCors(CorsOptions(true, [], false, [MethodPut, MethodPatch],
                        ["Origin", "X-whatever", "X-CaseSensitive"], [], 0))
  }

  /** The Access-Control-Request-Headers value of that example. */
  const PreflightRequestHeaders := "X-whatever, x-casesensitive"

  /** The preflight example of the CORS tests: the requested method is one of
      the configured ones, so the whole method list is sent, and the stage
      answers with status 200. */
  lemma PreflightExample()
    ensures var r := Stage(PreflightPolicy(),
                           Request(MethodOptions, "foo", "", MethodPut, PreflightRequestHeaders));
      && r.status == Some(StatusOK)
      && AllowMethods in r.headers && r.headers[AllowMethods] == "PUT,PATCH"
      && AllowOrigin in r.headers && r.headers[AllowOrigin] == "*"
  {
    assert Accepts(PreflightPolicy(), "");
    PreflightJoins();
  }

  /** Both requested headers of that example are granted, the second only up
      to case, each with the requester's spelling. ExampleRequestedHeaders
      shows that the example's raw value splits and trims into these two
      entries. */
  lemma PreflightGrantedExample(c: Cors, rHeaders: string)
    requires c == PreflightPolicy()
    requires RequestedHeaders(rHeaders) == ["X-whatever", "x-casesensitive"]
    ensures var r := PreflightHeader(c, "", MethodPut, rHeaders);
      AllowHeaders in r && r[AllowHeaders] == "X-whatever,x-casesensitive"
  {
    var requested := RequestedHeaders(rHeaders);
    ExampleHeadersListed(requested, c.options.allowHeaders);
    GrantedPair(requested[0], requested[1], c.options.allowHeaders);
    assert requested == [requested[0], requested[1]];
    GrantedJoin();
  }

  lemma ExampleHeadersListed(requested: seq<string>, allowed: seq<string>)
    requires requested == ["X-whatever", "x-casesensitive"]
    requires allowed == ["Origin", "X-whatever", "X-CaseSensitive"]
    ensures Listed(requested[0], allowed) && Listed(requested[1], allowed)
  {
    ListedAt(requested[0], allowed, 1);
    CaseSensitiveFolds();
    ListedAt(requested[1], allowed, 2);
  }

  /** A header equal up to case to the allowed entry at `k` is listed. */
  lemma ListedAt(h: string, allowed: seq<string>, k: int)
    requires 0 <= k < |allowed| && ToLower(h) == ToLower(allowed[k])
    ensures Listed(h, allowed)
  {
    assert SameLower(h, allowed[k]);
  }

  lemma GrantedJoin()
    ensures Join(["X-whatever", "x-casesensitive"], ',') == "X-whatever,x-casesensitive"
  {
  }

  lemma PreflightJoins()
    ensures Join(["X-whatever", " x-casesensitive"], ',') == "X-whatever, x-casesensitive"
    ensures Join([MethodPut, MethodPatch], ',') == "PUT,PATCH"
  {
  }

  lemma ExampleRequestedHeaders()
    ensures RequestedHeaders(PreflightRequestHeaders) == ["X-whatever", "x-casesensitive"]
  {
    var pieces := ["X-whatever", " x-casesensitive"];
    PreflightJoins();
    assert ',' !in pieces[0] && ',' !in pieces[1];
    SplitJoin(pieces, ',');
    ExampleTrims(pieces[0], pieces[1], "x-casesensitive");
  }

  /** The two entries of that value, trimmed. */
  lemma ExampleTrims(first: string, spaced: string, second: string)
    requires first == "X-whatever" && spaced == " x-casesensitive" && second == "x-casesensitive"
    ensures TrimSpace(first) == first
    ensures TrimSpace(spaced) == second
  {
    TrimSpaceKeeps(first);
    assert spaced == [' '] + second;
    TrimSpaceDropsLead(' ', second);
  }

  lemma CaseSensitiveFolds()
    ensures ToLower("x-casesensitive") == ToLower("X-CaseSensitive")
  {
  }
}
