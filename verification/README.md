# rest: router, CORS engine and converters, in Dafny

This project models the core of `rest`, a small Go HTTP toolkit, and proves
properties of the model. The core has four parts:

- **The dispatcher** (`service.go`, module `Dispatcher`). A `Service` holds one
  route table per HTTP method and a middleware chain that wraps every
  registered handler. It also holds the error and not-found handlers and at
  most one options stage, the CORS policy.
  - `New` builds a service from a `Configuration` and a list of registrators.
  - `Register` and `Route` file the routes.
  - `Serve` is `ServeHTTP`. It normalises the path, runs the CORS stage, stops
    every OPTIONS request, and otherwise runs the matched handler or the
    not-found handler.
- **The CORS engine** (`cors.go`, modules `Cors` and `Glob`).
  - `NewCors` compiles a policy: it fills in default allowed headers and turns
    each configured origin into an anchored pattern in which `*` and `?` are
    wildcards.
  - `Header` and `PreflightHeader` decide the `Access-Control-*` headers of a
    simple request and of a preflight.
  - `Stage` is the handler `NewCORS` returns.
- **The converters** (`convert.go`, module `Convert`). These turn request
  strings into typed values with an ok flag. They sit on a model of the base-10
  parsers and printers of Go's `strconv` (module `Strconv`).
- **Common types** (`common.go`, module `Common`). These are the bound route
  parameters with `Params.Get`, and the `Int32Slice` sort adapter.

Supporting modules:

- `GoStrings`: `strings.Split`, `Join`, `TrimSpace`, `TrimRight`, `ToLower`,
  and `SameLower`, the comparison `strings.ToLower(a) == strings.ToLower(b)`
  that cors.go:108 makes (it does not call `strings.EqualFold`).
- `Http`: the request fields the router reads.
- `Optional`: Go's nil values.

Handlers, middlewares and error handlers are opaque type parameters (`H`, `E`).
A middleware is a function `H -> H`. Two operations are parameters of the
model, and every property stated about them says what it assumes:

- the route tree's lookup (`getValue`);
- `path.Join`, which is assumed only to satisfy `ValidJoin` (rooted in, rooted
  and without a trailing slash out).

Three behaviours of the code are easy to miss:

- The request path loses **all** its trailing slashes, not just one
  (`strings.TrimRight`, service.go:110). `"//"` becomes `""`, not `"/"`
  (`Dispatcher.SlashesOnlyCollapse`).
- **Every** OPTIONS request ends after the options chain, preflight or not. An
  OPTIONS route is filed but its handler never runs (service.go:116-118).
- `NotFoundHandler` (status 404) is never installed by `New`. Unmatched
  requests go to the configured error handler, which is `DefaultErrorHandler`
  (status 500) when none is configured (service.go:56-59).

## Model

| member | source | states |
|---|---|---|
| `Convert.ToBool` | convert.go:9-12 | ok exactly for the twelve spellings ParseBool knows; the value is true exactly for the six true spellings |
| `Convert.ToString` | convert.go:27-29 | the input is returned unchanged; ok exactly when it is non-empty |
| `Convert.ToInt` | convert.go:32-35 | ok exactly for an optionally signed digit run whose value fits in 64-bit int; the value is then that number. On failure it is the bound on the sign's side after a range error (including an overflowing digit run before a non-digit), else 0 |
| `Convert.ToInt32` | convert.go:38-41 | ok exactly for an optionally signed digit run within the int32 range; the value is then that number. On failure it is the int32 bound on the sign's side after a range error, else 0 |
| `Convert.ToInt64` | convert.go:44-47 | ok exactly for an optionally signed digit run within the int64 range; the value is then that number. On failure it is the int64 bound on the sign's side after a range error, else 0 |
| `Convert.ToUint` | convert.go:50-53 | ok exactly for an unsigned digit run whose value fits in 64-bit uint, and the value is then that number; no sign is accepted. On failure the value is 2^64-1 when a leading digit run overflows, else 0 |
| `Convert.ToUint32` | convert.go:56-59 | ok exactly for an unsigned digit run below 2^32; the value is then that number. On failure it is 2^32-1 when a leading digit run overflows, else 0 |
| `Convert.ToUint64` | convert.go:62-65 | ok exactly for an unsigned digit run below 2^64; the value is then that number. On failure it is 2^64-1 when a leading digit run overflows, else 0 |
| `Convert.ConvertRoundTrip` | convert.go:32-65 | every in-range value of each integer type is read back, ok, from its decimal rendering |
| `Convert.ConvertBoolRoundTrip` | convert.go:9-12 | every bool is read back, ok, from its FormatBool spelling |
| `Convert.UnsignedRejectsSign` | convert.go:50-65 | a leading '+' or '-' makes every unsigned converter fail with value 0 |
| `Convert.ConvertExamples` | convert_test.go:9-463 | the table cases: "true", "false", "someting else", "test", "", "-03", "03", "2.1", "-1", "02" |
| `Convert.Int32OverflowExample` | convert.go:38-41 | "3000000000" fails as int32 with the int32 maximum as value |
| `Convert.Uint32OverflowExample` | convert.go:56-59 | "99999999999x" fails as uint32 with the maximum, not 0: the overflow is seen before the non-digit |
| `Strconv.ParseUint` | convert.go:50-65 | no error exactly for a non-empty digit run within the bit size, with its value. ErrRange, with the maximum, exactly when some leading run of digits already exceeds the maximum, whatever follows it; otherwise 0 and ErrSyntax |
| `Strconv.ParseInt` | convert.go:32-47 | no error exactly for an optionally signed digit run within the signed range. ErrRange, with the bound on the sign's side, exactly when the unsigned scan of the magnitude overflows or the signed value is outside the range; otherwise 0 and ErrSyntax |
| `Strconv.FormatInt` | cors.go:82-84 | the rendering is a signed decimal that denotes the number: it starts with '-' exactly for negative numbers, never with '+', and has no leading zero unless it is "0" |
| `Common.Get` | common.go:75-84 | "" when no pair has the key; otherwise the value of the first pair with that key |
| `Common.GetConcat` | common.go:75-84 | appended pairs are shadowed by an earlier pair with the same key and are consulted only when no earlier pair has it |
| `Common.Len` | common.go:101 | the slice's length |
| `Common.Less` | common.go:102 | position i is before position j exactly when its int32 value is smaller |
| `Common.Swap` | common.go:103 | the two positions trade values, every other position keeps its value, the length and the multiset are kept |
| `Common.Sort` | common.go:105-106 | the result is sorted by Less and is a permutation of the input |
| `Common.SortedPermutationUnique` | common.go:105-106 | two sorted permutations of the same slice are equal, so any sort algorithm gives the same result |
| `Glob.Matches` | cors.go:139 | the anchored `^…$` match: a run token takes any run of characters other than newline, an any-character token exactly one such character, a literal exactly its own character, and the whole origin must be used up |
| `Glob.Compile` | cors.go:153-158 | one token per origin character, and the origin is read back from the pattern |
| `Glob.CompilePositions` | cors.go:153-158 | position by position, `*` and only `*` becomes a run of any characters, `?` and only `?` any one character, and every other character a literal of itself |
| `Glob.LiteralMatch` | cors.go:153-158 | an origin without wildcards accepts exactly itself: quoting makes every other character literal and the pattern is anchored at both ends |
| `Glob.StarSuffix` | cors.go:155 | `*suffix` accepts exactly the strings that end in the suffix with no newline before it |
| `Glob.WildcardBetweenLiterals` | cors.go:153-158 | `prefix*suffix` accepts exactly the strings that start with the prefix and end with the suffix, are long enough for both, and hold no newline in between |
| `Glob.QuestionBetweenLiterals` | cors.go:156 | `prefix?suffix` accepts exactly the strings made of the prefix, one character other than a newline, and the suffix |
| `Glob.SubdomainWildcardExamples` | cors_test.go:53-90 | `https://*.cs.com` accepts `https://bar.cs.com` and refuses the two look-alike hosts of the tests |
| `Cors.DefaultCorsOptions` | cors.go:49-53 | all origins are allowed and nothing else is configured |
| `Cors.NewCors` | cors.go:148-158 | an empty AllowHeaders becomes the default list and every other option is kept; the policy owns one compiled pattern per configured origin, in order |
| `Cors.Header` | cors.go:56-86 | a refused origin gets no header. An accepted one gets: Allow-Origin "*" or its own origin; Allow-Credentials exactly "true" or "false" as the flag; Allow-Methods, Allow-Headers and Expose-Headers exactly when configured, as the comma-joined list; Max-Age exactly when positive, in whole seconds rounded down |
| `Cors.PreflightHeader` | cors.go:89-133 | same as Header for Origin, Credentials, Expose and Max-Age. Allow-Methods is the whole list exactly when the requested method is literally configured. Allow-Headers is the comma-joined granted entries exactly when some are granted |
| `Cors.RequestedHeaders` | cors.go:104-105 | one entry per comma-separated piece of the header value, in order, each that piece with surrounding space trimmed; there is at least one, and none holds a comma |
| `GoStrings.TrimSpaceSlice` | cors.go:105 | what TrimSpace keeps is a window of its input, and everything cut before and after that window is space |
| `Cors.GrantedHeadersCount` | cors.go:103-113 | each requested entry that matches a configured header up to case is granted as often as it is requested; no other entry is granted |
| `Cors.GrantedHeadersAppend` | cors.go:103-113 | granting works entry by entry, so request order is kept |
| `Cors.GrantedAllListed` | cors.go:103-113 | a request that names only configured headers is granted in full, with the requester's spelling |
| `Cors.FindAllowed` | cors.go:106-112 | the inner loop finds a hit exactly when the header equals some configured header up to case |
| `Cors.FilterGranted` | cors.go:103-113 | the outer loop keeps exactly the granted entries, in request order |
| `Cors.FilterRequestedHeaders` | cors.go:103-113 | from the raw header value, the loops compute exactly the granted headers of the split and trimmed entries |
| `Cors.Stage` | cors.go:160-183 | a status is written exactly for a preflight, and it is 200. A preflight gets the preflight headers; every other request gets the simple headers |
| `Cors.IsOriginAllowed` | cors.go:137-145 | an origin is allowed exactly when some compiled pattern of the policy matches all of it |
| `Cors.ScanOrigins` | cors.go:137-145 | the loop that tries the patterns in order and returns at the first match answers exactly IsOriginAllowed |
| `Cors.NamesDistinct` | cors.go:14-19 | the six Access-Control header names are pairwise distinct |
| `Cors.PolicyIsolation` | cors.go:137-145 | a policy accepts exactly the origins matched by the patterns of its own configured origins |
| `Cors.NewCorsShared` | cors.go:153-158 | as written, building a policy appends its patterns to the process-wide list |
| `Cors.SharedPatternsLeak` | cors.go:137-158 | as written, after a policy for origin a, a policy that lists only b accepts a, although its own patterns refuse a |
| `Cors.HeaderExample` | cors_test.go:92-133 | the simple-request example yields exactly the six expected headers, including Max-Age "300" |
| `Cors.DefaultAllowHeadersExample` | cors_test.go:135-150 | with no configured headers, Allow-Headers is "Origin,Accept,Content-Type,Authorization" |
| `Cors.PreflightExample` | cors_test.go:152-195 | the preflight example gets status 200, Allow-Methods "PUT,PATCH" and Allow-Origin "*" |
| `Cors.ExampleRequestedHeaders` | cors_test.go:168 | "X-whatever, x-casesensitive" splits and trims into "X-whatever" and "x-casesensitive" |
| `Cors.PreflightGrantedExample` | cors_test.go:152-195 | both requested headers are granted, the second only up to case, each in the requester's spelling |
| `Dispatcher.NormalizePath` | service.go:109-111 | the result is a prefix of the path and only slashes are removed; with trimming on, the result of any path but "/" does not end in a slash (so "///" becomes ""); "/" and paths with trimming off are unchanged |
| `Dispatcher.NormalizeIdempotent` | service.go:109-111 | normalising twice is normalising once |
| `Dispatcher.NormalizeExtraSlash` | service.go:109-111 | a path with one more trailing slash normalises to the same path, except for "" and "/" |
| `Dispatcher.SlashesOnlyCollapse` | service.go:109-111 | "//" normalises to "", not to the root |
| `Dispatcher.WrapHandler` | service.go:90-92 | the loop from the last middleware down to the first builds the handler with chain[0] outermost |
| `Dispatcher.NestAppend` | service.go:90-92 | wrapping in a concatenated chain wraps in the back part first, then in the front part |
| `Dispatcher.ChainOrder` | service.go:36-37 | on a request, layers are entered from index 0 up, then the handler runs, then layers are left from the last index down |
| `Dispatcher.Route` | service.go:147-155 | only the method's table changes; it gains exactly one entry at its end, under the base URI joined with the path stripped of trailing slashes; that path is rooted and already normalised |
| `Dispatcher.Register` | service.go:86-102 | only the tables change, and each table keeps its old entries as a prefix |
| `Dispatcher.RegisterTables` | service.go:86-102 | each method's table grows by exactly the routes of that method's specs, in spec order, and by nothing else |
| `Dispatcher.RegisterFiles` | service.go:86-102 | every spec ends up in its method's table, wrapped in the chain, at the joined and trimmed path |
| `Dispatcher.RegisterTouchesOnlyNamed` | service.go:86-102 | the methods with a table grow by exactly the methods the specs name; every other method's table is unchanged |
| `Dispatcher.RegisterAll` | service.go:61-71 | startup is fatal exactly when some registrator rejects the error handler, and the first such registrator is named. Otherwise only the tables change, and they only grow |
| `Dispatcher.RegisterAllTables` | service.go:61-71 | after a successful startup, each method's table is its old table followed by exactly FiledAll: each registrator's routes once, registrator after registrator, each in spec order |
| `Dispatcher.RegisterAllFiles` | service.go:61-71 | after a successful startup, every route of every registrator is filed |
| `Dispatcher.New` | service.go:45-83 | slash trimming is on, the base URI is rooted with no trailing slash, and the chain is kept. The error and not-found handlers are the same and default to DefaultErrorHandler. A CORS stage exists exactly when asked for, with DefaultCORSOptions when no options are given. Unless startup is fatal, each method's table is exactly FiledAll of the registrators: every route filed once, registrator after registrator and each in spec order |
| `Dispatcher.Serve` | service.go:105-140 | every OPTIONS request stops after the stage. Other requests run the matched handler with its parameters when the method's table matches the normalised path, else the not-found handler with "contextHandler not found". Without CORS no header or status is written. With CORS, the headers are the stage's headers, and status 200 is written exactly for a preflight |
| `Dispatcher.CorsIndependentOfRoutes` | service.go:113-115 | the CORS headers and status do not depend on routes, lookup or handlers |
| `Dispatcher.OnlyOwnTable` | service.go:123-128 | only the table of the request's method affects the outcome |
| `Dispatcher.ExtraSlashServedAlike` | service.go:109-111 | a request with one more trailing slash is served exactly like the path itself |
| `Dispatcher.StoredPathReachesLookup` | service.go:152 | a request for the path Route stored reaches the lookup unchanged and runs the handler when the lookup finds it |
| `Dispatcher.NeverBareNotFound` | service.go:56-59 | a service New builds never falls back to the bare not-found reply |
| `Dispatcher.PreflightBypassesOptionsRoute` | service.go:113-118 | with CORS, a preflight gets status 200 and stops, even when an OPTIONS route is registered |
| `Dispatcher.AllowAllExample` | cors_test.go:40-51 | CORS on with no options: every request gets Allow-Origin "*" |

## Left out

- The route tree (`node`, `addRoute`, `getValue`) is not part of this model. A
  table is the list of paths filed into it, and lookup is a parameter of
  `Serve`.
- `path.Join` is a parameter. The only property assumed of it is `ValidJoin`:
  joined onto a rooted first element, the result is rooted and has no trailing
  slash.
- Handlers, middlewares and error handlers are opaque.
  - Their bodies, the response writer, `ParseForm` and the request context are
    not modelled.
  - The bound parameters travel in the `Invoked` outcome instead of the
    context, so `GetParams` (service.go:142-144) needs no model.
  - `DefaultErrorHandler` and `NotFoundHandler` are named by what they are; the
    status they write is not modelled.
- `log.Fatalf` in `New` is the `Fatal` result, which names the registrator.
- Dispatcher.Register: the error returned by `Route` is always nil
  (service.go:154), so the early return at service.go:96-98 cannot happen and
  is not modelled.
- The shorthands `Get`, `Post`, `Put`, `Delete`, `Patch`, `Head` and `Options`
  (service.go:157-190) each call `Route` with a fixed method and drop its
  (always nil) error. They are covered by `Dispatcher.Route`.
- `ContextHandler.ServeHTTP`, `ServeWithContext`, `ToContextHandler`,
  `SetStatus` and the `Statuser` interface (common.go:17-47, 86-96) only adapt
  function types and write a status. They have no logic beyond the type switch
  and are not modelled.
- `ToFloat32`, `ToFloat64` (floating point) and `ToBytes` (base64 decoding) in
  convert.go:14-24 and 67-71 are not modelled.
- `strconv.ParseInt`/`ParseUint` are modelled for base 10 and bit sizes 0, 32
  and 64 only, the ones convert.go passes. The platform `int` is taken to be 64
  bits wide.
- Cors.PreflightHeader: `strings.ToLower`, and so `SameLower`, is modelled on ASCII
  letters only; Unicode case mapping is not modelled.
- Cors.NewCors: `NewCORS` also writes the default header list back into the
  caller's `CORSOptions` (cors.go:149-151). The model returns the defaulted
  options in the policy instead of mutating the argument.
- Header names are an enumerated type, and `Cors.Name` gives each one its wire
  spelling. Headers that `w.Header().Set` writes are a map from that type;
  `Cors.NamesDistinct` shows no two of them share a name, so nothing is lost.
- `Common.Sort` sorts by insertion, not by Go's `sort.Sort` algorithm.
  `Common.SortedPermutationUnique` shows the result is the same.
- Origin patterns are modelled as tokens and an anchored match, not as Go
  regular expressions. This is exact for patterns built by `NewCORS`: every
  character but `*` and `?` is quoted, and a wildcard does not match a
  newline, as with Go's default flags.

## Findings

| source | as written | input that shows it | evidently intended | confidence | as-written member | corrected member |
|---|---|---|---|---|---|---|
| cors.go:28 | The compiled origin patterns live in one process-wide list. `NewCORS` appends to it (cors.go:157), and `IsOriginAllowed` consults all of it (cors.go:138), so every policy ever built in the process accepts every origin any policy configured. | Two services are built, the first with `AllowOrigins: ["https://a.org"]`, the second with `["https://b.org"]`. A request with `Origin: https://a.org` to the second service gets CORS headers. | Each policy accepts only the origins matched by its own configured patterns. | not executed | `Cors.SharedPatternsLeak` | `Cors.NewCors` |
