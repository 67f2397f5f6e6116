/** service.go: the dispatcher. A service holds one route table per HTTP
    method, the middleware chain every registered handler is wrapped in, the
    error and not-found handlers, and at most one options stage (the CORS
    policy). This module states how a service is built and what it does with
    each request. The route tree itself is not part of this model: a table is
    the list of routes filed into it, and lookup is a parameter. */
module Dispatcher {
  import opened Optional
  import opened GoStrings
  import opened Common
  import opened Http
  import opened Cors

  /** The error handler a service calls for unmatched requests.
      DefaultErrorHandler replies with the error text and status 500. */
  datatype ErrorHandler<E> = DefaultErrorHandler | Configured(handler: E)

  /** One route filed into a method's table: its full path and its wrapped
      handler. */
  datatype RouteEntry<H> = RouteEntry(path: string, handler: H)

  type RouteTable<H> = seq<RouteEntry<H>>

  /** What a successful lookup yields: the handler and the bound parameters. */
  datatype Match<H> = Match(handler: H, params: Params)

  /** `getValue` on one method's tree. */
  type Lookup<!H> = (RouteTable<H>, string) -> Option<Match<H>>

  /** A Middleware: wraps a handler in another one. */
  type Middleware<!H> = H -> H

  /** path.Join over its list of elements. */
  type PathJoin = seq<string> -> string

  /** Service. `cors` is the options chain, which New fills with at most the
      CORS stage. */
  datatype Service<!H, E> = Service(
    routes: map<string, RouteTable<H>>,
    cors: Option<Cors>,
    chain: seq<Middleware<H>>,
    notFoundHandler: Option<ErrorHandler<E>>,
    errorHandler: Option<ErrorHandler<E>>,
    trimSlash: bool,
    baseURI: string)

  /** Configuration. */
  datatype Configuration<!H, E> = Configuration(
    baseURI: string,
    errorHandler: Option<E>,
    chain: seq<Middleware<H>>,
    cors: bool,
    corsOptions: Option<CorsOptions>)

  /** Register: one route a registrator asks for. */
  datatype RouteSpec<H> = RouteSpec(verb: string, path: string, handler: H)

  /** A HandlerRegistration, by what New asks of it: its routes, its base URI,
      and whether its SetErrorHandler reports an error. */
  datatype Registration<H> = Registration(
    handlers: seq<RouteSpec<H>>,
    baseURI: string,
    rejectsErrorHandler: bool)

  /** What New ends in: a service, or process exit through log.Fatalf caused
      by the registrator at the given index. */
  datatype Startup<!H, E> = Started(service: Service<H, E>) | Fatal(registrator: nat)

  // ---------------------------------------------------------------- paths

  predicate Rooted(p: string)
  {
    |p| > 0 && p[0] == '/'
  }

  predicate NoTrailingSlash(p: string)
  {
    p == "/" || |p| == 0 || p[|p| - 1] != '/'
  }

  /** What the router needs of path.Join: joined onto a rooted first element,
      the result is rooted and has no trailing slash unless it is "/". */
  ghost predicate ValidJoin(join: PathJoin)
  {
    forall xs :: |xs| > 0 && Rooted(xs[0]) ==> Rooted(join(xs)) && NoTrailingSlash(join(xs))
  }

  /** The path normalisation of ServeHTTP: unless the path is "/", every
      trailing slash is removed, not just one. */
  function NormalizePath(p: string, trimSlash: bool): (r: string)
    ensures |r| <= |p| && r == p[..|r|]
    ensures forall k :: |r| <= k < |p| ==> p[k] == '/'
    ensures trimSlash ==> NoTrailingSlash(r)
    ensures trimSlash && p != "/" ==> |r| == 0 || r[|r| - 1] != '/'
    ensures !trimSlash || p == "/" ==> r == p
  {
    if p != "/" && trimSlash then TrimRight(p, '/') else p
  }

  /** A path without trailing slash is left alone. */
  lemma NormalizeKeeps(p: string)
    requires NoTrailingSlash(p)
    ensures NormalizePath(p, true) == p
  {
    if p != "/" && |p| > 0 {
      assert TrimRight(p, '/') == p;
    }
  }

  /** Normalising twice is normalising once. */
  lemma NormalizeIdempotent(p: string, trimSlash: bool)
    ensures NormalizePath(NormalizePath(p, trimSlash), trimSlash) == NormalizePath(p, trimSlash)
  {
    if trimSlash {
      NormalizeKeeps(NormalizePath(p, trimSlash));
    }
  }

  /** A path and the same path with one more slash are served alike, except
      for "" and "/" themselves. */
  lemma NormalizeExtraSlash(p: string)
    requires p != "" && p != "/"
    ensures NormalizePath(p + "/", true) == NormalizePath(p, true)
  {
    var q := p + "/";
    assert q[..|q| - 1] == p;
    assert TrimRight(q, '/') == TrimRight(p, '/');
  }

  /** A path made of slashes only, other than "/", collapses to "" and not
      to the root. */
  lemma SlashesOnlyCollapse()
    ensures NormalizePath("//", true) == ""
  {
    assert TrimRight("//", '/') == TrimRight("/", '/') == TrimRight("", '/');
  }

  // ------------------------------------------------------------- chaining

  /** The handler a chain builds around `h`: chain[0] is the outermost layer,
      so it sees an incoming request first; the empty chain leaves `h`
      alone. */
  function Nest<H>(chain: seq<Middleware<H>>, h: H): H
  {
    if |chain| == 0 then h else chain[0](Nest(chain[1..], h))
  }

  /** The loop of Register, as written: apply the middlewares from the last
      index down to the first. */
  method WrapHandler<H>(chain: seq<Middleware<H>>, handler: H) returns (h: H)
    ensures h == Nest(chain, handler)
  {
    h := handler;
    var i := |chain|;
    while i > 0
      invariant 0 <= i <= |chain|
      invariant h == Nest(chain[i..], handler)
    {
      i := i - 1;
      assert chain[i..][1..] == chain[i + 1..];
      h := chain[i](h);
    }
  }

  /** Wrapping in a concatenated chain is wrapping in the back part first. */
  lemma {:induction false} NestAppend<H>(a: seq<Middleware<H>>, b: seq<Middleware<H>>, h: H)
    ensures Nest(a + b, h) == Nest(a, Nest(b, h))
  {
    if |a| > 0 {
      assert (a + b)[1..] == a[1..] + b;
      NestAppend(a[1..], b, h);
    } else {
      assert a + b == b;
    }
  }

  /** What a layer does, observably: it records entering and leaving. */
  datatype Event = Enter(layer: nat) | Leave(layer: nat)

  type Trace = seq<Event>

  function Tracer(i: nat): Middleware<Trace>
  {
    t => [Enter(i)] + t + [Leave(i)]
  }

  /** The chain of tracing layers lo, lo + 1, ..., hi - 1. */
  function Tracers(lo: nat, hi: nat): seq<Middleware<Trace>>
    decreases hi - lo
  {
    if lo >= hi then [] else [Tracer(lo)] + Tracers(lo + 1, hi)
  }

  function Enters(lo: nat, hi: nat): Trace
    decreases hi - lo
  {
    if lo >= hi then [] else [Enter(lo)] + Enters(lo + 1, hi)
  }

  function Leaves(lo: nat, hi: nat): Trace
    decreases hi - lo
  {
    if lo >= hi then [] else Leaves(lo + 1, hi) + [Leave(lo)]
  }

  /** The execution order of a chain: layers are entered from index 0 up and
      left from the last index down, with the handler in the middle. */
  lemma {:induction false} ChainOrder(lo: nat, hi: nat, body: Trace)
    ensures Nest(Tracers(lo, hi), body) == Enters(lo, hi) + body + Leaves(lo, hi)
    decreases hi - lo
  {
    if lo < hi {
      var c := Tracers(lo, hi);
      assert c[1..] == Tracers(lo + 1, hi);
      ChainOrder(lo + 1, hi, body);
      assert Nest(c, body) == Tracer(lo)(Nest(Tracers(lo + 1, hi), body));
    }
  }

  // ------------------------------------------------------------ routing

  /** A method's table, empty until the first route for the method. */
  function TableOf<H, E>(s: Service<H, E>, verb: string): RouteTable<H>
  {
    if verb in s.routes then s.routes[verb] else []
  }

  /** Route: creates the method's table on first use and files the handler
      under the base URI joined with the path stripped of trailing slashes.
      Nothing else changes; the Go function always returns nil. */
  function Route<H, E>(s: Service<H, E>, verb: string, uri: string, h: H, join: PathJoin): (r: Service<H, E>)
    ensures r == s.(routes := r.routes)
    ensures r.routes.Keys == s.routes.Keys + {verb}
    ensures forall m :: m in s.routes && m != verb ==> r.routes[m] == s.routes[m]
    ensures var t := TableOf(s, verb);
      && |r.routes[verb]| == |t| + 1
      && r.routes[verb][..|t|] == t
      && r.routes[verb][|t|] == RouteEntry(join([s.baseURI, TrimRight(uri, '/')]), h)
    ensures ValidJoin(join) && Rooted(s.baseURI) ==>
      var p := r.routes[verb][|TableOf(s, verb)|].path;
      Rooted(p) && NormalizePath(p, true) == p
  {
    var entry := RouteEntry(join([s.baseURI, TrimRight(uri, '/')]), h);
    var t := TableOf(s, verb);
    JoinedUnder(join, s.baseURI, TrimRight(uri, '/'));
    assert (t + [entry])[..|t|] == t;
    s.(routes := s.routes[verb := t + [entry]])
  }

  /** A path joined under a rooted base is rooted and already normalised. */
  lemma JoinedUnder(join: PathJoin, base: string, tail: string)
    ensures ValidJoin(join) && Rooted(base) ==>
      Rooted(join([base, tail])) && NormalizePath(join([base, tail]), true) == join([base, tail])
  {
    if ValidJoin(join) && Rooted(base) {
      var xs := [base, tail];
      assert Rooted(xs[0]);
      NormalizeKeeps(join(xs));
    }
  }

  /** The base URI New computes is rooted and has no trailing slash. */
  lemma JoinedBase(join: PathJoin, base: string)
    ensures ValidJoin(join) ==>
      Rooted(join(["/", base, "/"])) && NoTrailingSlash(join(["/", base, "/"]))
  {
    if ValidJoin(join) {
      var xs := ["/", base, "/"];
      assert Rooted(xs[0]);
    }
  }

  /** The route Register files for one spec of a registrator with base URI
      `base`. */
  function RouteOf<H, E>(s: Service<H, E>, base: string, spec: RouteSpec<H>, join: PathJoin): RouteEntry<H>
  {
    RouteEntry(join([s.baseURI, TrimRight(join([base, spec.path]), '/')]), Nest(s.chain, spec.handler))
  }

  /** One step of Register: the spec, wrapped in the chain, filed under the
      registrator's base URI. */
  function File<H, E>(s: Service<H, E>, spec: RouteSpec<H>, base: string, join: PathJoin): Service<H, E>
  {
    Route(s, spec.verb, join([base, spec.path]), Nest(s.chain, spec.handler), join)
  }

  /** A step files RouteOf at the end of the spec's table and leaves the other
      tables, the chain and the base URI alone. */
  lemma FileStep<H, E>(s: Service<H, E>, spec: RouteSpec<H>, base: string, join: PathJoin)
    ensures var s1 := File(s, spec, base, join);
      && s1 == s.(routes := s1.routes)
      && s1.routes.Keys == s.routes.Keys + {spec.verb}
      && RouteOf(s, base, spec, join) in TableOf(s1, spec.verb)
      && TableOf(s1, spec.verb) == TableOf(s, spec.verb) + [RouteOf(s, base, spec, join)]
      && (forall m :: TableOf(s, m) <= TableOf(s1, m))
      && (forall m :: m != spec.verb ==> TableOf(s1, m) == TableOf(s, m))
  {
    var s1 := File(s, spec, base, join);
    var t := TableOf(s, spec.verb);
    var e := RouteOf(s, base, spec, join);
    assert TableOf(s1, spec.verb) == t + [e] by {
      assert s1.routes[spec.verb][|t|] == e;
    }
    assert TableOf(s1, spec.verb)[|t|] == e;
    forall m ensures TableOf(s, m) <= TableOf(s1, m) && (m != spec.verb ==> TableOf(s1, m) == TableOf(s, m)) {
    }
  }

  /** Register: each spec, wrapped in the chain, is filed in turn. Only the
      tables change, and only by growing at the end. */
  function Register<H, E>(s: Service<H, E>, specs: seq<RouteSpec<H>>, base: string, join: PathJoin): (r: Service<H, E>)
    ensures r == s.(routes := r.routes)
    ensures forall m :: TableOf(s, m) <= TableOf(r, m)
    decreases |specs|
  {
    if |specs| == 0 then s
    else
      FileStep(s, specs[0], base, join);
      Register(File(s, specs[0], base, join), specs[1..], base, join)
  }

  /** The routes, in order, that the specs of method `m` file. */
  function Filed<H, E>(s: Service<H, E>, specs: seq<RouteSpec<H>>, m: string, base: string, join: PathJoin): seq<RouteEntry<H>>
    decreases |specs|
  {
    if |specs| == 0 then []
    else
      (if specs[0].verb == m then [RouteOf(s, base, specs[0], join)] else [])
      + Filed(s, specs[1..], m, base, join)
  }

  /** Filed reads only the chain and the base URI of the service. */
  lemma {:induction false} FiledFrame<H, E>(s: Service<H, E>, s1: Service<H, E>, specs: seq<RouteSpec<H>>, m: string, base: string, join: PathJoin)
    requires s1.chain == s.chain && s1.baseURI == s.baseURI
    ensures Filed(s1, specs, m, base, join) == Filed(s, specs, m, base, join)
    decreases |specs|
  {
    if |specs| > 0 {
      FiledFrame(s, s1, specs[1..], m, base, join);
    }
  }

  /** Every spec ends up in the table of its method, as RouteOf describes. */
  lemma RegisterFiles<H, E>(s: Service<H, E>, specs: seq<RouteSpec<H>>, base: string, join: PathJoin)
    ensures forall k :: 0 <= k < |specs| ==>
      RouteOf(s, base, specs[k], join) in TableOf(Register(s, specs, base, join), specs[k].verb)
  {
    forall k | 0 <= k < |specs|
      ensures RouteOf(s, base, specs[k], join) in TableOf(Register(s, specs, base, join), specs[k].verb)
    {
      RegisterTables(s, specs, specs[k].verb, base, join);
      InFiled(s, specs, k, base, join);
    }
  }

  /** Each spec's route is among those Filed lists for its method. */
  lemma {:induction false} InFiled<H, E>(s: Service<H, E>, specs: seq<RouteSpec<H>>, k: nat, base: string, join: PathJoin)
    requires k < |specs|
    ensures RouteOf(s, base, specs[k], join) in Filed(s, specs, specs[k].verb, base, join)
    decreases |specs|
  {
    var here := if specs[0].verb == specs[k].verb then [RouteOf(s, base, specs[0], join)] else [];
    assert Filed(s, specs, specs[k].verb, base, join) == here + Filed(s, specs[1..], specs[k].verb, base, join);
    if k > 0 {
      assert specs[1..][k - 1] == specs[k];
      InFiled(s, specs[1..], k - 1, base, join);
    }
  }

  /** Register grows each method's table by exactly the routes of that
      method's specs, in the order the specs list them, and by nothing else. */
  lemma {:induction false} RegisterTables<H, E>(s: Service<H, E>, specs: seq<RouteSpec<H>>, m: string, base: string, join: PathJoin)
    ensures TableOf(Register(s, specs, base, join), m) == TableOf(s, m) + Filed(s, specs, m, base, join)
    decreases |specs|
  {
    if |specs| > 0 {
      var s1 := File(s, specs[0], base, join);
      RegisterStep(s, specs, base, join);
      RegisterTables(s1, specs[1..], m, base, join);
      FileStepAt(s, specs, m, base, join);
    } else {
      assert TableOf(s, m) + [] == TableOf(s, m);
    }
  }

  /** The first spec's route, if it is for `m`, comes first in the table,
      followed by those of the rest. */
  lemma FileStepAt<H, E>(s: Service<H, E>, specs: seq<RouteSpec<H>>, m: string, base: string, join: PathJoin)
    requires |specs| > 0
    ensures var s1 := File(s, specs[0], base, join);
      TableOf(s1, m) + Filed(s1, specs[1..], m, base, join) == TableOf(s, m) + Filed(s, specs, m, base, join)
  {
    var s1 := File(s, specs[0], base, join);
    var here := if specs[0].verb == m then [RouteOf(s, base, specs[0], join)] else [];
    var later := Filed(s, specs[1..], m, base, join);
    FileTable(s, specs[0], m, base, join);
    FiledFrame(s, s1, specs[1..], m, base, join);
    assert Filed(s, specs, m, base, join) == here + later;
    AppendAssoc(TableOf(s, m), here, later);
  }

  /** Register files its first spec and then the rest. */
  lemma RegisterStep<H, E>(s: Service<H, E>, specs: seq<RouteSpec<H>>, base: string, join: PathJoin)
    requires |specs| > 0
    ensures Register(s, specs, base, join) == Register(File(s, specs[0], base, join), specs[1..], base, join)
  {
  }

  /** One step of Register adds RouteOf to the spec's own table only. */
  lemma FileTable<H, E>(s: Service<H, E>, spec: RouteSpec<H>, m: string, base: string, join: PathJoin)
    ensures var s1 := File(s, spec, base, join);
      && s1 == s.(routes := s1.routes)
      && TableOf(s1, m) == TableOf(s, m) + (if spec.verb == m then [RouteOf(s, base, spec, join)] else [])
  {
    FileStep(s, spec, base, join);
    if spec.verb != m {
      assert TableOf(s, m) + [] == TableOf(s, m);
    }
  }

  /** The methods the specs name. */
  function Verbs<H>(specs: seq<RouteSpec<H>>): (vs: set<string>)
    ensures forall k :: 0 <= k < |specs| ==> specs[k].verb in vs
    ensures forall v :: v in vs ==> exists k :: 0 <= k < |specs| && specs[k].verb == v
    decreases |specs|
  {
    if |specs| == 0 then {}
    else
      var rest := Verbs(specs[1..]);
      assert forall k :: 0 < k < |specs| ==> specs[k] == specs[1..][k - 1];
      assert forall k :: 0 <= k < |specs| - 1 ==> specs[1..][k] == specs[k + 1];
      {specs[0].verb} + rest
  }

  /** Register creates tables for the methods its specs name and leaves the
      tables of all other methods as they were. */
  lemma {:induction false} RegisterTouchesOnlyNamed<H, E>(s: Service<H, E>, specs: seq<RouteSpec<H>>, base: string, join: PathJoin)
    ensures Register(s, specs, base, join).routes.Keys == s.routes.Keys + Verbs(specs)
    ensures forall m :: m !in Verbs(specs) ==> TableOf(Register(s, specs, base, join), m) == TableOf(s, m)
    decreases |specs|
  {
    if |specs| > 0 {
      var s1 := File(s, specs[0], base, join);
      assert Register(s, specs, base, join) == Register(s1, specs[1..], base, join);
      assert Verbs(specs) == {specs[0].verb} + Verbs(specs[1..]);
      FileStep(s, specs[0], base, join);
      RegisterTouchesOnlyNamed(s1, specs[1..], base, join);
    }
  }

  /** An entry of a prefix is an entry of the whole. */
  lemma PrefixKeeps<T>(a: seq<T>, b: seq<T>, x: T)
    requires a <= b && x in a
    ensures x in b
  {
    var i :| 0 <= i < |a| && a[i] == x;
    assert b[i] == x;
  }

  /** The registration loop of New: each registrator's routes are filed in
      turn, and the first registrator whose SetErrorHandler fails ends the
      process. */
  function RegisterAll<H, E>(s: Service<H, E>, regs: seq<Registration<H>>, join: PathJoin): (r: Startup<H, E>)
    ensures r.Fatal? <==> exists i :: 0 <= i < |regs| && regs[i].rejectsErrorHandler
    ensures r.Fatal? ==>
      && r.registrator < |regs| && regs[r.registrator].rejectsErrorHandler
      && forall i :: 0 <= i < r.registrator ==> !regs[i].rejectsErrorHandler
    ensures r.Started? ==> r.service == s.(routes := r.service.routes)
    ensures r.Started? ==> forall m :: TableOf(s, m) <= TableOf(r.service, m)
    decreases |regs|
  {
    if |regs| == 0 then Started(s)
    else if regs[0].rejectsErrorHandler then Fatal(0)
    else
      var s1 := Register(s, regs[0].handlers, regs[0].baseURI, join);
      var rest := RegisterAll(s1, regs[1..], join);
      if rest.Fatal? then
        FirstRejecterShifts(regs, rest.registrator);
        Fatal(rest.registrator + 1)
      else
        NoRejecterShifts(regs);
        StartedShifts(s, s1, rest.service);
        rest
  }

  /** The first rejecting registrator after the first is the first overall
      when the first accepts. */
  lemma FirstRejecterShifts<H>(regs: seq<Registration<H>>, i: nat)
    requires |regs| > 0 && !regs[0].rejectsErrorHandler
    requires i < |regs[1..]| && regs[1..][i].rejectsErrorHandler
    requires forall j :: 0 <= j < i ==> !regs[1..][j].rejectsErrorHandler
    ensures i + 1 < |regs| && regs[i + 1].rejectsErrorHandler
    ensures forall j :: 0 <= j < i + 1 ==> !regs[j].rejectsErrorHandler
  {
    assert regs[1..][i] == regs[i + 1];
    forall j | 0 < j < i + 1 ensures !regs[j].rejectsErrorHandler {
      assert regs[1..][j - 1] == regs[j];
    }
  }

  /** No registrator rejects when neither the first nor any later one does. */
  lemma NoRejecterShifts<H>(regs: seq<Registration<H>>)
    requires |regs| > 0 && !regs[0].rejectsErrorHandler
    requires !exists i :: 0 <= i < |regs[1..]| && regs[1..][i].rejectsErrorHandler
    ensures !exists i :: 0 <= i < |regs| && regs[i].rejectsErrorHandler
  {
    forall i | 0 < i < |regs| ensures !regs[i].rejectsErrorHandler {
      assert regs[1..][i - 1] == regs[i];
    }
  }

  /** Two registration steps that each change only the route tables, and
      only by growing them at the end, together do the same. */
  lemma StartedShifts<H, E>(s: Service<H, E>, s1: Service<H, E>, s2: Service<H, E>)
    requires s1 == s.(routes := s1.routes) && s2 == s1.(routes := s2.routes)
    requires forall m :: TableOf(s, m) <= TableOf(s1, m)
    requires forall m :: TableOf(s1, m) <= TableOf(s2, m)
    ensures s2 == s.(routes := s2.routes)
    ensures forall m :: TableOf(s, m) <= TableOf(s2, m)
  {
    PrefixTrans(s, s1, s2);
  }

  /** Growing at the end twice is growing at the end. */
  lemma PrefixTrans<H, E>(s: Service<H, E>, s1: Service<H, E>, s2: Service<H, E>)
    requires forall m :: TableOf(s, m) <= TableOf(s1, m)
    requires forall m :: TableOf(s1, m) <= TableOf(s2, m)
    ensures forall m :: TableOf(s, m) <= TableOf(s2, m)
  {
    forall m ensures TableOf(s, m) <= TableOf(s2, m) {
      assert TableOf(s, m) <= TableOf(s1, m) <= TableOf(s2, m);
    }
  }

  /** The routes, in order, that the registrators file for method `m`: each
      registrator's in turn. */
  function FiledAll<H, E>(s: Service<H, E>, regs: seq<Registration<H>>, m: string, join: PathJoin): seq<RouteEntry<H>>
    decreases |regs|
  {
    if |regs| == 0 then []
    else Filed(s, regs[0].handlers, m, regs[0].baseURI, join) + FiledAll(s, regs[1..], m, join)
  }

  /** FiledAll reads only the chain and the base URI of the service. */
  lemma {:induction false} FiledAllFrame<H, E>(s: Service<H, E>, s1: Service<H, E>, regs: seq<Registration<H>>, m: string, join: PathJoin)
    requires s1.chain == s.chain && s1.baseURI == s.baseURI
    ensures FiledAll(s1, regs, m, join) == FiledAll(s, regs, m, join)
    decreases |regs|
  {
    if |regs| > 0 {
      FiledFrame(s, s1, regs[0].handlers, m, regs[0].baseURI, join);
      FiledAllFrame(s, s1, regs[1..], m, join);
    }
  }

  /** Startup files each registrator's routes exactly once, registrator
      after registrator and each in spec order: every method's table grows by
      exactly FiledAll. */
  lemma {:induction false} RegisterAllTables<H, E>(s: Service<H, E>, regs: seq<Registration<H>>, m: string, join: PathJoin)
    ensures var r := RegisterAll(s, regs, join);
      r.Started? ==> TableOf(r.service, m) == TableOf(s, m) + FiledAll(s, regs, m, join)
    decreases |regs|
  {
    var r := RegisterAll(s, regs, join);
    if |regs| == 0 {
      assert TableOf(s, m) + [] == TableOf(s, m);
    } else if r.Started? {
      var s1 := Register(s, regs[0].handlers, regs[0].baseURI, join);
      RegisterAllStep(s, regs, join);
      RegisterAllTables(s1, regs[1..], m, join);
      RegisterAllStepAt(s, s1, regs, m, join);
    }
  }

  /** The first registrator's routes come first in a table, followed by
      those of the rest. */
  lemma RegisterAllStepAt<H, E>(s: Service<H, E>, s1: Service<H, E>, regs: seq<Registration<H>>, m: string, join: PathJoin)
    requires |regs| > 0 && s1 == Register(s, regs[0].handlers, regs[0].baseURI, join)
    ensures TableOf(s1, m) + FiledAll(s1, regs[1..], m, join) == TableOf(s, m) + FiledAll(s, regs, m, join)
  {
    var here := Filed(s, regs[0].handlers, m, regs[0].baseURI, join);
    var later := FiledAll(s, regs[1..], m, join);
    RegisterTables(s, regs[0].handlers, m, regs[0].baseURI, join);
    FiledAllFrame(s, s1, regs[1..], m, join);
    assert FiledAll(s, regs, m, join) == here + later;
    AppendAssoc(TableOf(s, m), here, later);
  }

  lemma AppendAssoc<T>(a: seq<T>, b: seq<T>, c: seq<T>)
    ensures a + b + c == a + (b + c)
  {
  }

  /** A startup that gets past the first registrator continues from the
      tables that registrator filed. */
  lemma RegisterAllStep<H, E>(s: Service<H, E>, regs: seq<Registration<H>>, join: PathJoin)
    requires |regs| > 0 && RegisterAll(s, regs, join).Started?
    ensures RegisterAll(s, regs, join) == RegisterAll(Register(s, regs[0].handlers, regs[0].baseURI, join), regs[1..], join)
  {
  }

  /** Every route of every registrator ends up filed. */
  lemma {:induction false} RegisterAllFiles<H, E>(s: Service<H, E>, regs: seq<Registration<H>>, join: PathJoin)
    ensures var r := RegisterAll(s, regs, join);
      r.Started? ==> forall i, k :: 0 <= i < |regs| && 0 <= k < |regs[i].handlers| ==>
        RouteOf(s, regs[i].baseURI, regs[i].handlers[k], join) in TableOf(r.service, regs[i].handlers[k].verb)
    decreases |regs|
  {
    var r := RegisterAll(s, regs, join);
    if |regs| > 0 && r.Started? {
      var s1 := Register(s, regs[0].handlers, regs[0].baseURI, join);
      assert r == RegisterAll(s1, regs[1..], join);
      RegisterAllFiles(s1, regs[1..], join);
      RegisterFiles(s, regs[0].handlers, regs[0].baseURI, join);
      forall i, k | 0 <= i < |regs| && 0 <= k < |regs[i].handlers|
        ensures RouteOf(s, regs[i].baseURI, regs[i].handlers[k], join)
                in TableOf(r.service, regs[i].handlers[k].verb)
      {
        var spec := regs[i].handlers[k];
        if i == 0 {
          PrefixKeeps(TableOf(s1, spec.verb), TableOf(r.service, spec.verb), RouteOf(s, regs[0].baseURI, spec, join));
        } else {
          assert regs[i] == regs[1..][i - 1];
        }
      }
    }
  }

  /** New: the base URI is joined onto "/", trailing slashes are trimmed from
      requests, a missing error handler defaults to DefaultErrorHandler for
      both errors and unmatched routes, every registrator's routes are filed,
      and the CORS stage is installed exactly when asked for, allowing every
      origin when no options are given. */
  function New<H, E>(cfg: Configuration<H, E>, regs: seq<Registration<H>>, join: PathJoin): (r: Startup<H, E>)
    ensures r.Fatal? <==> exists i :: 0 <= i < |regs| && regs[i].rejectsErrorHandler
    ensures r.Started? ==>
      var s := r.service;
      && s.trimSlash
      && s.baseURI == join(["/", cfg.baseURI, "/"])
      && (ValidJoin(join) ==> Rooted(s.baseURI) && NoTrailingSlash(s.baseURI))
      && s.chain == cfg.chain
      && s.notFoundHandler.Some? && s.notFoundHandler == s.errorHandler
      && (cfg.errorHandler.None? ==> s.errorHandler == Some(DefaultErrorHandler))
      && (cfg.errorHandler.Some? ==> s.errorHandler == Some(Configured(cfg.errorHandler.value)))
      && (s.cors.Some? <==> cfg.cors)
      && (cfg.cors && cfg.corsOptions.None? ==> s.cors == Some(NewCors(DefaultCorsOptions())))
      && (cfg.cors && cfg.corsOptions.Some? ==> s.cors == Some(NewCors(cfg.corsOptions.value)))
    ensures r.Started? ==> forall i, k :: 0 <= i < |regs| && 0 <= k < |regs[i].handlers| ==>
      RouteOf(r.service, regs[i].baseURI, regs[i].handlers[k], join)
        in TableOf(r.service, regs[i].handlers[k].verb)
    ensures r.Started? ==> forall m :: TableOf(r.service, m) == FiledAll(r.service, regs, m, join)
  {
    var handler := if cfg.errorHandler.Some? then Configured(cfg.errorHandler.value) else DefaultErrorHandler;
    var base := join(["/", cfg.baseURI, "/"]);
    JoinedBase(join, cfg.baseURI);
    var s0 := Service(map[], None, cfg.chain, Some(handler), Some(handler), true, base);
    RegisterAllFiles(s0, regs, join);
    match RegisterAll(s0, regs, join)
    case Fatal(i) => Fatal(i)
    case Started(s1) =>
      StartedFromEmpty(s0, s1, regs, join);
      if cfg.cors then Started(s1.(cors := Some(NewCors(if cfg.corsOptions.Some? then cfg.corsOptions.value else DefaultCorsOptions()))))
      else Started(s1)
  }

  /** Starting from empty tables, each table holds exactly the registrators'
      routes for its method, whatever options stage is installed afterwards. */
  lemma StartedFromEmpty<H, E>(s0: Service<H, E>, s1: Service<H, E>, regs: seq<Registration<H>>, join: PathJoin)
    requires s0.routes == map[] && RegisterAll(s0, regs, join) == Started(s1)
    ensures forall c: Option<Cors>, m :: TableOf(s1.(cors := c), m) == FiledAll(s1.(cors := c), regs, m, join)
  {
    forall c: Option<Cors>, m ensures TableOf(s1.(cors := c), m) == FiledAll(s1.(cors := c), regs, m, join) {
      RegisterAllTables(s0, regs, m, join);
      assert TableOf(s0, m) == [];
      assert [] + FiledAll(s0, regs, m, join) == FiledAll(s0, regs, m, join);
      FiledAllFrame(s0, s1.(cors := c), regs, m, join);
    }
  }

  // ------------------------------------------------------------ serving

  /** The error ServeHTTP hands to the not-found handler. */
  const NotFoundMessage := "contextHandler not found"

  /** How ServeHTTP ends: it stops after the options chain, runs the matched
      handler with the bound parameters, runs the not-found handler with its
      error, or falls back to http.NotFoundHandler. */
  datatype Outcome<H, E> =
    | Stopped
    | Invoked(handler: H, params: Params)
    | NotFound(notFoundHandler: ErrorHandler<E>, message: string)
    | BareNotFound

  /** The CORS headers and status written, and the outcome. */
  datatype Response<H, E> = Response(headers: CorsHeaders, status: Option<int>, outcome: Outcome<H, E>)

  /** The route lookup ServeHTTP performs: only the table of the request's
      method, with the normalised path. */
  function Found<H, E>(s: Service<H, E>, req: Request, lookup: Lookup<H>): Option<Match<H>>
  {
    if req.httpMethod in s.routes then lookup(s.routes[req.httpMethod], NormalizePath(req.path, s.trimSlash))
    else None
  }

  /** ServeHTTP. The CORS stage runs first, whatever the route; every OPTIONS
      request ends right after it, so no handler registered for OPTIONS ever
      runs; other requests run the matched handler, or else the not-found
      handler with NotFoundMessage. */
  function Serve<H, E>(s: Service<H, E>, req: Request, lookup: Lookup<H>): (r: Response<H, E>)
    ensures r.outcome.Stopped? <==> req.httpMethod == MethodOptions
    ensures r.outcome.Invoked? <==> req.httpMethod != MethodOptions && Found(s, req, lookup).Some?
    ensures r.outcome.Invoked? ==> Found(s, req, lookup) == Some(Match(r.outcome.handler, r.outcome.params))
    ensures r.outcome.NotFound? <==>
      req.httpMethod != MethodOptions && Found(s, req, lookup).None? && s.notFoundHandler.Some?
    ensures r.outcome.NotFound? ==>
      r.outcome.notFoundHandler == s.notFoundHandler.value && r.outcome.message == NotFoundMessage
    ensures s.cors.None? ==> r.headers == map[] && r.status == None
    ensures s.cors.Some? ==> (r.status.Some? <==> IsPreflight(req))
    ensures r.status.Some? ==> r.status.value == StatusOK
    ensures s.cors.Some? ==> r.headers == Stage(s.cors.value, req).headers
  {
    var stage := if s.cors.Some? then Stage(s.cors.value, req) else StageResult(map[], None);
    var outcome :=
      if req.httpMethod == MethodOptions then Stopped
      else match Found(s, req, lookup)
        case Some(m) => Invoked(m.handler, m.params)
        case None => if s.notFoundHandler.Some? then NotFound(s.notFoundHandler.value, NotFoundMessage) else BareNotFound;
    Response(stage.headers, stage.status, outcome)
  }

  /** The CORS headers and status do not depend on the routes, the lookup or
      the handlers: an unmatched path gets them too. */
  lemma CorsIndependentOfRoutes<H, E>(s: Service<H, E>, t: Service<H, E>, req: Request,
                                      lookup: Lookup<H>, lookup': Lookup<H>)
    requires s.cors == t.cors
    ensures Serve(s, req, lookup).headers == Serve(t, req, lookup').headers
    ensures Serve(s, req, lookup).status == Serve(t, req, lookup').status
  {
  }

  /** Only the request method's own table matters. */
  lemma OnlyOwnTable<H, E>(s: Service<H, E>, t: Service<H, E>, req: Request, lookup: Lookup<H>)
    requires s == t.(routes := s.routes)
    requires (req.httpMethod in s.routes <==> req.httpMethod in t.routes)
    requires TableOf(s, req.httpMethod) == TableOf(t, req.httpMethod)
    ensures Serve(s, req, lookup) == Serve(t, req, lookup)
  {
  }

  /** A request for a path with one more trailing slash is served exactly
      like the path itself. */
  lemma ExtraSlashServedAlike<H, E>(s: Service<H, E>, req: Request, lookup: Lookup<H>)
    requires s.trimSlash && req.path != "" && req.path != "/"
    ensures Serve(s, req.(path := req.path + "/"), lookup) == Serve(s, req, lookup)
  {
    NormalizeExtraSlash(req.path);
  }

  /** A route filed by Route is found under its own path whenever the lookup
      finds what the table holds: a request for the stored path reaches the
      lookup unchanged. */
  lemma StoredPathReachesLookup<H, E>(s: Service<H, E>, verb: string, uri: string, h: H,
                                      join: PathJoin, req: Request, lookup: Lookup<H>)
    requires ValidJoin(join) && Rooted(s.baseURI)
    requires var r := Route(s, verb, uri, h, join);
      && r.trimSlash && req.httpMethod == verb && verb != MethodOptions
      && req.path == r.routes[verb][|TableOf(s, verb)|].path
      && lookup(r.routes[verb], req.path).Some?
    ensures Serve(Route(s, verb, uri, h, join), req, lookup).outcome.Invoked?
  {
  }

  /** A service New builds never falls back to the bare not-found reply. */
  lemma NeverBareNotFound<H, E>(cfg: Configuration<H, E>, regs: seq<Registration<H>>, join: PathJoin,
                                req: Request, lookup: Lookup<H>)
    requires New(cfg, regs, join).Started?
    ensures !Serve(New(cfg, regs, join).service, req, lookup).outcome.BareNotFound?
  {
  }

  /** The preflight of the CORS tests, through the service: an OPTIONS route
      is registered, yet the preflight gets status 200 and the route's
      handler never runs. */
  lemma PreflightBypassesOptionsRoute<H, E>(s: Service<H, E>, req: Request, lookup: Lookup<H>)
    requires s.cors.Some? && IsPreflight(req)
    ensures Serve(s, req, lookup).status == Some(StatusOK)
    ensures Serve(s, req, lookup).outcome == Stopped
  {
  }

  /** The allow-all example of the CORS tests: CORS on, no options, no
      registrators; any request gets Allow-Origin "*". */
  lemma AllowAllExample<H, E>(join: PathJoin, req: Request, lookup: Lookup<H>)
    ensures var r := New<H, E>(Configuration("", None, [], true, None), [], join);
      && r.Started?
      && AllowOrigin in Serve(r.service, req, lookup).headers
      && Serve(r.service, req, lookup).headers[AllowOrigin] == "*"
  {
    var r := New<H, E>(Configuration("", None, [], true, None), [], join);
    var c := NewCors(DefaultCorsOptions());
    assert Accepts(c, req.origin);
  }
}
