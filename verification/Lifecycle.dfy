/** Dispatching a request: routing, automatic HEAD handling, error catching and response framing. */
module Lifecycle {
  import opened Options
  import opened Uncased
  import opened IndexMap
  import opened Headers

  datatype Method = Head | Get | Another(name: string)

  const NOT_FOUND: nat := 404
  const INTERNAL_SERVER_ERROR: nat := 500
  const NO_CONTENT: nat := 204
  const NOT_MODIFIED: nat := 304

  // ---------------------------------------------------------------- bodies and responses

  /** `probe` is what seeking to the end would report, if it succeeds. */
  datatype Inner =
    | Seekable(data: seq<int>, probe: Option<nat>)
    | Unsized(data: seq<int>)
    | Phantom(data: seq<int>, probe: Option<nat>)
    | Nothing

  datatype Body = Body(preset: Option<nat>, inner: Inner)

  const DEFAULT_BODY := Body(Some(0), Nothing)
  const UNSIZED_NONE := Body(None, Nothing)

  /** The bytes that reading the body yields. */
  function Bytes(b: Body): seq<int>
  {
    match b.inner
    case Seekable(data, _) => data
    case Unsized(data) => data
    case Phantom(_, _) => []
    case Nothing => []
  }

  function Size(b: Body): Option<nat>
  {
    if b.preset.Some? then b.preset
    else match b.inner
         case Seekable(_, probe) => probe
         case Phantom(_, probe) => probe
         case _ => None
  }

  /** `strip`: a seekable body keeps its size; any other becomes the default body, of size 0. */
  function Strip(b: Body): Body
  {
    match b.inner
    case Seekable(data, probe) => Body(b.preset, Phantom(data, probe))
    case Phantom(data, probe) => Body(b.preset, Phantom(data, probe))
    case _ => DEFAULT_BODY
  }

  datatype Response = Response(status: nat, headers: Entries, body: Body)

  function Digits(n: nat): string
  {
    if n < 10 then [Digit(n)] else Digits(n / 10) + [Digit(n % 10)]
  }

  function Digit(d: nat): char
    requires d < 10
  {
    ('0' as int + d) as char
  }

  // ---------------------------------------------------------------- the application

  /** `ops`: changes to the cookie jar that are pending. */
  datatype Request = Request(verb: Method, route: Option<nat>, ops: seq<string>)

  datatype Outcome<D> = Success(response: Response) | Error(status: nat) | Forward(data: D, status: nat)

  /** What a route handler does: its effect on the world and the jar, and its outcome unless it panics. */
  datatype Handling<W, D> = Handling(world: W, ops: seq<string>, outcome: Option<Outcome<D>>)

  /** What a catcher does; no response when it fails or panics. */
  datatype Catching<W> = Catching(world: W, ops: seq<string>, response: Option<Response>)

  /** Routes, handlers, catchers and fairings are arbitrary functions of an arbitrary world. */
  datatype App<!W, !D> = App(
    routes: Method -> seq<nat>,
    handle: (nat, W, Request, D) -> Handling<W, D>,
    catcher: (nat, Request) -> Option<nat>,
    catch: (nat, nat, W, Request) -> Catching<W>,
    fallback: (nat, Request) -> Response,
    delta: seq<string> -> seq<string>,
    onResponse: (W, Request, Response) -> (W, Response),
    ident: Option<string>,
    altSvc: Option<string>)

  /** The world is arbitrary: it may well be a log of every call made. */
  datatype State<W> = State(world: W, request: Request)

  // ---------------------------------------------------------------- what each step does

  function Handle<W, D>(app: App<W, D>, s: State<W>, route: nat, data: D): (State<W>, Outcome<D>)
  {
    var request := s.request.(route := Some(route));
    var h := app.handle(route, s.world, request, data);
    (State(h.world, request.(ops := request.ops + h.ops)),
     if h.outcome.Some? then h.outcome.value else Error(INTERNAL_SERVER_ERROR))
  }

  function RouteAll<W, D>(app: App<W, D>, s: State<W>, routes: seq<nat>, data: D, status: nat): (State<W>, Outcome<D>)
    decreases |routes|
  {
    if routes == [] then (s, Forward(data, status))
    else
      var (t, o) := Handle(app, s, routes[0], data);
      if o.Forward? then RouteAll(app, t, routes[1..], o.data, o.status) else (t, o)
  }

  function Routed<W, D>(app: App<W, D>, s: State<W>, data: D): (State<W>, Outcome<D>)
  {
    RouteAll(app, s, app.routes(s.request.verb), data, NOT_FOUND)
  }

  function Invoked<W, D>(app: App<W, D>, s: State<W>, status: nat): (State<W>, Option<Response>)
  {
    match app.catcher(status, s.request)
    case Some(catcher) =>
      var c := app.catch(catcher, status, s.world, s.request);
      (State(c.world, s.request.(ops := s.request.ops + c.ops)), c.response)
    case None => (s, Some(app.fallback(status, s.request)))
  }

  function Errors<W, D>(app: App<W, D>, s: State<W>, status: nat): (State<W>, Response)
  {
    var (t, r) := Invoked(app, s.(request := s.request.(ops := [])), status);
    if r.Some? then (t, r.value)
    else if status == INTERNAL_SERVER_ERROR then (t, app.fallback(INTERNAL_SERVER_ERROR, t.request))
    else
      var (u, q) := Invoked(app, t, INTERNAL_SERVER_ERROR);
      (u, if q.Some? then q.value else app.fallback(INTERNAL_SERVER_ERROR, u.request))
  }

  function Settle<W, D>(app: App<W, D>, s: State<W>, o: Outcome<D>): (State<W>, Response)
  {
    match o
    case Success(response) => (s, response)
    case Error(status) => Errors(app, s, status)
    case Forward(_, status) => Errors(app, s, status)
  }

  function Answer<W, D>(app: App<W, D>, s: State<W>, data: D): (State<W>, Response)
  {
    var (t, o) := Routed(app, s, data);
    if o.Forward? && s.request.verb.Head? then
      var (u, p) := Routed(app, t.(request := t.request.(verb := Get)), o.data);
      Settle(app, u, p)
    else Settle(app, t, o)
  }

  function AddCookies(headers: Entries, cookies: seq<string>): Entries
  {
    if cookies == [] then headers
    else Extend(AddCookies(headers, cookies[..|cookies| - 1]), "Set-Cookie", [cookies[|cookies| - 1]])
  }

  /** Cookies, the `Server` header and response fairings. */
  function Decorate<W, D>(app: App<W, D>, s: State<W>, r: Response): (State<W>, Response)
  {
    var r := r.(headers := AddCookies(r.headers, app.delta(s.request.ops)));
    var r := if app.ident.Some? && !Contains(r.headers, "Server")
             then r.(headers := Insert(r.headers, "Server", [app.ident.value])) else r;
    var t := s.(request := s.request.(ops := []));
    var (world, q) := app.onResponse(t.world, t.request, r);
    (t.(world := world), q)
  }

  /** Body stripping and `Content-Length`. */
  function Frame(r: Response, wasHead: bool): Response
  {
    var body := if Stripped(r, wasHead) then Strip(r.body) else r.body;
    var length := LengthWritten(r, wasHead);
    if r.status == NO_CONTENT then r.(body := UNSIZED_NONE)
    else if length.Some? then
      r.(headers := Insert(r.headers, "Content-Length", [Digits(length.value)]), body := body.(preset := length))
    else r.(body := body)
  }

  predicate Stripped(r: Response, wasHead: bool) { wasHead || r.status == NOT_MODIFIED }

  /** The `Content-Length` that framing sets, if any. */
  function LengthWritten(r: Response, wasHead: bool): Option<nat>
  {
    if r.status == NO_CONTENT then None
    else Size(if Stripped(r, wasHead) then Strip(r.body) else r.body)
  }

  function Advertise(r: Response, altSvc: Option<string>): Response
  {
    if altSvc.Some? then r.(headers := Insert(r.headers, "Alt-Svc", [altSvc.value])) else r
  }

  function Dispatched<W, D>(app: App<W, D>, s: State<W>, data: D): (State<W>, Response)
  {
    var (t, r) := Answer(app, s, data);
    var (u, q) := Decorate(app, t, r);
    (u, Advertise(Frame(q, s.request.verb.Head?), app.altSvc))
  }

  // ---------------------------------------------------------------- the code

  class Dispatcher<W, D> {
    const app: App<W, D>
    var world: W
    var request: Request

    constructor (app: App<W, D>, s: State<W>)
      ensures this.app == app && Now() == s
    {
      this.app, world, request := app, s.world, s.request;
    }

    ghost function Now(): State<W>
      reads this
    {
      State(world, request)
    }

    method Route(initial: D) returns (outcome: Outcome<D>)
      modifies this
      ensures (Now(), outcome) == Routed(app, old(Now()), initial)
    {
      var routes := app.routes(request.verb);
      var data, status := initial, NOT_FOUND;
      assert routes[0..] == routes;
      for i := 0 to |routes|
        invariant RouteAll(app, Now(), routes[i..], data, status) == Routed(app, old(Now()), initial)
      {
        assert routes[i..][1..] == routes[i + 1..];
        request := request.(route := Some(routes[i]));
        var handling := app.handle(routes[i], world, request, data);
        world := handling.world;
        request := request.(ops := request.ops + handling.ops);
        outcome := if handling.outcome.Some? then handling.outcome.value else Error(INTERNAL_SERVER_ERROR);
        match outcome
        case Success(_) => return;
        case Error(_) => return;
        case Forward(d, s) => data, status := d, s;
      }
      outcome := Forward(data, status);
    }

    method InvokeCatcher(status: nat) returns (response: Option<Response>)
      modifies this
      ensures (Now(), response) == Invoked(app, old(Now()), status)
    {
      var catcher := app.catcher(status, request);
      if catcher.Some? {
        var catching := app.catch(catcher.value, status, world, request);
        world, response := catching.world, catching.response;
        request := request.(ops := request.ops + catching.ops);
      } else {
        response := Some(app.fallback(status, request));
      }
    }

    method DispatchError(initial: nat) returns (response: Response)
      modifies this
      ensures (Now(), response) == Errors(app, old(Now()), initial)
    {
      request := request.(ops := []);
      ghost var start := Now();
      var status := initial;
      while true
        invariant (status == initial && Now() == start) ||
                  (initial != INTERNAL_SERVER_ERROR && status == INTERNAL_SERVER_ERROR &&
                   Invoked(app, start, initial) == (Now(), None))
        decreases status != INTERNAL_SERVER_ERROR
      {
        var r := InvokeCatcher(status);
        if r.Some? {
          return r.value;
        } else if status != INTERNAL_SERVER_ERROR {
          status := INTERNAL_SERVER_ERROR;
        } else {
          return app.fallback(INTERNAL_SERVER_ERROR, request);
        }
      }
    }

    /** Routes the request, once more as GET after a forwarded HEAD, and catches what is not a success. */
    method Respond(data: D) returns (response: Response)
      modifies this
      ensures (Now(), response) == Answer(app, old(Now()), data)
    {
      var outcome := Route(data);
      if outcome.Forward? && request.verb.Head? {
        RoutingKeepsVerb(app, old(Now()), app.routes(old(request.verb)), data, NOT_FOUND);
        request := request.(verb := Get);
        outcome := Route(outcome.data);
      } else {
        RoutingKeepsVerb(app, old(Now()), app.routes(old(request.verb)), data, NOT_FOUND);
      }
      match outcome
      case Success(r) => response := r;
      case Error(status) => response := DispatchError(status);
      case Forward(_, status) => response := DispatchError(status);
    }

    /** Writes cookies and the `Server` header, then runs the response fairings. */
    method Finish(initial: Response) returns (response: Response)
      modifies this
      ensures (Now(), response) == Decorate(app, old(Now()), initial)
    {
      var headers := WriteCookies(initial.headers, app.delta(request.ops));
      request := request.(ops := []);
      response := initial.(headers := headers);
      if app.ident.Some? && !Contains(response.headers, "Server") {
        response := response.(headers := Insert(response.headers, "Server", [app.ident.value]));
      }
      var after := app.onResponse(world, request, response);
      world, response := after.0, after.1;
    }

    method Dispatch(data: D) returns (response: Response)
      modifies this
      ensures (Now(), response) == Dispatched(app, old(Now()), data)
    {
      var wasHeadRequest := request.verb.Head?;
      response := Respond(data);
      response := Finish(response);
      if wasHeadRequest || response.status == NOT_MODIFIED {
        response := response.(body := Strip(response.body));
      }
      if response.status == NO_CONTENT {
        response := response.(body := UNSIZED_NONE);
      } else {
        var size := Size(response.body);
        if size.Some? {
          response := response.(body := response.body.(preset := size));
          response := response.(headers := Insert(response.headers, "Content-Length", [Digits(size.value)]));
        }
      }
      if app.altSvc.Some? {
        response := response.(headers := Insert(response.headers, "Alt-Svc", [app.altSvc.value]));
      }
    }
  }

  method WriteCookies(initial: Entries, cookies: seq<string>) returns (headers: Entries)
    ensures headers == AddCookies(initial, cookies)
  {
    headers := initial;
    assert cookies[..0] == [];
    for i := 0 to |cookies|
      invariant headers == AddCookies(initial, cookies[..i])
    {
      assert cookies[..i + 1][..i] == cookies[..i];
      headers := Extend(headers, "Set-Cookie", [cookies[i]]);
    }
    assert cookies[..|cookies|] == cookies;
  }

  lemma {:induction false} RoutingKeepsVerb<W, D>(app: App<W, D>, s: State<W>, routes: seq<nat>, data: D, status: nat)
    ensures RouteAll(app, s, routes, data, status).0.request.verb == s.request.verb
    decreases |routes|
  {
    if routes != [] {
      var (t, o) := Handle(app, s, routes[0], data);
      if o.Forward? {
        RoutingKeepsVerb(app, t, routes[1..], o.data, o.status);
      }
    }
  }

  // ---------------------------------------------------------------- routing

  /** A handler invocation: the route and what its handler was given. */
  datatype Call<W, D> = Call(route: nat, world: W, request: Request, data: D)

  /** What the handler did, by the application alone. */
  function Did<W, D>(app: App<W, D>, c: Call<W, D>): Handling<W, D>
  {
    app.handle(c.route, c.world, c.request, c.data)
  }

  /** The handler's own outcome `o`, or a 500 error in place of a panic. */
  ghost predicate Yields<W, D>(app: App<W, D>, c: Call<W, D>, o: Outcome<D>)
  {
    match Did(app, c).outcome
    case Some(own) => o == own
    case None => o == Error(500)
  }

  /** `s` is what the handler left: its world, and its cookie operations behind those pending. */
  ghost predicate Leaves<W, D>(app: App<W, D>, c: Call<W, D>, s: State<W>)
  {
    s.world == Did(app, c).world && s.request == c.request.(ops := c.request.ops + Did(app, c).ops)
  }

  /** `c` calls `route` in state `s` with this data. */
  ghost predicate CalledIn<W, D>(c: Call<W, D>, s: State<W>, route: nat, data: D)
  {
    c == Call(route, s.world, s.request.(route := Some(route)), data)
  }

  /** The handler forwarded, and `next` was then called on what it left, with the data it forwarded. */
  ghost predicate HandsOn<W, D>(app: App<W, D>, c: Call<W, D>, next: Call<W, D>)
  {
    && Did(app, c).outcome.Some? && Did(app, c).outcome.value.Forward?
    && next == Call(next.route, Did(app, c).world,
                    Request(c.request.verb, Some(next.route), c.request.ops + Did(app, c).ops),
                    Did(app, c).outcome.value.data)
  }

  /** One pass over `routes` from `s`: its calls, the state after it and its outcome. */
  ghost predicate Pass<W, D>(app: App<W, D>, routes: seq<nat>, s: State<W>, data: D, status: nat,
                             calls: seq<Call<W, D>>, t: State<W>, o: Outcome<D>)
  {
    && |calls| <= |routes|
    && (forall i :: 0 <= i < |calls| ==> calls[i].route == routes[i])
    && (forall i :: 0 < i < |calls| ==> HandsOn(app, calls[i - 1], calls[i]))
    && (calls == [] ==> routes == [] && t == s && o == Forward(data, status))
    && (calls != [] ==>
          && CalledIn(calls[0], s, routes[0], data)
          && Leaves(app, calls[|calls| - 1], t) && Yields(app, calls[|calls| - 1], o)
          && (o.Forward? ==> |calls| == |routes|))
  }

  lemma PassCons<W, D>(app: App<W, D>, routes: seq<nat>, s: State<W>, data: D, status: nat, c: Call<W, D>,
                       mid: State<W>, d: D, next: nat, rest: seq<Call<W, D>>, t: State<W>, o: Outcome<D>)
    requires routes != [] && CalledIn(c, s, routes[0], data) && Leaves(app, c, mid)
    requires Did(app, c).outcome == Some(Forward(d, next))
    requires Pass(app, routes[1..], mid, d, next, rest, t, o)
    ensures Pass(app, routes, s, data, status, [c] + rest, t, o)
  {
    var calls := [c] + rest;
    assert forall i :: 0 < i < |calls| ==> calls[i] == rest[i - 1];
    forall i | 0 < i < |calls| ensures HandsOn(app, calls[i - 1], calls[i]) {
      if i > 1 {
        assert HandsOn(app, rest[i - 2], rest[i - 1]);
      }
    }
  }

  /** Routing tries the routes in router order, each handler on what the one before left and forwarded,
      up to the first that does not forward. The outcome is that handler's own, a panic counting as a 500
      error; or the last handler's forward; or, with no route, the forward it started with. */
  lemma {:induction false} RoutingIsFirstOutcome<W, D>(app: App<W, D>, s: State<W>, routes: seq<nat>, data: D,
                                                       status: nat)
      returns (calls: seq<Call<W, D>>)
    ensures var (t, o) := RouteAll(app, s, routes, data, status);
            Pass(app, routes, s, data, status, calls, t, o)
    decreases |routes|
  {
    if routes == [] {
      calls := [];
    } else {
      var (t, o) := Handle(app, s, routes[0], data);
      var c := Call(routes[0], s.world, s.request.(route := Some(routes[0])), data);
      if o.Forward? {
        var rest := RoutingIsFirstOutcome(app, t, routes[1..], o.data, o.status);
        var (u, p) := RouteAll(app, t, routes[1..], o.data, o.status);
        PassCons(app, routes, s, data, status, c, t, o.data, o.status, rest, u, p);
        calls := [c] + rest;
      } else {
        calls := [c];
      }
    }
  }

  /** The cookie operations of some handlers, in order. */
  function HandlerOps<W, D>(app: App<W, D>, calls: seq<Call<W, D>>): seq<string>
  {
    if calls == [] then [] else HandlerOps(app, calls[..|calls| - 1]) + Did(app, calls[|calls| - 1]).ops
  }

  lemma {:induction false} OpsSoFar<W, D>(app: App<W, D>, calls: seq<Call<W, D>>, n: nat)
    requires n < |calls| && forall i :: 0 < i < |calls| ==> HandsOn(app, calls[i - 1], calls[i])
    ensures calls[n].request.ops == calls[0].request.ops + HandlerOps(app, calls[..n])
  {
    if n > 0 {
      OpsSoFar(app, calls, n - 1);
      assert HandsOn(app, calls[n - 1], calls[n]);
      assert calls[..n][..n - 1] == calls[..n - 1];
    }
  }

  /** Every handler that ran leaves its cookie operations, the forwarding ones included. */
  lemma PassKeepsOps<W, D>(app: App<W, D>, routes: seq<nat>, s: State<W>, data: D, status: nat,
                           calls: seq<Call<W, D>>, t: State<W>, o: Outcome<D>)
    requires Pass(app, routes, s, data, status, calls, t, o)
    ensures t.request.ops == s.request.ops + HandlerOps(app, calls)
  {
    if calls != [] {
      OpsSoFar(app, calls, |calls| - 1);
    }
  }

  // ---------------------------------------------------------------- catching

  /** A catcher invocation, the default catcher included. */
  datatype Catch<W> = Catch(status: nat, world: W, request: Request)

  /** What the catcher for the status did, by the application alone; the default one always answers. */
  function CaughtBy<W, D>(app: App<W, D>, k: Catch<W>): Catching<W>
  {
    match app.catcher(k.status, k.request)
    case Some(catcher) => app.catch(catcher, k.status, k.world, k.request)
    case None => Catching(k.world, [], Some(app.fallback(k.status, k.request)))
  }

  /** The error path for `status` from `s`: its catchers, the state after them and the response. */
  ghost predicate Recovery<W, D>(app: App<W, D>, s: State<W>, status: nat, catches: seq<Catch<W>>,
                                 t: State<W>, r: Response)
  {
    && 1 <= |catches| <= 2
    && catches[0] == Catch(status, s.world, s.request.(ops := []))
    && (|catches| == 2 <==> CaughtBy(app, catches[0]).response.None? && status != 500)
    && (|catches| == 2 ==>
          var c := CaughtBy(app, catches[0]);
          catches[1] == Catch(500, c.world, s.request.(ops := c.ops)))
    && var last := CaughtBy(app, catches[|catches| - 1]);
       && t.world == last.world && t.request == s.request.(ops := CatcherOps(app, catches))
       && match last.response
          case Some(own) => r == own
          case None => r == app.fallback(500, t.request)
  }

  /** The cookie operations of some catchers, in order. */
  function CatcherOps<W, D>(app: App<W, D>, catches: seq<Catch<W>>): seq<string>
  {
    if catches == [] then [] else CatcherOps(app, catches[..|catches| - 1]) + CaughtBy(app, catches[|catches| - 1]).ops
  }

  lemma OpsOfTwo<W, D>(app: App<W, D>, c: Catch<W>, d: Catch<W>)
    ensures CatcherOps(app, [c]) == CaughtBy(app, c).ops
    ensures CatcherOps(app, [c, d]) == CaughtBy(app, c).ops + CaughtBy(app, d).ops
  {
    assert [c][..0] == [] && [c, d][..1] == [c];
    assert CatcherOps<W, D>(app, []) + CaughtBy(app, c).ops == CaughtBy(app, c).ops;
  }

  /** The error path: one catcher, for the status; a second, for 500, exactly if that one fails for another
      status; the response of the one that succeeds or else the default 500; and pending cookies made of what
      those catchers did and nothing else. */
  lemma CatchingIsBounded<W, D>(app: App<W, D>, s: State<W>, status: nat) returns (catches: seq<Catch<W>>)
    ensures var (t, r) := Errors(app, s, status);
            Recovery(app, s, status, catches, t, r)
  {
    var request := s.request.(ops := []);
    var first := Catch(status, s.world, request);
    var c := CaughtBy(app, first);
    assert [] + c.ops == c.ops;
    var second := Catch(INTERNAL_SERVER_ERROR, c.world, request.(ops := c.ops));
    assert Invoked(app, State(s.world, request), status) == (State(c.world, request.(ops := c.ops)), c.response);
    OpsOfTwo(app, first, second);
    if c.response.None? && status != INTERNAL_SERVER_ERROR {
      var d := CaughtBy(app, second);
      assert Invoked(app, State(c.world, request.(ops := c.ops)), INTERNAL_SERVER_ERROR) ==
             (State(d.world, request.(ops := c.ops + d.ops)), d.response) by {
        assert c.ops + [] == c.ops;
      }
      catches := [first, second];
    } else {
      catches := [first];
    }
  }

  /** Pending cookies are the last catcher's own exactly if it was the only one or the first set none. */
  lemma LastCatcherOwnsCookies<W, D>(app: App<W, D>, s: State<W>, status: nat, catches: seq<Catch<W>>,
                                     t: State<W>, r: Response)
    requires Recovery(app, s, status, catches, t, r)
    ensures t.request.ops == CaughtBy(app, catches[|catches| - 1]).ops <==>
            |catches| == 1 || CaughtBy(app, catches[0]).ops == []
  {
    OpsOfTwo(app, catches[0], catches[|catches| - 1]);
    if |catches| == 2 {
      assert catches == [catches[0], catches[1]];
      var a, b := CaughtBy(app, catches[0]).ops, CaughtBy(app, catches[1]).ops;
      assert t.request.ops == a + b && |a + b| == |a| + |b|;
    } else {
      assert catches == [catches[0]];
    }
  }

  /** What the 500 catcher of the application below answers, and what the default catcher does. */
  const CAUGHT := Response(INTERNAL_SERVER_ERROR, [], Body(Some(1), Seekable([0], Some(1))))
  const PLAIN := Response(INTERNAL_SERVER_ERROR, [], DEFAULT_BODY)

  /** Catcher 0, for 404, sets a cookie and fails; catcher 1, for 500, answers. */
  const FAILING: App<(), ()> := App(
    verb => [],
    (route, world, request, data) => Handling(world, [], None),
    (status, request) => if status == NOT_FOUND then Some(0) else Some(1),
    (catcher, status, world, request) =>
      if catcher == 0 then Catching(world, ["session"], None) else Catching(world, [], Some(CAUGHT)),
    (status, request) => PLAIN,
    ops => ops,
    (world, request, response) => (world, response),
    None,
    None)

  /** The failed catcher's cookie is pending when the other one's response goes out. */
  lemma FailedCatcherCookieIsSent(verb: Method)
    ensures var (t, r) := Errors(FAILING, State((), Request(verb, None, [])), 404);
            r == CAUGHT && r != PLAIN && t.request.ops == ["session"]
  {
  }

  // ---------------------------------------------------------------- a whole dispatch

  /** Two passes, what each came to, and the catchers. */
  datatype History<W, D> = History(first: seq<Call<W, D>>, mid: State<W>, forwarded: Outcome<D>,
                                   second: seq<Call<W, D>>, end: State<W>, outcome: Outcome<D>,
                                   catches: seq<Catch<W>>)

  /** Was the request dispatched again as GET? */
  predicate Retried<W, D>(s: State<W>, h: History<W, D>) { s.request.verb.Head? && h.forwarded.Forward? }

  /** Running routes and catchers from `s` comes to `t` and the response `r`. */
  ghost predicate Answered<W, D>(app: App<W, D>, s: State<W>, data: D, h: History<W, D>, t: State<W>, r: Response)
  {
    && Pass(app, app.routes(s.request.verb), s, data, 404, h.first, h.mid, h.forwarded)
    && (if Retried(s, h)
        then Pass(app, app.routes(Get), h.mid.(request := h.mid.request.(verb := Get)), h.forwarded.data, 404,
                  h.second, h.end, h.outcome)
        else h.second == [] && h.end == h.mid && h.outcome == h.forwarded)
    && match h.outcome
       case Success(response) => h.catches == [] && t == h.end && r == response
       case Error(status) => Recovery(app, h.end, status, h.catches, t, r)
       case Forward(_, status) => Recovery(app, h.end, status, h.catches, t, r)
  }

  /** A dispatch is one pass over the routes; one more, as GET on the forwarded data, exactly after a
      forwarded HEAD; then the last handler's own response if it succeeded, and else the recovery from its
      status. After an error only catchers' cookies are pending; after a success those of every handler
      that ran are, including the ones that forwarded. */
  lemma DispatchIsBounded<W, D>(app: App<W, D>, s: State<W>, data: D) returns (h: History<W, D>)
    ensures var (t, r) := Answer(app, s, data);
            && Answered(app, s, data, h, t, r)
            && t.request.ops == if h.outcome.Success?
                                then s.request.ops + HandlerOps(app, h.first) + HandlerOps(app, h.second)
                                else CatcherOps(app, h.catches)
  {
    var routes := app.routes(s.request.verb);
    var first := RoutingIsFirstOutcome(app, s, routes, data, NOT_FOUND);
    var (mid, forwarded) := Routed(app, s, data);
    PassKeepsOps(app, routes, s, data, NOT_FOUND, first, mid, forwarded);
    h := History(first, mid, forwarded, [], mid, forwarded, []);
    if Retried(s, h) {
      var v := mid.(request := mid.request.(verb := Get));
      var second := RoutingIsFirstOutcome(app, v, app.routes(Get), forwarded.data, NOT_FOUND);
      var (end, outcome) := Routed(app, v, forwarded.data);
      PassKeepsOps(app, app.routes(Get), v, forwarded.data, NOT_FOUND, second, end, outcome);
      h := h.(second := second, end := end, outcome := outcome);
    }
    if !h.outcome.Success? {
      var catches := CatchingIsBounded(app, h.end, h.outcome.status);
      h := h.(catches := catches);
    }
  }

  // ---------------------------------------------------------------- headers

  lemma GetAfterInsert(t: Entries, n: string, vs: seq<string>, m: string)
    ensures Headers.Get(Insert(t, n, vs), m) == if Fold(m) == Fold(n) then vs else Headers.Get(t, m)
  {
    FindInPut(t, Fold(n), Stored(if Contains(t, n) then At(t, Fold(n)).name else n, vs), Fold(m));
  }

  /** Every pending cookie becomes a `Set-Cookie` value behind those already there; no other header changes. */
  lemma {:induction false} CookiesAreAppended(t: Entries, cookies: seq<string>, name: string)
    ensures Headers.Get(AddCookies(t, cookies), name) ==
            if Fold(name) == Fold("Set-Cookie") then Headers.Get(t, name) + cookies else Headers.Get(t, name)
  {
    if cookies == [] {
      assert Headers.Get(t, name) + [] == Headers.Get(t, name);
    } else {
      var k := |cookies| - 1;
      CookiesAreAppended(t, cookies[..k], name);
      AppendedOne(AddCookies(t, cookies[..k]), "Set-Cookie", cookies[k], name, Headers.Get(t, name), cookies[..k]);
      assert cookies == cookies[..k] + [cookies[k]];
    }
  }

  lemma AppendedOne(t: Entries, n: string, v: string, m: string, base: seq<string>, added: seq<string>)
    requires Headers.Get(t, m) == if Fold(m) == Fold(n) then base + added else base
    ensures Headers.Get(Extend(t, n, [v]), m) == if Fold(m) == Fold(n) then base + (added + [v]) else base
  {
    GetAfterExtend(t, n, [v], m);
    assert base + added + [v] == base + (added + [v]);
  }

  lemma GetAfterExtend(t: Entries, n: string, vs: seq<string>, m: string)
    ensures Headers.Get(Extend(t, n, vs), m) ==
            if Fold(m) == Fold(n) then Headers.Get(t, m) + vs else Headers.Get(t, m)
  {
    GetAfterInsert(t, n, Headers.Get(t, n) + vs, m);
  }

  /** A header of the response `r` as the fairings are to see it. */
  function Seen<W, D>(app: App<W, D>, ops: seq<string>, r: Response, name: string): seq<string>
  {
    if Fold(name) == Fold("Set-Cookie") then Headers.Get(r.headers, name) + app.delta(ops)
    else if Fold(name) == Fold("Server") && app.ident.Some? && !Contains(r.headers, "Server") then [app.ident.value]
    else Headers.Get(r.headers, name)
  }

  lemma NotServer()
    ensures Fold("Set-Cookie") != Fold("Server")
  {
    assert |Fold("Set-Cookie")| != |Fold("Server")|;
  }

  lemma {:induction false} CookiesAddNoServer(t: Entries, cookies: seq<string>)
    ensures Contains(AddCookies(t, cookies), "Server") <==> Contains(t, "Server")
  {
    if cookies != [] {
      var k := |cookies| - 1;
      CookiesAddNoServer(t, cookies[..k]);
      NotServer();
      var u := AddCookies(t, cookies[..k]);
      FindInPut(u, Fold("Set-Cookie"),
                Stored(if Contains(u, "Set-Cookie") then At(u, Fold("Set-Cookie")).name else "Set-Cookie",
                       Headers.Get(u, "Set-Cookie") + [cookies[k]]),
                Fold("Server"));
    }
  }

  /** The response fairings run last and once, with no cookies pending, on the response with its cookies and a
      `Server` header that it did not have; status, body and every other header are as they were. */
  lemma FairingsSee<W, D>(app: App<W, D>, s: State<W>, r: Response) returns (p: Response)
    ensures p.status == r.status && p.body == r.body
    ensures forall name :: Headers.Get(p.headers, name) == Seen(app, s.request.ops, r, name)
    ensures var (u, q) := Decorate(app, s, r);
            && (u.world, q) == app.onResponse(s.world, s.request.(ops := []), p)
            && u.request == s.request.(ops := [])
  {
    var cookies := AddCookies(r.headers, app.delta(s.request.ops));
    CookiesAddNoServer(r.headers, app.delta(s.request.ops));
    NotServer();
    var adds := app.ident.Some? && !Contains(r.headers, "Server");
    p := r.(headers := if adds then Insert(cookies, "Server", [app.ident.value]) else cookies);
    forall name ensures Headers.Get(p.headers, name) == Seen(app, s.request.ops, r, name) {
      CookiesAreAppended(r.headers, app.delta(s.request.ops), name);
      if adds {
        GetAfterInsert(cookies, "Server", [app.ident.value], name);
      }
    }
  }

  // ---------------------------------------------------------------- framing

  /** No body bytes leave for HEAD, 204 or 304, whatever handlers and fairings did. */
  lemma NoForbiddenBody<W, D>(app: App<W, D>, s: State<W>, data: D)
    ensures var (_, r) := Dispatched(app, s, data);
            s.request.verb.Head? || r.status == 204 || r.status == 304 ==> Bytes(r.body) == []
  {
    var (t, r) := Answer(app, s, data);
    FramedBody(Decorate(app, t, r).1, s.request.verb.Head?, app.altSvc);
  }

  lemma FramedBody(r: Response, wasHead: bool, altSvc: Option<string>)
    ensures var f := Advertise(Frame(r, wasHead), altSvc);
            f.status == r.status &&
            Bytes(f.body) ==
            if wasHead || r.status == 204 || r.status == 304 then [] else Bytes(r.body)
  {
  }

  /** Does stripping leave the body's size as it was? */
  predicate KeepsSize(b: Body) { b.inner.Seekable? || b.inner.Phantom? || b.preset == Some(0) }

  /** `Content-Length` is written for a sized body unless the status is 204, with the size before
      stripping, exactly when the body is not stripped or is one whose size stripping keeps; a stripped
      body of any other kind is given length 0. */
  lemma LengthIsPreStripSize(r: Response, wasHead: bool)
    ensures LengthWritten(r, wasHead) == (if r.status == NO_CONTENT then None else Size(r.body)) <==>
            r.status == NO_CONTENT || !Stripped(r, wasHead) || KeepsSize(r.body)
    ensures r.status != NO_CONTENT && Stripped(r, wasHead) && !KeepsSize(r.body) ==>
            LengthWritten(r, wasHead) == Some(0)
  {
  }

  /** An unsized body answers GET without a length and HEAD with `Content-Length: 0`. */
  lemma UnsizedHeadHasLengthZero(status: nat, data: seq<int>)
    requires status != NO_CONTENT && status != NOT_MODIFIED
    ensures var r := Response(status, [], Body(None, Unsized(data)));
            && Headers.Get(Frame(r, false).headers, "Content-Length") == []
            && Headers.Get(Frame(r, true).headers, "Content-Length") == ["0"]
  {
    GetAfterInsert([], "Content-Length", [Digits(0)], "Content-Length");
    assert Digits(0) == "0";
  }

  lemma {:induction false} OnlyZeroIsZero(n: nat)
    ensures Digits(n) == "0" <==> n == 0
  {
    if n >= 10 {
      DigitsNonEmpty(n / 10);
    }
  }

  lemma {:induction false} DigitsNonEmpty(n: nat)
    ensures Digits(n) != []
  {
    if n >= 10 {
      DigitsNonEmpty(n / 10);
    }
  }

  /** The response after the fairings, which framing then works on. */
  ghost function Unframed<W, D>(app: App<W, D>, s: State<W>, data: D): (State<W>, Response)
  {
    var (t, r) := Answer(app, s, data);
    Decorate(app, t, r)
  }

  ghost function As<W>(s: State<W>, verb: Method): State<W> { s.(request := s.request.(verb := verb)) }

  /** With no route for HEAD, handlers, catchers and fairings do for HEAD exactly what they do for GET. */
  lemma HeadRunsAsGet<W, D>(app: App<W, D>, s: State<W>, data: D)
    requires app.routes(Head) == []
    ensures Unframed(app, As(s, Head), data) == Unframed(app, As(s, Get), data)
  {
    var h, g := As(s, Head), As(s, Get);
    RoutingKeepsVerb(app, g, app.routes(Get), data, NOT_FOUND);
    assert Routed(app, h, data) == (h, Forward(data, NOT_FOUND));
    assert h.(request := h.request.(verb := Get)) == g;
  }

  /** Automatic HEAD handling: the HEAD response is the GET response without its body: same status, same
      headers but for the length, which is also the same unless stripping loses the body's size. */
  lemma HeadIsGetStripped<W, D>(app: App<W, D>, s: State<W>, data: D, name: string)
    requires app.routes(Head) == []
    ensures var (hs, h) := Dispatched(app, As(s, Head), data);
            var (gs, g) := Dispatched(app, As(s, Get), data);
            var r := Unframed(app, As(s, Get), data).1;
            && hs == gs && h.status == g.status && Bytes(h.body) == []
            && (Fold(name) != Fold("Content-Length") ==> Headers.Get(h.headers, name) == Headers.Get(g.headers, name))
            && (Headers.Get(h.headers, "Content-Length") == Headers.Get(g.headers, "Content-Length") <==>
                r.status == NO_CONTENT || r.status == NOT_MODIFIED || KeepsSize(r.body)
                || (Size(r.body).None? && Headers.Get(r.headers, "Content-Length") == ["0"]))
  {
    HeadRunsAsGet(app, s, data);
    var r := Unframed(app, As(s, Get), data).1;
    FramesAgree(r, app.altSvc, name);
    LengthHeadersAgree(r);
  }

  /** Framing sets the length and `Alt-Svc` and leaves every other header as it was. */
  lemma HeadersAfterFrame(r: Response, wasHead: bool, altSvc: Option<string>, name: string)
    ensures var f := Advertise(Frame(r, wasHead), altSvc);
            Headers.Get(f.headers, name) ==
            if altSvc.Some? && Fold(name) == Fold("Alt-Svc") then [altSvc.value]
            else if Fold(name) == Fold("Content-Length") && LengthWritten(r, wasHead).Some?
                 then [Digits(LengthWritten(r, wasHead).value)]
            else Headers.Get(r.headers, name)
  {
    var f := Frame(r, wasHead);
    if altSvc.Some? {
      GetAfterInsert(f.headers, "Alt-Svc", [altSvc.value], name);
    }
    if LengthWritten(r, wasHead).Some? {
      GetAfterInsert(r.headers, "Content-Length", [Digits(LengthWritten(r, wasHead).value)], name);
    }
  }

  /** The final length header: the length written, or what handlers and fairings left. */
  function LengthHeader(r: Response, wasHead: bool): seq<string>
  {
    if LengthWritten(r, wasHead).Some? then [Digits(LengthWritten(r, wasHead).value)]
    else Headers.Get(r.headers, "Content-Length")
  }

  lemma LengthHeadersAgree(r: Response)
    ensures LengthHeader(r, true) == LengthHeader(r, false) <==>
            r.status == NO_CONTENT || r.status == NOT_MODIFIED || KeepsSize(r.body)
            || (Size(r.body).None? && Headers.Get(r.headers, "Content-Length") == ["0"])
  {
    LengthIsPreStripSize(r, true);
    LengthIsPreStripSize(r, false);
    OnlyZeroIsZero(0);
    if Size(r.body).Some? {
      OnlyZeroIsZero(Size(r.body).value);
    }
  }

  lemma FramesAgree(r: Response, altSvc: Option<string>, name: string)
    ensures var h, g := Advertise(Frame(r, true), altSvc), Advertise(Frame(r, false), altSvc);
            && h.status == g.status && Bytes(h.body) == []
            && (Fold(name) != Fold("Content-Length") ==> Headers.Get(h.headers, name) == Headers.Get(g.headers, name))
            && Headers.Get(h.headers, "Content-Length") == LengthHeader(r, true)
            && Headers.Get(g.headers, "Content-Length") == LengthHeader(r, false)
  {
    FramedBody(r, true, altSvc);
    FramedBody(r, false, altSvc);
    HeadersAfterFrame(r, true, altSvc, name);
    HeadersAfterFrame(r, false, altSvc, name);
    HeadersAfterFrame(r, true, altSvc, "Content-Length");
    HeadersAfterFrame(r, false, altSvc, "Content-Length");
  }

  /** A header of the final response, from what the fairings made of it. */
  function Written(r: Response, wasHead: bool, altSvc: Option<string>, name: string): seq<string>
  {
    if altSvc.Some? && Fold(name) == Fold("Alt-Svc") then [altSvc.value]
    else if Fold(name) == Fold("Content-Length") then LengthHeader(r, wasHead)
    else Headers.Get(r.headers, name)
  }

  /** The whole dispatch, end to end: routing and recovery come to `r` in state `t`; the fairings get `p`, which is
      `r` with cookies and `Server`, and make `q` of it; and what leaves is `q` but for a forbidden body, its
      length and `Alt-Svc`. */
  lemma DispatchWrites<W, D>(app: App<W, D>, s: State<W>, data: D)
      returns (h: History<W, D>, t: State<W>, r: Response, p: Response)
    ensures Answered(app, s, data, h, t, r)
    ensures p.status == r.status && p.body == r.body
    ensures forall name :: Headers.Get(p.headers, name) == Seen(app, t.request.ops, r, name)
    ensures var (world, q) := app.onResponse(t.world, t.request.(ops := []), p);
            var (u, f) := Dispatched(app, s, data);
            && u == State(world, t.request.(ops := [])) && f.status == q.status
            && Bytes(f.body) ==
               (if s.request.verb.Head? || q.status == 204 || q.status == 304 then []
                else Bytes(q.body))
            && forall name :: Headers.Get(f.headers, name) == Written(q, s.request.verb.Head?, app.altSvc, name)
  {
    h := DispatchIsBounded(app, s, data);
    var (answered, response) := Answer(app, s, data);
    t, r := answered, response;
    p := FairingsSee(app, t, r);
    var q := app.onResponse(t.world, t.request.(ops := []), p).1;
    FramedBody(q, s.request.verb.Head?, app.altSvc);
    forall name ensures Headers.Get(Dispatched(app, s, data).1.headers, name) ==
                        Written(q, s.request.verb.Head?, app.altSvc, name)
    {
      HeadersAfterFrame(q, s.request.verb.Head?, app.altSvc, name);
      SameGet(q.headers, name, "Content-Length");
    }
  }

  lemma SameGet(t: Entries, m: string, n: string)
    ensures Fold(m) == Fold(n) ==> Headers.Get(t, m) == Headers.Get(t, n)
  {
  }

  // ---------------------------------------------------------------- the length, read

  /** The number that decimal digits write. */
  function DecimalValue(s: string): int
  {
    if s == [] then 0 else 10 * DecimalValue(s[..|s| - 1]) + (s[|s| - 1] as int - '0' as int)
  }

  /** `s` is `n` in decimal, without leading zeros. */
  predicate Writes(s: string, n: nat)
  {
    && s != [] && (forall i :: 0 <= i < |s| ==> '0' <= s[i] <= '9')
    && (|s| > 1 ==> s[0] != '0') && DecimalValue(s) == n
  }

  lemma {:induction false} DigitsWrite(n: nat)
    ensures Writes(Digits(n), n) && (n > 0 ==> Digits(n)[0] != '0')
  {
    var s := Digits(n);
    if n < 10 {
      assert s[..0] == [];
    } else {
      DigitsWrite(n / 10);
      assert s[..|s| - 1] == Digits(n / 10);
    }
  }

  /** The body tells its size: a preset one, or else the one found by seeking. */
  predicate Tells(b: Body, n: nat)
  {
    if b.preset.Some? then b.preset == Some(n)
    else (b.inner.Seekable? || b.inner.Phantom?) && b.inner.probe == Some(n)
  }

  lemma NotAltSvc()
    ensures Fold("Content-Length") != Fold("Alt-Svc")
  {
    assert |Fold("Content-Length")| != |Fold("Alt-Svc")|;
  }

  /** The length that leaves, from the body the fairings left: its size in decimal if it tells one and is not
      stripped of it; 0 if it is stripped and cannot keep it; and else whatever header was there. */
  lemma ContentLengthReads(r: Response, wasHead: bool, altSvc: Option<string>, n: nat)
    ensures var f := Advertise(Frame(r, wasHead), altSvc);
            var hs := Headers.Get(f.headers, "Content-Length");
            var stripped := wasHead || r.status == 304;
            if r.status == 204
            then hs == Headers.Get(r.headers, "Content-Length") && f.body.preset.None? && f.body.inner.Nothing?
            else if stripped && (r.body.inner.Unsized? || r.body.inner.Nothing?) then |hs| == 1 && Writes(hs[0], 0)
            else if Tells(r.body, n) then |hs| == 1 && Writes(hs[0], n) && f.body.preset == Some(n)
            else (forall m :: !Tells(r.body, m)) ==> hs == Headers.Get(r.headers, "Content-Length")
  {
    NotAltSvc();
    HeadersAfterFrame(r, wasHead, altSvc, "Content-Length");
    var length := LengthWritten(r, wasHead);
    if length.Some? {
      DigitsWrite(length.value);
      assert !(wasHead || r.status == 304) || r.body.inner.Seekable? || r.body.inner.Phantom? ==>
             Tells(r.body, length.value);
    }
  }

  /** The body tells the number of its bytes, and the response may carry them. */
  predicate TellsItsBytes(r: Response)
  {
    r.status != 204 && (r.body.inner.Seekable? || r.body.inner.Unsized?) && Tells(r.body, |r.body.inner.data|)
  }

  /** For a body that tells the number of its bytes, an unstripped response announces exactly the bytes it
      carries, and a stripped one of a seekable body the bytes it would have carried. */
  lemma LengthIsByteCount<W, D>(app: App<W, D>, s: State<W>, data: D)
    requires TellsItsBytes(Unframed(app, s, data).1)
    ensures var q, f := Unframed(app, s, data).1, Dispatched(app, s, data).1;
            var hs := Headers.Get(f.headers, "Content-Length");
            if s.request.verb.Head? || q.status == 304
            then Bytes(f.body) == [] && (q.body.inner.Seekable? ==> |hs| == 1 && Writes(hs[0], |q.body.inner.data|))
            else Bytes(f.body) == q.body.inner.data && |hs| == 1 && Writes(hs[0], |Bytes(f.body)|)
  {
    var q := Unframed(app, s, data).1;
    FramedBody(q, s.request.verb.Head?, app.altSvc);
    ContentLengthReads(q, s.request.verb.Head?, app.altSvc, |q.body.inner.data|);
  }
}
