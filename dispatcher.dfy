/**
 * BaseDispatcher: a middleware queue in front of a route loop.
 *
 * Invoking the dispatcher initialises it if it has no services yet, takes the
 * front middleware unit off its queue and runs it with the dispatcher itself
 * as the next step; once the queue is empty it dispatches the request: the
 * routes are tried in order, a route whose handler returns `false` falls
 * through to the next one, and a route's URI prefix is pushed on the
 * request's prefix stack while its handler runs.
 *
 * The router, the handlers, the controllers and the middleware units are
 * abstract: what they answer is given by the oracles of a `World`. Handlers
 * and units see the request through a `View` (its `uri()`, its method and its
 * extra route information) and do not change it.
 */
module Dispatcher {
  import opened Php
  import Request

  // ---------------------------------------------------------------------------
  // Routes, handlers and what running them yields
  // ---------------------------------------------------------------------------

  /** An object a handler can be called on. */
  datatype Obj =
    | Registered(id: string)   // the service registered under `id`
    | Created(cls: string)     // a fresh instance of class `cls`, given the services
    | Given(tag: nat)          // an object placed in the route table by the application

  /** The first element of an array handler: a class name or an object. */
  datatype Target = ClassName(name: string) | Instance(obj: Obj)

  /** A route's handler as registered: a string (a function name or
      "Class::method"), an array `[target, method]`, or a closure. */
  datatype Handler = Text(s: string) | Pair(target: Target, action: string) | Closure(tag: nat)

  /** What `makeHandler` hands back: a callable as it is, or a controller
      method wrapped with the controller's `__before`/`__after` hooks. */
  datatype Invokable = Direct(handler: Handler) | Hooked(controller: Obj, action: string)

  /** A route as the dispatcher's router lists it. */
  datatype Route = Route(pattern: string, handler: Handler, extra: Value)

  /** What calling a handler, hook or unit yields: a value (PHP's `false`
      included; a response object is some truthy value) or an exception. */
  datatype Outcome = Returned(value: Value) | Raised(reason: string)

  /** The request as handlers and middleware see it. */
  datatype View = View(uri: string, verb: string, extra: PArray<Value>)

  /** What a middleware unit does with the request: answer it, or call the
      next step and hand its outcome to `World.finish`. */
  datatype Step = Respond(outcome: Outcome) | Forward

  /** The behaviour of everything the dispatcher calls but does not define. */
  datatype World = World(
    test: (Route, string, string) -> Option<seq<Value>>,  // router->test(route, uri, method): false or the parameters
    call: (Handler, View, seq<Value>) -> Outcome,         // calling a callable with the request and the parameters
    isController: Obj -> bool,                            // instanceof Controller
    before: (Obj, View) -> Outcome,                       // Controller::__before
    after: (Obj, View, Value) -> Outcome,                 // Controller::__after
    unit: (nat, View) -> Step,                            // a middleware unit, given the request
    finish: (nat, Outcome) -> Outcome,                    // what a forwarding unit makes of the next step's outcome
    initServices: set<string>,                            // the services `init` registers
    initRoutes: seq<Route>)                               // the routes of the router `init` sets

  /** The part of the request that dispatching changes. */
  datatype ReqState = ReqState(stack: seq<Value>, extra: PArray<Value>)

  /** The part of the request and the dispatcher that dispatching reads. */
  datatype Env = Env(path: string, verb: string, services: set<string>, namespace: string)

  function ViewOf(env: Env, st: ReqState): View {
    View(Request.UriOf(env.path, st.stack), env.verb, st.extra)
  }

  function StateOf(r: Request.BaseRequest): ReqState
    reads r
  {
    ReqState(r.uriPrefix, r.extra)
  }

  // ---------------------------------------------------------------------------
  // makeHandler
  // ---------------------------------------------------------------------------

  /**
   * The class and method of a "Class::method" string: `::` must occur at a
   * position greater than 0 (strpos is falsy at 0), the class is the text
   * before it and the method the text up to a second `::`, if any.
   */
  function ClassHandlerParts(s: string): (r: Option<(string, string)>)
    ensures r.Some? ==> |r.value.0| > 0 && StartsWith(s, r.value.0 + "::" + r.value.1)
  {
    match Find(s, "::")
    case None => None
    case Some(i) =>
      if i == 0 then None
      else
        assert s[i..][..2] == "::";
        var rest := s[i + 2..];
        var m := match Find(rest, "::") case None => rest case Some(j) => rest[..j];
        assert s[..i] + "::" + m == s[..i + 2 + |m|];
        Some((s[..i], m))
  }

  /** BaseDispatcher::isControllerClassHandler. */
  predicate IsControllerClassHandler(h: Handler) {
    h.Text? && ClassHandlerParts(h.s).Some?
  }

  /** The object a "Class::method" handler is called on: a fully qualified
      class (leading `\`) is instantiated, a class registered in the services
      is taken from there, any other is looked for in the dispatcher's
      `controllers` namespace. */
  function ControllerFor(cls: string, services: set<string>, namespace: string): Obj {
    if StartsWith(cls, "\\") then Created(cls)
    else if cls in services then Registered(cls)
    else Created(namespace + "\\controllers\\" + cls)
  }

  /** BaseDispatcher::isControllerInstanceHandler. */
  predicate IsControllerInstanceHandler(h: Handler, isController: Obj -> bool) {
    h.Pair? && h.target.Instance? && isController(h.target.obj)
  }

  /** BaseDispatcher::makeHandler. */
  function MakeHandler(h: Handler, services: set<string>, namespace: string, isController: Obj -> bool): Invokable {
    var resolved :=
      if IsControllerClassHandler(h) then
        var (cls, m) := ClassHandlerParts(h.s).value;
        Pair(Instance(ControllerFor(cls, services, namespace)), m)
      else h;
    if IsControllerInstanceHandler(resolved, isController) then Hooked(resolved.target.obj, resolved.action)
    else Direct(resolved)
  }

  /** Running what `makeHandler` produced, with the request and the route's
      parameters: a controller's `__before` result, when non-empty, is the
      answer; otherwise the action's result goes through `__after`. */
  function Run(inv: Invokable, view: View, params: seq<Value>, w: World): Outcome {
    match inv
    case Direct(h) => w.call(h, view, params)
    case Hooked(obj, m) =>
      match w.before(obj, view)
      case Raised(e) => Raised(e)
      case Returned(b) =>
        if Truthy(b) then Returned(b)
        else match w.call(Pair(Instance(obj), m), view, params)
          case Raised(e) => Raised(e)
          case Returned(a) => w.after(obj, view, a)
  }

  /** `Find` answers the first position at which the text occurs. */
  lemma FindAt(s: string, t: string, i: nat)
    requires i <= |s| && StartsWith(s[i..], t)
    requires forall j :: 0 <= j < i ==> !StartsWith(s[j..], t)
    ensures Find(s, t) == Some(i)
  {
  }

  /** Text without a colon holds no "::". */
  lemma NoColonNoSeparator(s: string)
    requires ':' !in s
    ensures forall j :: 0 <= j <= |s| ==> !StartsWith(s[j..], "::")
  {
    forall j | 0 <= j <= |s|
      ensures !StartsWith(s[j..], "::")
    {
      if j < |s| {
        assert s[j] in s;
        assert s[j..][0] == s[j];
      }
    }
  }

  /** The first "::" in `a + b`, when `a` holds no colon and `b` starts with
      "::", is where `b` starts. */
  lemma FirstSeparator(a: string, b: string)
    requires ':' !in a && StartsWith(b, "::")
    ensures Find(a + b, "::") == Some(|a|)
  {
    var s := a + b;
    forall j | 0 <= j < |a|
      ensures !StartsWith(s[j..], "::")
    {
      assert a[j] in a;
      assert s[j..][0] == s[j] == a[j];
    }
    assert s[|a|..] == b;
    FindAt(s, "::", |a|);
  }

  /** "Class::method", and "Class::method::more", split into the class and
      the method, whatever follows a second "::". */
  lemma ClassHandlerSplit(cls: string, m: string, tail: string)
    requires |cls| > 0 && ':' !in cls && ':' !in m
    requires tail == "" || StartsWith(tail, "::")
    ensures ClassHandlerParts(cls + "::" + m + tail) == Some((cls, m))
  {
    var s := cls + "::" + m + tail;
    var rest := m + tail;
    assert s == cls + ("::" + rest);
    assert StartsWith("::" + rest, "::");
    FirstSeparator(cls, "::" + rest);
    assert s[|cls| + 2..] == rest;
    if tail == "" {
      assert rest == m;
      NoColonNoSeparator(m);
    } else {
      FirstSeparator(m, tail);
      assert rest[..|m|] == m;
    }
  }

  /** A "Class::method" string resolves to the method on the object
      `ControllerFor` names, wrapped with hooks exactly when that object is a
      controller. */
  lemma ClassHandlerResolution(cls: string, m: string, tail: string, services: set<string>,
                               namespace: string, isController: Obj -> bool)
    requires |cls| > 0 && ':' !in cls && ':' !in m
    requires tail == "" || StartsWith(tail, "::")
    ensures var obj := ControllerFor(cls, services, namespace);
      MakeHandler(Text(cls + "::" + m + tail), services, namespace, isController) ==
        if isController(obj) then Hooked(obj, m) else Direct(Pair(Instance(obj), m))
  {
    ClassHandlerSplit(cls, m, tail);
  }

  /** The three places a controller class is looked for. */
  lemma ControllerLookupOrder(cls: string, services: set<string>, namespace: string)
    requires |cls| > 0
    ensures cls[0] == '\\' ==> ControllerFor(cls, services, namespace) == Created(cls)
    ensures cls[0] != '\\' && cls in services ==> ControllerFor(cls, services, namespace) == Registered(cls)
    ensures cls[0] != '\\' && cls !in services ==>
      ControllerFor(cls, services, namespace) == Created(namespace + "\\controllers\\" + cls)
  {
    assert StartsWith(cls, "\\") <==> cls[..1] == [cls[0]] == "\\";
  }

  /** A string with no "::" after its first character is called as it is. */
  lemma PlainStringUnchanged(s: string, services: set<string>, namespace: string, isController: Obj -> bool)
    requires forall j :: 0 < j <= |s| ==> !StartsWith(s[j..], "::")
    ensures MakeHandler(Text(s), services, namespace, isController) == Direct(Text(s))
  {
    match Find(s, "::")
    case None =>
    case Some(i) =>
  }

  /** An array handler is wrapped exactly when its first element is a
      controller object; closures are never wrapped. */
  lemma ArrayHandlerWrappedIffController(t: Target, m: string, tag: nat, services: set<string>,
                                         namespace: string, isController: Obj -> bool)
    ensures MakeHandler(Pair(t, m), services, namespace, isController).Hooked? <==>
      t.Instance? && isController(t.obj)
    ensures MakeHandler(Pair(t, m), services, namespace, isController).Hooked? ==>
      MakeHandler(Pair(t, m), services, namespace, isController) == Hooked(t.obj, m)
    ensures !(t.Instance? && isController(t.obj)) ==>
      MakeHandler(Pair(t, m), services, namespace, isController) == Direct(Pair(t, m))
    ensures MakeHandler(Closure(tag), services, namespace, isController) == Direct(Closure(tag))
  {
  }

  /** With BaseController's default `__before` (it answers false), a wrapped
      controller method answers what the method answers whenever the method
      raises or answers a response that `__after` hands back unchanged. */
  lemma DefaultHooksTransparent(obj: Obj, m: string, view: View, params: seq<Value>, w: World)
    requires w.before(obj, view) == Returned(Bool(false))
    requires w.call(Pair(Instance(obj), m), view, params).Returned? ==>
      var a := w.call(Pair(Instance(obj), m), view, params).value;
      w.after(obj, view, a) == Returned(a)
    ensures Run(Hooked(obj, m), view, params, w) == w.call(Pair(Instance(obj), m), view, params)
  {
  }

  /** BaseController's default `__after` only accepts a response object, so
      with the default hooks an action that answers a falsy value makes the
      wrapped handler raise instead of answering `false`: such a route does
      not fall through to the next one. */
  lemma DefaultHooksRaiseOnFalsyAction(obj: Obj, m: string, view: View, params: seq<Value>, w: World)
    requires w.before(obj, view) == Returned(Bool(false))
    requires forall v :: !Truthy(v) ==> w.after(obj, view, v).Raised?
    requires w.call(Pair(Instance(obj), m), view, params).Returned?
    requires !Truthy(w.call(Pair(Instance(obj), m), view, params).value)
    ensures Run(Hooked(obj, m), view, params, w).Raised?
  {
  }

  /** A non-empty `__before` answer is the answer: the action and `__after`
      are not consulted. */
  lemma BeforeShortCircuits(obj: Obj, m: string, view: View, params: seq<Value>, w: World, w': World)
    requires w.before(obj, view) == w'.before(obj, view)
    requires w.before(obj, view).Returned? && Truthy(w.before(obj, view).value)
    ensures Run(Hooked(obj, m), view, params, w) == w.before(obj, view)
    ensures Run(Hooked(obj, m), view, params, w') == Run(Hooked(obj, m), view, params, w)
  {
  }

  // ---------------------------------------------------------------------------
  // dispatch
  // ---------------------------------------------------------------------------

  /** The prefix a route delegates under: `isset($route['extra']['prefix'])`. */
  function RoutePrefix(extra: Value): (r: Option<Value>)
    ensures r.Some? ==> r.value != Null && extra.Arr? && Lookup(extra.items, "prefix") == Some(r.value)
    ensures r.None? ==> !extra.Arr? || Lookup(extra.items, "prefix") in {None, Some(Null)}
  {
    if extra.Arr? then
      match Lookup(extra.items, "prefix")
      case Some(p) => if p != Null then Some(p) else None
      case None => None
    else None
  }

  /** The request as a route's handler finds it: the route's prefix pushed,
      its extra (when an array) set. */
  function Enter(route: Route, st: ReqState): ReqState {
    ReqState(
      match RoutePrefix(route.extra) case Some(p) => st.stack + [p] case None => st.stack,
      if route.extra.Arr? then route.extra.items else st.extra)
  }

  /** Trying one route: `None` when the router's test fails, else the
      handler's outcome and the request afterwards. The prefix is popped
      only when the handler returns; an exception leaves it pushed. */
  function Attempt(route: Route, env: Env, st: ReqState, w: World): Option<(Outcome, ReqState)> {
    match w.test(route, Request.UriOf(env.path, st.stack), env.verb)
    case None => None
    case Some(params) =>
      var entered := Enter(route, st);
      var o := Run(MakeHandler(route.handler, env.services, env.namespace, w.isController),
                   ViewOf(env, entered), params, w);
      if o.Returned? && RoutePrefix(route.extra).Some? then
        Some((o, entered.(stack := st.stack)))
      else Some((o, entered))
  }

  /** Whether an attempt's outcome ends dispatching. */
  predicate Ends(o: Outcome) {
    o != Returned(Bool(false))
  }

  /** BaseDispatcher::dispatch over the routes in order: the outcome and the
      request afterwards. */
  function DispatchAll(routes: seq<Route>, env: Env, st: ReqState, w: World): (ReqState, Outcome) {
    if routes == [] then (st, Returned(Bool(false)))
    else match Attempt(routes[0], env, st, w)
      case None => DispatchAll(routes[1..], env, st, w)
      case Some((o, after)) =>
        if Ends(o) then (after, o) else DispatchAll(routes[1..], env, after, w)
  }

  /** A route attempt that returns restores the prefix stack and leaves the
      route's extra (when an array) in the request, even when the handler
      answers false. */
  lemma AttemptRestoresStack(route: Route, env: Env, st: ReqState, w: World)
    requires Attempt(route, env, st, w).Some?
    ensures var (o, after) := Attempt(route, env, st, w).value;
      (o.Returned? ==> after.stack == st.stack) &&
      (route.extra.Arr? ==> after.extra == route.extra.items) &&
      (!route.extra.Arr? ==> after.extra == st.extra)
  {
  }

  /** An exception from a handler delegated under a prefix leaves that prefix
      on the stack (there is no `finally`). */
  lemma RaisedLeavesPrefix(route: Route, env: Env, st: ReqState, w: World)
    requires Attempt(route, env, st, w).Some? && Attempt(route, env, st, w).value.0.Raised?
    requires RoutePrefix(route.extra).Some?
    ensures Attempt(route, env, st, w).value.1.stack == st.stack + [RoutePrefix(route.extra).value]
  {
  }

  /** The handler sees the route's prefix pushed: a route with prefix p is
      run with `uri()` computed from the stack with p on top. */
  lemma HandlerSeesPrefix(route: Route, env: Env, st: ReqState, w: World)
    requires RoutePrefix(route.extra).Some?
    ensures ViewOf(env, Enter(route, st)).uri ==
      Request.UriOf(env.path, st.stack + [RoutePrefix(route.extra).value])
  {
  }

  /** Dispatching over two lists of routes is dispatching over the first and,
      if every route there fell through, over the second. */
  lemma {:induction false} DispatchAppend(a: seq<Route>, b: seq<Route>, env: Env, st: ReqState, w: World)
    ensures var (s, o) := DispatchAll(a, env, st, w);
      DispatchAll(a + b, env, st, w) == if Ends(o) then (s, o) else DispatchAll(b, env, s, w)
    decreases |a|
  {
    if a == [] {
      assert a + b == b;
    } else {
      assert (a + b)[0] == a[0];
      assert (a + b)[1..] == a[1..] + b;
      match Attempt(a[0], env, st, w)
      case None => DispatchAppend(a[1..], b, env, st, w);
      case Some((o, after)) =>
        if !Ends(o) { DispatchAppend(a[1..], b, env, after, w); }
    }
  }

  /** Route j decides the dispatch: the routes before it all fell through,
      leaving the request as `mid`, and trying route j from there yields the
      dispatch's outcome and final request. */
  predicate DecidedAt(routes: seq<Route>, env: Env, st: ReqState, w: World, j: nat, mid: ReqState) {
    j < |routes| &&
    DispatchAll(routes[..j], env, st, w) == (mid, Returned(Bool(false))) &&
    Attempt(routes[j], env, mid, w) == Some((DispatchAll(routes, env, st, w).1, DispatchAll(routes, env, st, w).0))
  }

  /** Dispatching answers false, or the outcome of the first route whose test
      succeeds and whose handler does not answer false; the routes before it
      all fell through. */
  lemma DispatchFirstQualifying(routes: seq<Route>, env: Env, st: ReqState, w: World)
    ensures DispatchAll(routes, env, st, w).1 == Returned(Bool(false)) ||
      exists j: nat, mid :: DecidedAt(routes, env, st, w, j, mid)
  {
    if Ends(DispatchAll(routes, env, st, w).1) {
      var j, mid := DecidingRoute(routes, env, st, w);
    }
  }

  /** The route that decides a dispatch that does not answer false. */
  lemma {:induction false} DecidingRoute(routes: seq<Route>, env: Env, st: ReqState, w: World) returns (j: nat, mid: ReqState)
    requires Ends(DispatchAll(routes, env, st, w).1)
    ensures DecidedAt(routes, env, st, w, j, mid)
    decreases |routes|
  {
    var res := DispatchAll(routes, env, st, w);
    var first := Attempt(routes[0], env, st, w);
    if first.Some? && Ends(first.value.0) {
      assert routes[..0] == [];
      j, mid := 0, st;
    } else {
      var next := if first.None? then st else first.value.1;
      assert res == DispatchAll(routes[1..], env, next, w);
      var k, m := DecidingRoute(routes[1..], env, next, w);
      FallThroughFirst(routes, k + 1, env, st, next, w);
      assert routes[k + 1] == routes[1..][k];
      j, mid := k + 1, m;
    }
  }

  /** Once the first route has fallen through, dispatching a prefix of the
      routes is dispatching the rest of that prefix from where it left the
      request. */
  lemma FallThroughFirst(routes: seq<Route>, n: nat, env: Env, st: ReqState, next: ReqState, w: World)
    requires 0 < n <= |routes|
    requires (Attempt(routes[0], env, st, w) == None && next == st) ||
             Attempt(routes[0], env, st, w) == Some((Returned(Bool(false)), next))
    ensures DispatchAll(routes[..n], env, st, w) == DispatchAll(routes[1..][..n - 1], env, next, w)
  {
    assert routes[..n][0] == routes[0];
    assert routes[..n][1..] == routes[1..][..n - 1];
  }

  /** One step of dispatching from route i on. */
  lemma DispatchStep(routes: seq<Route>, i: nat, env: Env, st: ReqState, w: World)
    requires i < |routes|
    ensures DispatchAll(routes[i..], env, st, w) ==
      match Attempt(routes[i], env, st, w)
      case None => DispatchAll(routes[i + 1..], env, st, w)
      case Some((o, after)) => if Ends(o) then (after, o) else DispatchAll(routes[i + 1..], env, after, w)
  {
    assert routes[i..][0] == routes[i];
    assert routes[i..][1..] == routes[i + 1..];
  }

  /** A dispatch that does not end in an exception leaves the prefix stack as
      it found it. */
  lemma {:induction false} DispatchRestoresStack(routes: seq<Route>, env: Env, st: ReqState, w: World)
    requires DispatchAll(routes, env, st, w).1.Returned?
    ensures DispatchAll(routes, env, st, w).0.stack == st.stack
    decreases |routes|
  {
    if routes != [] {
      match Attempt(routes[0], env, st, w)
      case None => DispatchRestoresStack(routes[1..], env, st, w);
      case Some((o, after)) =>
        AttemptRestoresStack(routes[0], env, st, w);
        if !Ends(o) { DispatchRestoresStack(routes[1..], env, after, w); }
    }
  }

  /** When the router's test fails for every route, dispatching answers false
      and changes nothing. */
  lemma {:induction false} NoRouteMatches(routes: seq<Route>, env: Env, st: ReqState, w: World)
    requires forall i :: 0 <= i < |routes| ==> w.test(routes[i], Request.UriOf(env.path, st.stack), env.verb).None?
    ensures DispatchAll(routes, env, st, w) == (st, Returned(Bool(false)))
    decreases |routes|
  {
    if routes != [] {
      assert w.test(routes[0], Request.UriOf(env.path, st.stack), env.verb).None?;
      NoRouteMatches(routes[1..], env, st, w);
    }
  }

  // ---------------------------------------------------------------------------
  // __invoke: the middleware queue
  // ---------------------------------------------------------------------------

  /** BaseDispatcher::__invoke after initialisation: the outcome, the queue
      left and the request afterwards. Each call takes the front unit off the
      queue; an empty queue dispatches. */
  function InvokeAll(queue: seq<nat>, routes: seq<Route>, env: Env, st: ReqState, w: World): (seq<nat>, ReqState, Outcome)
    decreases |queue|
  {
    if queue == [] then
      var (s, o) := DispatchAll(routes, env, st, w);
      ([], s, o)
    else match w.unit(queue[0], ViewOf(env, st))
      case Respond(o) => (queue[1..], st, o)
      case Forward =>
        var (q, s, o) := InvokeAll(queue[1..], routes, env, st, w);
        (q, s, w.finish(queue[0], o))
  }

  /** The queue left is a suffix of the queue: the units consumed are its
      front, in registration order, each once; a non-empty queue loses at
      least its front unit. */
  lemma {:induction false} InvokeConsumesFront(queue: seq<nat>, routes: seq<Route>, env: Env, st: ReqState, w: World)
    ensures var (q, _, _) := InvokeAll(queue, routes, env, st, w);
      |q| <= |queue| && q == queue[|queue| - |q|..] && (queue != [] ==> |q| < |queue|)
    decreases |queue|
  {
    if queue != [] {
      match w.unit(queue[0], ViewOf(env, st))
      case Respond(o) =>
      case Forward =>
        InvokeConsumesFront(queue[1..], routes, env, st, w);
        var (q, _, _) := InvokeAll(queue[1..], routes, env, st, w);
        assert queue[1..][|queue[1..]| - |q|..] == queue[|queue| - |q|..];
    }
  }

  /** The outcome `o` handed back through forwarding units, innermost last:
      the first unit of `units` is the last to see it. */
  function FinishChain(units: seq<nat>, o: Outcome, w: World): Outcome
    decreases |units|
  {
    if units == [] then o else w.finish(units[0], FinishChain(units[1..], o, w))
  }

  /** A unit that answers without calling the next step ends the traversal:
      when the first k units forward and the next answers, exactly k + 1
      units are consumed, the rest stay queued, the request is untouched, and
      the answer goes back out through the k forwarding units. */
  lemma {:induction false} RespondingUnitStops(queue: seq<nat>, k: nat, routes: seq<Route>, env: Env, st: ReqState, w: World)
    requires k < |queue|
    requires forall i :: 0 <= i < k ==> w.unit(queue[i], ViewOf(env, st)).Forward?
    requires w.unit(queue[k], ViewOf(env, st)).Respond?
    ensures InvokeAll(queue, routes, env, st, w).0 == queue[k + 1..]
    ensures InvokeAll(queue, routes, env, st, w).1 == st
    ensures InvokeAll(queue, routes, env, st, w).2 ==
      FinishChain(queue[..k], w.unit(queue[k], ViewOf(env, st)).outcome, w)
    decreases k
  {
    if k > 0 {
      assert w.unit(queue[0], ViewOf(env, st)).Forward?;
      assert forall i :: 0 <= i < k - 1 ==> queue[1..][i] == queue[i + 1];
      RespondingUnitStops(queue[1..], k - 1, routes, env, st, w);
      assert queue[1..][k..] == queue[k + 1..];
      assert queue[1..][k - 1] == queue[k];
      assert queue[..k][1..] == queue[1..][..k - 1];
    }
  }

  /** When every unit forwards, the whole queue is consumed and the request
      is dispatched; dispatch's answer goes back out through every unit. */
  lemma {:induction false} ForwardingReachesDispatch(queue: seq<nat>, routes: seq<Route>, env: Env, st: ReqState, w: World)
    requires forall i :: 0 <= i < |queue| ==> w.unit(queue[i], ViewOf(env, st)).Forward?
    ensures InvokeAll(queue, routes, env, st, w).0 == []
    ensures InvokeAll(queue, routes, env, st, w).1 == DispatchAll(routes, env, st, w).0
    ensures InvokeAll(queue, routes, env, st, w).2 == FinishChain(queue, DispatchAll(routes, env, st, w).1, w)
    decreases |queue|
  {
    if queue != [] {
      assert w.unit(queue[0], ViewOf(env, st)).Forward?;
      assert forall i :: 0 <= i < |queue| - 1 ==> queue[1..][i] == queue[i + 1];
      ForwardingReachesDispatch(queue[1..], routes, env, st, w);
    }
  }

  // ---------------------------------------------------------------------------
  // The dispatcher
  // ---------------------------------------------------------------------------

  class BaseDispatcher {
    /** The namespace of the concrete dispatcher class. */
    const namespace: string
    /** The ids registered in the service container; `None` until `init`. */
    var services: Option<set<string>>
    /** The routes of the router. */
    var routes: seq<Route>
    /** The middleware queue. */
    var middleware: seq<nat>
    /** How many times `init` has run. */
    ghost var inits: nat

    /** A dispatcher with an empty queue; a module sets its services (and so
        its router) when constructed, other dispatchers leave them to `init`. */
    constructor (namespace: string, services: Option<set<string>>, routes: seq<Route>)
      ensures this.namespace == namespace && this.services == services && this.routes == routes
      ensures middleware == [] && inits == 0
    {
      this.namespace := namespace;
      this.services := services;
      this.routes := routes;
      middleware := [];
      inits := 0;
    }

    /** The registered ids `isset($this->services[...])` finds. */
    function Ids(): set<string>
      reads this
    {
      match services case Some(ids) => ids case None => {}
    }

    /** BaseDispatcher::addMiddleware. */
    method AddMiddleware(unit: nat)
      modifies this
      ensures middleware == old(middleware) + [unit]
      ensures services == old(services) && routes == old(routes) && inits == old(inits)
    {
      middleware := middleware + [unit];
    }

    /** One turn of dispatch's loop: the router's test and, when the route
        matches, its handler, with the prefix pushed around it. */
    method TryRoute(route: Route, request: Request.BaseRequest, w: World) returns (o: Option<Outcome>)
      modifies request
      ensures o.None? ==> StateOf(request) == old(StateOf(request))
      ensures Attempt(route, Env(request.uri, request.verb, Ids(), namespace), old(StateOf(request)), w) ==
        if o.None? then None else Some((o.value, StateOf(request)))
    {
      ghost var st := StateOf(request);
      ghost var env := Env(request.uri, request.verb, Ids(), namespace);
      var params := w.test(route, request.Uri(), request.verb);
      if params.None? {
        return None;
      }
      var prefix := RoutePrefix(route.extra);
      if prefix.Some? {
        request.PushUriPrefix(prefix.value);
      }
      if route.extra.Arr? {
        request.SetExtra(route.extra.items);
      }
      assert StateOf(request) == Enter(route, st);
      var handler := MakeHandler(route.handler, Ids(), namespace, w.isController);
      var answer := Run(handler, View(request.Uri(), request.verb, request.extra), params.value, w);
      assert answer == Run(MakeHandler(route.handler, env.services, env.namespace, w.isController),
                           ViewOf(env, Enter(route, st)), params.value, w);
      if prefix.Some? && answer.Returned? {
        var _ := request.PopUriPrefix();
        assert (st.stack + [prefix.value])[..|st.stack|] == st.stack;
        assert StateOf(request) == Enter(route, st).(stack := st.stack);
      }
      o := Some(answer);
    }

    /** BaseDispatcher::dispatch. */
    method Dispatch(request: Request.BaseRequest, w: World) returns (o: Outcome)
      modifies request
      ensures (StateOf(request), o) ==
        DispatchAll(routes, Env(request.uri, request.verb, Ids(), namespace), old(StateOf(request)), w)
    {
      var env := Env(request.uri, request.verb, Ids(), namespace);
      var i := 0;
      while i < |routes|
        invariant 0 <= i <= |routes|
        invariant DispatchAll(routes, env, old(StateOf(request)), w) == DispatchAll(routes[i..], env, StateOf(request), w)
      {
        DispatchStep(routes, i, env, StateOf(request), w);
        var attempt := TryRoute(routes[i], request, w);
        if attempt.Some? && Ends(attempt.value) {
          return attempt.value;
        }
        i := i + 1;
      }
      o := Returned(Bool(false));
    }

    /** BaseDispatcher::__invoke: initialise when there are no services yet,
        then run the front unit of the queue, or dispatch when it is empty. */
    method Invoke(request: Request.BaseRequest, w: World) returns (o: Outcome)
      modifies this, request
      ensures old(services).None? ==> services == Some(w.initServices) && routes == w.initRoutes && inits == old(inits) + 1
      ensures old(services).Some? ==> services == old(services) && routes == old(routes) && inits == old(inits)
      ensures (middleware, StateOf(request), o) ==
        InvokeAll(old(middleware), routes, Env(request.uri, request.verb, Ids(), namespace), old(StateOf(request)), w)
      decreases |middleware|
    {
      if services.None? {
        services := Some(w.initServices);
        routes := w.initRoutes;
        inits := inits + 1;
      }
      if middleware == [] {
        o := Dispatch(request, w);
        return;
      }
      var unit := middleware[0];
      middleware := middleware[1..];
      var step := w.unit(unit, View(request.Uri(), request.verb, request.extra));
      match step
      case Respond(answer) =>
        o := answer;
      case Forward =>
        var inner := Invoke(request, w);
        o := w.finish(unit, inner);
    }
  }
}
