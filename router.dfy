/**
 * BaseRouter: an insertion-ordered table from route pattern to
 * {methods, handler, extra}, and the matcher that picks a route for a URI and
 * an HTTP method.
 *
 * Regular-expression matching is not modelled: a match oracle
 * `re(pattern, subject)` gives the capture groups of a hit (element 0 is the
 * whole match) or nothing. Patterns are assumed not to contain `;`, the
 * delimiter the matcher wraps them in.
 */
module Router {
  import opened Php

  /** A routing failure, with the HTTP status the application maps it to.
      The code raises `exceptions\NotAllowedException`, a class that does not
      exist in the framework (the shipped class is
      `exceptions\MethodNotAllowedException`); it is modelled here as the
      method-not-allowed error it evidently means. The matcher does not pass
      any allowed methods, so the list it carries is always empty. */
  datatype RoutingError = NotFound | MethodNotAllowed(allowed: seq<string>)
  {
    function Status(): int {
      match this
      case NotFound => 404
      case MethodNotAllowed(_) => 405
    }
  }

  datatype RouteSpec<H> = RouteSpec(methods: seq<string>, handler: H, extra: PArray<Value>)

  datatype RouteMatch<H> = RouteMatch(handler: H, parameters: seq<string>, extra: PArray<Value>)

  /** The regex oracle: capture groups of the first match of `pattern` in `subject`. */
  type Matcher = (string, string) -> Option<seq<string>>

  // ---------------------------------------------------------------------------
  // The method prefix of a route pattern: "(GET|POST):/users"
  // ---------------------------------------------------------------------------

  predicate IsMethodChar(c: char) { IsLetter(c) || c == '|' }

  /** Length of the run of method characters at the start of `s`. */
  function MethodRun(s: string): (n: nat)
    ensures n <= |s|
    ensures forall i :: 0 <= i < n ==> IsMethodChar(s[i])
    ensures n < |s| ==> !IsMethodChar(s[n])
  {
    if |s| == 0 || !IsMethodChar(s[0]) then 0
    else
      var n := 1 + MethodRun(s[1..]);
      assert forall i :: 1 <= i < n ==> s[i] == s[1..][i - 1];
      n
  }

  /** What PCRE's `.*` matches: everything up to the first line feed. */
  function Line(s: string): (r: string)
    ensures StartsWith(s, r) && '\n' !in r
    ensures |r| < |s| ==> s[|r|] == '\n'
  {
    if |s| == 0 || s[0] == '\n' then ""
    else
      var r := [s[0]] + Line(s[1..]);
      assert s[..|r|] == [s[0]] + s[1..][..|r| - 1];
      r
  }

  /**
   * The bracketed method-prefix grammar the doc comment of addRoute asks for
   * (its single-method example "GET:/about" omits the brackets; the code's
   * own regex requires them, so they are required here): a pattern that
   * starts with a bracketed, `|`-separated list of letters followed by `:`
   * registers the rest (up to a line break) with that list of methods, as
   * written (the prefix is matched case-insensitively and not upper-cased);
   * any other pattern is registered unchanged with no method list.
   */
  function ParseMethodPrefix(regex: string): (r: (string, seq<string>))
  {
    if |regex| >= 1 && regex[0] == '(' then
      var n := MethodRun(regex[1..]);
      if n >= 1 && 1 + n + 1 < |regex| && regex[1 + n] == ')' && regex[2 + n] == ':' then
        (Line(regex[3 + n..]), Split(regex[1..1 + n], '|'))
      else (regex, [])
    else (regex, [])
  }

  /**
   * The method-prefix parsing as written. The pattern `^\([a-Z|]+\):(.*)`
   * contains the out-of-order range `a-Z`, which PCRE refuses to compile, so
   * `preg_match` fails and every pattern is registered unchanged with no
   * method list. (Even if it compiled, it has one capture group, so the
   * method list would be read from the rest of the pattern and the pattern
   * from a group that does not exist.)
   */
  function ParseMethodPrefixAsWritten(regex: string): (string, seq<string>)
  {
    (regex, [])
  }

  /** A list of method names, each a non-empty run of letters. */
  predicate MethodNames(ms: seq<string>) {
    forall i :: 0 <= i < |ms| ==> |ms[i]| >= 1 && forall j :: 0 <= j < |ms[i]| ==> IsLetter(ms[i][j])
  }

  lemma {:induction false} JoinIsMethodRun(ms: seq<string>)
    requires |ms| >= 1 && MethodNames(ms)
    ensures |Join(ms, '|')| >= 1
    ensures forall j :: 0 <= j < |Join(ms, '|')| ==> IsMethodChar(Join(ms, '|')[j])
    decreases |ms|
  {
    if |ms| > 1 {
      JoinIsMethodRun(ms[1..]);
      var t := Join(ms[1..], '|');
      assert Join(ms, '|') == ms[0] + ['|'] + t;
      forall j | 0 <= j < |Join(ms, '|')| ensures IsMethodChar(Join(ms, '|')[j]) {
        if j < |ms[0]| { assert Join(ms, '|')[j] == ms[0][j]; }
        else if j > |ms[0]| { assert Join(ms, '|')[j] == t[j - |ms[0]| - 1]; }
      }
    }
  }

  lemma GetPostAreMethodNames()
    ensures MethodNames(["GET", "POST"])
  {
  }

  /** Two method names joined. */
  lemma JoinPair(a: string, b: string, c: char)
    ensures Join([a, b], c) == a + [c] + b
  {
    assert [a, b][1..] == [b];
  }

  /** The bracketed grammar: "(GET|POST):/x" registers "/x" for GET and POST. */
  lemma {:induction false} MethodPrefixRoundTrip(ms: seq<string>, pattern: string)
    requires |ms| >= 1 && MethodNames(ms)
    requires '\n' !in pattern
    ensures ParseMethodPrefix("(" + Join(ms, '|') + "):" + pattern) == (pattern, ms)
  {
    var body := Join(ms, '|');
    var s := "(" + body + "):" + pattern;
    JoinIsMethodRun(ms);
    assert s[1..] == body + "):" + pattern;
    var n := MethodRun(s[1..]);
    assert forall i :: 0 <= i < |body| ==> s[1..][i] == body[i];
    assert s[1..][|body|] == ')';
    assert n == |body|;
    assert s[1..1 + n] == body;
    assert s[3 + n..] == pattern;
    SplitJoin(ms, '|');
    LineWhole(pattern);
  }

  lemma {:induction false} LineWhole(s: string)
    requires '\n' !in s
    ensures Line(s) == s
    decreases |s|
  {
    if |s| > 0 {
      assert '\n' !in s[1..] by { assert forall i :: 0 <= i < |s| - 1 ==> s[1..][i] == s[i + 1]; }
      LineWhole(s[1..]);
    }
  }

  /** A pattern that does not open with a bracket never gets a method list. */
  lemma NoBracketNoMethods(regex: string)
    requires |regex| == 0 || regex[0] != '('
    ensures ParseMethodPrefix(regex) == (regex, [])
  {
  }

  /** addRoute's method-prefix parsing: as written, a route such as
      "(GET|POST):/x" is registered under the whole text with no method
      restriction; under the bracketed grammar it is registered under "/x"
      for GET and POST. */
  lemma AsWrittenIgnoresMethodPrefix(pattern: string)
    requires '\n' !in pattern
    ensures ParseMethodPrefixAsWritten("(GET|POST):" + pattern) == ("(GET|POST):" + pattern, [])
    ensures ParseMethodPrefix("(GET|POST):" + pattern) == (pattern, ["GET", "POST"])
  {
    var ms := ["GET", "POST"];
    GetPostAreMethodNames();
    MethodPrefixRoundTrip(ms, pattern);
    JoinPair("GET", "POST", '|');
    assert "(" + ("GET" + "|" + "POST") + "):" == "(GET|POST):";
  }

  // ---------------------------------------------------------------------------
  // Matching
  // ---------------------------------------------------------------------------

  /** `array_shift` of the capture groups: the whole match is dropped. */
  function Captures(groups: seq<string>): (ps: seq<string>)
    ensures |groups| >= 1 ==> ps == groups[1..]
    ensures |groups| == 0 ==> ps == []
  {
    if |groups| == 0 then [] else groups[1..]
  }

  /** The first route, in registration order, whose pattern matches `uri`,
      with its parameters. */
  function FirstHit<H>(routes: PArray<RouteSpec<H>>, uri: string, re: Matcher): Option<(RouteSpec<H>, seq<string>)>
  {
    if |routes| == 0 then None
    else match re(routes[0].0, uri)
      case Some(groups) => Some((routes[0].1, Captures(groups)))
      case None => FirstHit(routes[1..], uri, re)
  }

  /** BaseRouter::match over a route table. */
  function MatchRoutes<H>(routes: PArray<RouteSpec<H>>, uri: string, verb: string, re: Matcher): Result<RouteMatch<H>, RoutingError>
  {
    var hit: Option<(RouteSpec<H>, seq<string>)> := match Lookup(routes, uri)
      case Some(spec) => Some((spec, []))
      case None => FirstHit(routes, uri, re);
    if hit.None? then Err(NotFound)
    else
      var (spec, parameters) := hit.value;
      if |spec.methods| > 0 && verb !in spec.methods then Err(MethodNotAllowed([]))
      else Ok(RouteMatch(spec.handler, parameters, spec.extra))
  }

  /** FirstHit picks the earliest matching pattern, and no pattern before it matches. */
  lemma {:induction false} FirstHitIsFirst<H>(routes: PArray<RouteSpec<H>>, uri: string, re: Matcher)
    ensures FirstHit(routes, uri, re).None? <==> forall j :: 0 <= j < |routes| ==> re(routes[j].0, uri).None?
    ensures FirstHit(routes, uri, re).Some? ==>
      exists k :: 0 <= k < |routes| && re(routes[k].0, uri).Some?
        && FirstHit(routes, uri, re).value == (routes[k].1, Captures(re(routes[k].0, uri).value))
        && forall j :: 0 <= j < k ==> re(routes[j].0, uri).None?
    decreases |routes|
  {
    if |routes| > 0 && re(routes[0].0, uri).None? {
      FirstHitIsFirst(routes[1..], uri, re);
      assert forall j :: 1 <= j < |routes| ==> routes[j] == routes[1..][j - 1];
      if FirstHit(routes[1..], uri, re).Some? {
        var k :| 0 <= k < |routes| - 1 && re(routes[1..][k].0, uri).Some?
          && FirstHit(routes[1..], uri, re).value == (routes[1..][k].1, Captures(re(routes[1..][k].0, uri).value))
          && forall j :: 0 <= j < k ==> re(routes[1..][j].0, uri).None?;
        assert re(routes[k + 1].0, uri).Some?;
      }
    }
  }

  /** A route whose pattern string is the URI itself wins before any regex is
      tried, with no parameters; its method list alone decides the outcome. */
  lemma ExactPatternWins<H>(routes: PArray<RouteSpec<H>>, uri: string, verb: string, re: Matcher, spec: RouteSpec<H>)
    requires Lookup(routes, uri) == Some(spec)
    ensures MatchRoutes(routes, uri, verb, re) ==
      if |spec.methods| == 0 || verb in spec.methods then Ok(RouteMatch(spec.handler, [], spec.extra))
      else Err(MethodNotAllowed([]))
  {
  }

  /** Without an exact key, the first pattern hit decides the outcome: its
      method list alone is checked, and no later route is consulted. */
  lemma {:induction false} FirstPatternDecides<H>(routes: PArray<RouteSpec<H>>, uri: string, verb: string, re: Matcher, k: nat)
    requires uri !in Keys(routes)
    requires k < |routes| && re(routes[k].0, uri).Some?
    requires forall j :: 0 <= j < k ==> re(routes[j].0, uri).None?
    ensures var spec := routes[k].1;
      MatchRoutes(routes, uri, verb, re) ==
        if |spec.methods| > 0 && verb !in spec.methods then Err(MethodNotAllowed([]))
        else Ok(RouteMatch(spec.handler, Captures(re(routes[k].0, uri).value), spec.extra))
  {
    FirstHitIsFirst(routes, uri, re);
    var w :| 0 <= w < |routes| && re(routes[w].0, uri).Some?
      && FirstHit(routes, uri, re).value == (routes[w].1, Captures(re(routes[w].0, uri).value))
      && forall j :: 0 <= j < w ==> re(routes[j].0, uri).None?;
    assert w == k;
  }

  /** Not found exactly when no pattern equals the URI and none matches it. */
  lemma {:induction false} NotFoundIff<H>(routes: PArray<RouteSpec<H>>, uri: string, verb: string, re: Matcher)
    ensures MatchRoutes(routes, uri, verb, re) == Err(NotFound) <==>
      uri !in Keys(routes) && forall j :: 0 <= j < |routes| ==> re(routes[j].0, uri).None?
  {
    FirstHitIsFirst(routes, uri, re);
  }

  /** A successful match hands back a registered route's handler and extra
      unchanged, and the chosen route accepts the method. */
  lemma {:induction false} MatchReturnsRegisteredRoute<H>(routes: PArray<RouteSpec<H>>, uri: string, verb: string, re: Matcher)
    requires MatchRoutes(routes, uri, verb, re).Ok?
    ensures exists k :: (0 <= k < |routes|
      && MatchRoutes(routes, uri, verb, re).value.handler == routes[k].1.handler
      && MatchRoutes(routes, uri, verb, re).value.extra == routes[k].1.extra
      && (|routes[k].1.methods| == 0 || verb in routes[k].1.methods))
  {
    match Lookup(routes, uri)
    case Some(spec) =>
      var i :| 0 <= i < |routes| && routes[i] == (uri, spec);
    case None =>
      FirstHitIsFirst(routes, uri, re);
  }

  /** Two overlapping routes, the first for GET only and the second for POST:
      a POST is refused by the first hit and never reaches the second. */
  lemma StopsAtFirstPatternHit()
    ensures var routes := [("^/x", RouteSpec(["GET"], 1, [])), ("^/x$", RouteSpec(["POST"], 2, []))];
      var re: Matcher := (p, u) => if StartsWith(p, "^/x") && u == "/x" then Some([u]) else None;
      MatchRoutes(routes, "/x", "POST", re) == Err(MethodNotAllowed([]))
  {
    var routes := [("^/x", RouteSpec(["GET"], 1, [])), ("^/x$", RouteSpec(["POST"], 2, []))];
    var re: Matcher := (p, u) => if StartsWith(p, "^/x") && u == "/x" then Some([u]) else None;
    assert Keys(routes) == ["^/x", "^/x$"];
    assert re("^/x", "/x") == Some(["/x"]);
  }

  // ---------------------------------------------------------------------------
  // The route table
  // ---------------------------------------------------------------------------

  class BaseRouter<H> {
    /** Registered routes keyed by pattern, in registration order. */
    var routes: PArray<RouteSpec<H>>

    constructor ()
      ensures routes == []
    {
      routes := [];
    }

    /** Registers `handler` under the pattern that remains after the method
        prefix is parsed; a pattern registered again replaces its entry in place. */
    method AddRoute(regex: string, handler: H, extra: PArray<Value>)
      modifies this
      ensures var (pattern, methods) := ParseMethodPrefix(regex);
        routes == Put(old(routes), pattern, RouteSpec(methods, handler, extra))
        && Lookup(routes, pattern) == Some(RouteSpec(methods, handler, extra))
        && Keys(routes) == (if pattern in Keys(old(routes)) then Keys(old(routes)) else Keys(old(routes)) + [pattern])
        && forall p :: p != pattern ==> Lookup(routes, p) == Lookup(old(routes), p)
    {
      var (pattern, methods) := ParseMethodPrefix(regex);
      PutKeys(routes, pattern, RouteSpec(methods, handler, extra));
      routes := Put(routes, pattern, RouteSpec(methods, handler, extra));
    }

    /** BaseRouter::match. */
    function Match(uri: string, verb: string, re: Matcher): (r: Result<RouteMatch<H>, RoutingError>)
      reads this
      ensures r.Err? ==> r.error == NotFound || r.error == MethodNotAllowed([])
      ensures r == Err(NotFound) <==> uri !in Keys(routes) && forall j :: 0 <= j < |routes| ==> re(routes[j].0, uri).None?
    {
      NotFoundIff(routes, uri, verb, re);
      MatchRoutes(routes, uri, verb, re)
    }
  }
}
