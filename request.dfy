/**
 * BaseRequest: an HTTP request as the framework sees it. The method, path,
 * query string, headers, cookies and environment are fixed when the request
 * is built; the URI-prefix stack and the route "extra" values change while a
 * request is dispatched through nested modules.
 *
 * Decoding the URI (`urldecode`) and the messages cookie
 * (`unserialize(base64_decode(...))`), and finding the client address and its
 * geo-IP country and continent, happen outside the model: the constructor
 * receives them as parameters.
 */
module Request {
  import opened Php
  import RequestHelper

  // ---------------------------------------------------------------------------
  // Splitting the request URI
  // ---------------------------------------------------------------------------

  /** `rtrim($s, '/')`. */
  function RTrimSlashes(s: string): (r: string)
    ensures |r| <= |s| && r == s[..|r|]
    ensures |r| == 0 || r[|r| - 1] != '/'
    ensures forall i :: |r| <= i < |s| ==> s[i] == '/'
    decreases |s|
  {
    if |s| > 0 && s[|s| - 1] == '/' then RTrimSlashes(s[..|s| - 1]) else s
  }

  /** The stored path and query string of a (decoded) request URI: the text
      before the first "?" without trailing slashes, and the text after it,
      given a leading "?" when it is truthy. Text after a second "?" is lost. */
  function SplitUri(uri: string): (string, string) {
    var parts := Split(uri, '?');
    var query := if |parts| >= 2 then parts[1] else "";
    (RTrimSlashes(parts[0]), if StrTruthy(query) then "?" + query else query)
  }

  /** A URI without "?" has no query string. */
  lemma SplitUriNoQuery(uri: string)
    requires '?' !in uri
    ensures SplitUri(uri) == (RTrimSlashes(uri), "")
  {
    SplitWord(uri, '?');
  }

  /** The URI is split at its first "?"; the query keeps the text up to a
      second "?", and gets a leading "?" only when it is truthy (so "0" stays
      "0"). */
  lemma SplitUriAtFirstMark(path: string, query: string, rest: string)
    requires '?' !in path && '?' !in query
    ensures SplitUri(path + "?" + query) == SplitUri(path + "?" + query + "?" + rest)
    ensures SplitUri(path + "?" + query) ==
      (RTrimSlashes(path), if StrTruthy(query) then "?" + query else query)
  {
    SplitFirstTwo(path, query, "", '?');
    SplitFirstTwo(path, query, "?" + rest, '?');
    assert path + "?" + query + "" == path + "?" + query;
    assert path + "?" + query + ("?" + rest) == path + "?" + query + "?" + rest;
    SplitUriOfParts(path + "?" + query, path, query);
    SplitUriOfParts(path + "?" + query + "?" + rest, path, query);
  }

  /** Text made of a separator-free word, the separator, a second
      separator-free word and text that is empty or starts with the separator
      splits into those two words first. */
  lemma SplitFirstTwo(w: string, v: string, tail: string, c: char)
    requires c !in w && c !in v && (tail == [] || tail[0] == c)
    ensures |Split(w + [c] + v + tail, c)| >= 2
    ensures Split(w + [c] + v + tail, c)[0] == w && Split(w + [c] + v + tail, c)[1] == v
  {
    assert w + [c] + v + tail == w + [c] + (v + tail);
    SplitAppend(w, v + tail, c);
    if tail == [] {
      assert v + tail == v;
      SplitWord(v, c);
    } else {
      assert v + tail == v + [c] + tail[1..];
      SplitAppend(v, tail[1..], c);
    }
  }

  /** SplitUri reads only the first two parts of the split. */
  lemma SplitUriOfParts(uri: string, path: string, query: string)
    requires |Split(uri, '?')| >= 2 && Split(uri, '?')[0] == path && Split(uri, '?')[1] == query
    ensures SplitUri(uri) == (RTrimSlashes(path), if StrTruthy(query) then "?" + query else query)
  {
  }

  /** A request for the root "/" is stored with an empty path. */
  lemma RootPathIsEmpty()
    ensures SplitUri("/").0 == ""
  {
    SplitUriNoQuery("/");
  }

  // ---------------------------------------------------------------------------
  // The URI-prefix stack
  // ---------------------------------------------------------------------------

  predicate NoDoubleSlash(s: string) {
    forall i :: 0 <= i < |s| - 1 ==> !(s[i] == '/' && s[i + 1] == '/')
  }

  /** `preg_replace('#/{2,}#', '/', $s)`: every run of slashes becomes one;
      `afterSlash` says whether the text before `s` ended with a slash. */
  function Collapse(s: string, afterSlash: bool): (r: string)
    ensures NoDoubleSlash(r)
    ensures |r| > 0 && r[0] == '/' ==> !afterSlash
    decreases |s|
  {
    if |s| == 0 then ""
    else if s[0] == '/' && afterSlash then Collapse(s[1..], true)
    else [s[0]] + Collapse(s[1..], s[0] == '/')
  }

  function CollapseSlashes(s: string): string {
    Collapse(s, false)
  }

  /** Text without doubled slashes is left as it is. */
  lemma {:induction false} CollapseKeeps(s: string, afterSlash: bool)
    requires NoDoubleSlash(s)
    requires afterSlash ==> |s| == 0 || s[0] != '/'
    ensures Collapse(s, afterSlash) == s
    decreases |s|
  {
    if |s| > 0 {
      CollapseKeeps(s[1..], s[0] == '/');
      assert s == [s[0]] + s[1..];
    }
  }

  /** A doubled slash anywhere collapses as a single one does: with
      `CollapseKeeps`, every run of slashes becomes exactly one slash and all
      other text is kept. */
  lemma {:induction false} CollapseDoubled(x: string, y: string, afterSlash: bool)
    ensures Collapse(x + "//" + y, afterSlash) == Collapse(x + "/" + y, afterSlash)
    decreases |x|
  {
    if |x| == 0 {
      assert x + "//" + y == "/" + ("/" + y);
      assert x + "/" + y == "/" + y;
      assert ("/" + ("/" + y))[1..] == "/" + y;
      assert ("/" + y)[1..] == y;
    } else {
      CollapseDoubled(x[1..], y, x[0] == '/');
      assert (x + "//" + y)[0] == x[0] && (x + "//" + y)[1..] == x[1..] + "//" + y;
      assert (x + "/" + y)[0] == x[0] && (x + "/" + y)[1..] == x[1..] + "/" + y;
    }
  }

  /** The prefix the stack stands for: its elements concatenated, slashes collapsed. */
  function EffectivePrefix(stack: seq<Value>): string {
    CollapseSlashes(Concat(stack))
  }

  /**
   * BaseRequest::uri as a function of the stored path and the prefix stack:
   * "/" when the path is the prefix itself, otherwise the path with one
   * leading occurrence of the prefix removed, character by character and
   * without regard to path segments.
   */
  function UriOf(path: string, stack: seq<Value>): (r: string)
    ensures r == "/" || (|r| <= |path| && path[|path| - |r|..] == r)
  {
    var prefix := EffectivePrefix(stack);
    if path == prefix then "/"
    else if StartsWith(path, prefix) then path[|prefix|..]
    else path
  }

  /** With no prefix, the root request is "/" and any other path is itself. */
  lemma UriWithoutPrefix(path: string)
    ensures UriOf(path, []) == if path == "" then "/" else path
  {
  }

  /** A path that extends the effective prefix gives what follows it. */
  lemma UriStripsPrefix(stack: seq<Value>, rest: string)
    requires rest != ""
    ensures UriOf(EffectivePrefix(stack) + rest, stack) == rest
  {
    var p := EffectivePrefix(stack);
    assert (p + rest)[..|p|] == p;
    assert (p + rest)[|p|..] == rest;
  }

  /** The prefix is removed literally: "/admin" turns "/administrator" into "istrator". */
  lemma UriStripsInsideSegment()
    ensures UriOf("/administrator", [Str("/admin")]) == "istrator"
  {
    assert Concat([Str("/admin")]) == "/admin";
    CollapseKeeps("/admin", false);
    UriStripsPrefix([Str("/admin")], "istrator");
    assert "/admin" + "istrator" == "/administrator";
  }

  /** Pushing a prefix extends the effective prefix by its string form. */
  lemma PushExtendsPrefix(stack: seq<Value>, p: Value)
    ensures EffectivePrefix(stack + [p]) == CollapseSlashes(Concat(stack) + StrOf(p))
  {
    ConcatAppend(stack, p);
  }

  /** The values of a PHP array, in order. */
  function Values(items: PArray<Value>): (vs: seq<Value>)
    ensures |vs| == |items|
    ensures forall i :: 0 <= i < |items| ==> vs[i] == items[i].1
  {
    if |items| == 0 then [] else [items[0].1] + Values(items[1..])
  }

  // ---------------------------------------------------------------------------
  // Authentication
  // ---------------------------------------------------------------------------

  /** The environment keys that can carry the authenticated user, in the
      order they are tried. */
  const AuthUserKeys: seq<string> := ["PHP_AUTH_USER", "AUTHENTICATE_USERNAME", "REMOTE_USER"]

  /** `!empty($env[$k])` for a string-valued array. */
  predicate NonEmptyAt(env: PArray<string>, k: string) {
    Lookup(env, k).Some? && StrTruthy(Lookup(env, k).value)
  }

  class BaseRequest {
    /** The request method (`method()`). */
    const verb: string
    /** The path part of the request URI (`fullURI`). */
    const uri: string
    const queryString: string
    const options: PArray<Value>
    const data: PArray<Value>
    const cookies: PArray<string>
    const files: PArray<Value>
    const headers: PArray<string>
    const environment: PArray<string>
    const messages: Value
    const ip: string
    const countryCode: string
    const continent: string

    /** The URI-prefix stack, innermost prefix last. */
    var uriPrefix: seq<Value>
    /** The "extra" values of the route being dispatched. */
    var extra: PArray<Value>

    /**
     * BaseRequest::__construct. `urldecode` and `decodeMessages` stand for the
     * decoding of the URI and of the messages cookie; `clientIp`,
     * `geoCountry` and `geoContinent` for the address lookup and the geo-IP
     * answers for it ("" where there is none).
     */
    constructor (requestMethod: string, requestUri: string, options: PArray<Value>, data: PArray<Value>,
                 cookies: PArray<string>, files: PArray<Value>, headers: PArray<string>,
                 environment: PArray<string>, urldecode: string -> string,
                 decodeMessages: string -> Value, clientIp: string, geoCountry: string,
                 geoContinent: string)
      ensures this.verb == match Lookup(headers, "x-http-method-override")
                        case Some(o) => if StrTruthy(o) then o else Upper(requestMethod)
                        case None => Upper(requestMethod)
      ensures (uri, queryString) == SplitUri(urldecode(requestUri))
      ensures messages == match Lookup(cookies, "YOLK_MESSAGES")
                          case Some(c) => decodeMessages(c)
                          case None => Arr([])
      ensures this.cookies == Unset(cookies, "YOLK_MESSAGES")
      ensures "YOLK_MESSAGES" !in Keys(this.cookies)
      ensures this.options == options && this.data == data && this.files == files
      ensures this.headers == headers && this.environment == environment
      ensures ip == clientIp
      ensures countryCode == (if StrTruthy(clientIp) then geoCountry else "")
      ensures continent == (if StrTruthy(clientIp) then geoContinent else "")
      ensures uriPrefix == [] && extra == []
    {
      var m := Upper(requestMethod);
      var o := Lookup(headers, "x-http-method-override");
      if o.Some? && StrTruthy(o.value) {
        m := o.value;
      }
      this.verb := m;
      var (path, query) := SplitUri(urldecode(requestUri));
      uri := path;
      queryString := query;
      var c := Lookup(cookies, "YOLK_MESSAGES");
      messages := if c.Some? then decodeMessages(c.value) else Arr([]);
      this.cookies := Unset(cookies, "YOLK_MESSAGES");
      this.options := options;
      this.data := data;
      this.files := files;
      this.headers := headers;
      this.environment := environment;
      ip := clientIp;
      countryCode := if StrTruthy(clientIp) then geoCountry else "";
      continent := if StrTruthy(clientIp) then geoContinent else "";
      extra := [];
      uriPrefix := [];
    }

    /** BaseRequest::pushUriPrefix. */
    method PushUriPrefix(prefix: Value)
      modifies this
      ensures uriPrefix == old(uriPrefix) + [prefix]
      ensures extra == old(extra)
    {
      uriPrefix := uriPrefix + [prefix];
    }

    /** BaseRequest::popUriPrefix: the innermost prefix, or nothing (PHP's
        null) when the stack is empty. */
    method PopUriPrefix() returns (top: Option<Value>)
      modifies this
      ensures old(uriPrefix) == [] ==> top == None && uriPrefix == []
      ensures old(uriPrefix) != [] ==> top.Some? && old(uriPrefix) == uriPrefix + [top.value]
      ensures extra == old(extra)
    {
      if |uriPrefix| == 0 {
        top := None;
      } else {
        top := Some(uriPrefix[|uriPrefix| - 1]);
        uriPrefix := uriPrefix[..|uriPrefix| - 1];
      }
    }

    /** BaseRequest::setUriPrefix: an array replaces the stack with its
        values, a truthy scalar makes a one-element stack, anything else
        empties it. */
    method SetUriPrefix(prefix: Value)
      modifies this
      ensures uriPrefix == match prefix
                           case Arr(items) => Values(items)
                           case _ => if Truthy(prefix) then [prefix] else []
      ensures extra == old(extra)
    {
      uriPrefix := [];
      if prefix.Arr? {
        uriPrefix := Values(prefix.items);
      } else if Truthy(prefix) {
        uriPrefix := [prefix];
      }
    }

    /** BaseRequest::uri. */
    function Uri(): string
      reads this
    {
      UriOf(uri, uriPrefix)
    }

    /** BaseRequest::fullURI: the stored path, whatever the prefix. */
    function FullUri(): string {
      uri
    }

    /** BaseRequest::header: looks the name up after normalising it. */
    function Header(name: string, default: string): string {
      Get(headers, RequestHelper.Normalise(name), default)
    }

    /** BaseRequest::extra with an array argument. */
    method SetExtra(values: PArray<Value>)
      modifies this
      ensures extra == values
      ensures uriPrefix == old(uriPrefix)
    {
      extra := values;
    }

    /** BaseRequest::extra with a key. */
    function Extra(key: string, default: Value): Value
      reads this
    {
      Get(extra, key, default)
    }

    /** BaseRequest::authUser: the first non-empty of the user keys. */
    method AuthUser() returns (user: string)
      ensures user == "" <==> forall k :: k in AuthUserKeys ==> !NonEmptyAt(environment, k)
      ensures user != "" ==>
        (exists i :: 0 <= i < |AuthUserKeys| && NonEmptyAt(environment, AuthUserKeys[i])
          && user == Lookup(environment, AuthUserKeys[i]).value
          && forall j :: 0 <= j < i ==> !NonEmptyAt(environment, AuthUserKeys[j]))
    {
      var i := 0;
      while i < |AuthUserKeys|
        invariant 0 <= i <= |AuthUserKeys|
        invariant forall j :: 0 <= j < i ==> !NonEmptyAt(environment, AuthUserKeys[j])
      {
        var k := AuthUserKeys[i];
        if NonEmptyAt(environment, k) {
          return Lookup(environment, k).value;
        }
        i := i + 1;
      }
      return "";
    }

    /** BaseRequest::authPassword: the password entry, or "" when the
        environment has none. */
    function AuthPassword(): (pw: string)
      ensures Lookup(environment, "PHP_AUTH_PW").Some? ==> pw == Lookup(environment, "PHP_AUTH_PW").value
      ensures Lookup(environment, "PHP_AUTH_PW").None? ==> pw == ""
    {
      Get(environment, "PHP_AUTH_PW", "")
    }

    /** BaseRequest::isSecure. */
    predicate IsSecure() {
      NonEmptyAt(environment, "HTTPS") && Lookup(environment, "HTTPS").value != "off"
    }

    /** BaseRequest::country: the geo-IP country, or the default when there is none. */
    function Country(default: string): string {
      if StrTruthy(countryCode) then countryCode else default
    }

    /** BaseRequest::continent. */
    function Continent(default: string): string {
      if StrTruthy(continent) then continent else default
    }

    predicate IsGet() { verb == RequestHelper.MethodGet }
    predicate IsPost() { verb == RequestHelper.MethodPost }
    predicate IsPut() { verb == RequestHelper.MethodPut }
    predicate IsDelete() { verb == RequestHelper.MethodDelete }
  }

  /** header() finds the same entry under every spelling of a name: the
      lookup is made under the normalised name. */
  lemma HeaderIgnoresSpelling(r: BaseRequest, name: string, default: string)
    ensures r.Header(name, default) == r.Header(RequestHelper.Normalise(name), default)
  {
    RequestHelper.NormaliseIsCanonical(name);
  }

  /** A request whose HTTPS environment value is missing, falsy or "off" is
      not secure. */
  lemma IsSecureRejectsOff(r: BaseRequest)
    requires Lookup(r.environment, "HTTPS") in {None, Some(""), Some("0"), Some("off")}
    ensures !r.IsSecure()
  {
  }

  /** A request built without a client address answers every geo query with
      the caller's default. */
  lemma NoAddressNoGeo(r: BaseRequest, d: string)
    requires r.countryCode == "" && r.continent == ""
    ensures r.Country(d) == d && r.Continent(d) == d
  {
  }
  /** `fullURI` is the whole stored path, while `uri` drops the prefixes
      being dispatched: the latter is "/" or a tail of the former, and the two
      agree while no prefix is pushed (the empty path reads as "/"). */
  lemma UriIsTailOfFullUri(r: BaseRequest)
    ensures var u := r.Uri(); var f := r.FullUri();
      u == "/" || (|u| <= |f| && f[|f| - |u|..] == u)
    ensures r.uriPrefix == [] ==> r.Uri() == (if r.FullUri() == "" then "/" else r.FullUri())
  {
    if r.uriPrefix == [] {
      UriWithoutPrefix(r.uri);
    }
  }

  /** At most one of `isGet`, `isPost`, `isPut` and `isDelete` holds, and
      none does for any other method. */
  lemma MethodTestsExclusive(r: BaseRequest)
    ensures r.IsGet() ==> !r.IsPost() && !r.IsPut() && !r.IsDelete()
    ensures r.IsPost() ==> !r.IsPut() && !r.IsDelete()
    ensures r.IsPut() ==> !r.IsDelete()
    ensures r.IsGet() || r.IsPost() || r.IsPut() || r.IsDelete() <==>
      r.verb in [RequestHelper.MethodGet, RequestHelper.MethodPost, RequestHelper.MethodPut, RequestHelper.MethodDelete]
  {
  }
}
