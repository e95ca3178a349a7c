# yolk-application in Dafny

A model of the request-routing core of yolk-application, a small PHP MVC
framework. It covers seven classes:

- **BaseRouter.** An insertion-ordered route table from pattern to
  `{methods, handler, extra}`, with its method-prefix grammar. Its matcher tries
  an exact key first. Otherwise it takes the first regular-expression hit and
  then checks the request method.
- **BaseDispatcher.** A middleware queue that is consumed one unit per
  invocation, in front of a route loop. A handler that answers `false` falls
  through to the next route. A route's URI prefix is pushed around its handler.
  `"Class::method"` handler strings are resolved to controllers, and controller
  actions are wrapped with the `__before`/`__after` hooks.
- **BaseRequest.** Method override, splitting the URI into path and query
  string, the URI-prefix stack and `uri()`, header lookup, route extras,
  authentication and geo queries.
- **BaseResponse.** The status table and `status`, header-name
  normalisation, charset handling, cookies, flash messages, redirects and the
  redirect prefix.
- **BaseConfig.** A tree of nested arrays addressed by dotted keys, with `get`,
  `has`, `set`, `merge` and `toArray`.
- **RequestHelper.** Splits a `$_SERVER`-like array into headers and
  environment, picks the request data for a method, and filters uploads.
- **ServiceContainer.** Recognises `cache.`/`db.`/`log.`/`view.` shortcut
  ids, checks their existence against the configuration, and memoises a built
  service under its id.

Files:

- `php.dfy`: PHP values and truthiness. PHP arrays are ordered key/value
  sequences, where assigning an existing key keeps its position. It also holds
  the string functions the framework calls (`explode`, `implode`, `strpos`,
  `strtolower`, `strtoupper`).
- One file per class: `router.dfy`, `dispatcher.dfy`, `request.dfy`,
  `response.dfy`, `config.dfy`, `request_helper.dfy`, `services.dfy`.

How the PHP is modelled:

- Objects whose fields the PHP updates are Dafny classes with those fields.
  This applies to the router, dispatcher, request, response, configuration and
  container. Their methods carry `modifies` clauses and state the whole new
  state.
- Each loop of the PHP (`get`, `merge`, `getHeaders`, `getEnvironment`,
  `getFiles`, `authUser`, `dispatch`) is a `while` loop proved against a
  recursive specification function. The `for` loop of `set`, which walks
  down the key's parts, is rendered by the recursive function `SetPath`.
- Further lemmas relate those functions to what the code promises.
- Regular-expression matching, handlers, controllers, hooks and middleware
  units are opaque. They appear as function parameters ("oracles"). In the
  dispatcher they are gathered in a `World` record.

## Model

| member | source | states |
|---|---|---|
| Router.BaseRouter.constructor | src/BaseRouter.php:58-62 | A new router has an empty route table. |
| Router.BaseRouter.AddRoute | src/BaseRouter.php:70-86 | The route is stored under the pattern left after the method prefix is parsed by the corrected grammar (see Findings). A pattern registered again keeps its original position. Every other pattern keeps its entry. |
| Router.MethodPrefixRoundTrip | src/BaseRouter.php:48-54 | Bracketed grammar: `(M1\|...\|Mn):pattern` registers `pattern` with methods `[M1..Mn]`, for any non-empty list of letter-only method names. |
| Router.NoBracketNoMethods | src/BaseRouter.php:72-78 | A pattern that does not open with `(` is registered unchanged with no method list. |
| Router.AsWrittenIgnoresMethodPrefix | src/BaseRouter.php:75-78 | As written, `(GET\|POST):p` is registered under the whole text with no methods. The bracketed grammar registers `p` for GET and POST. |
| Router.FirstHitIsFirst | src/BaseRouter.php:123-129 | The regex scan finds nothing iff no pattern matches. Otherwise it returns the earliest matching route with its captures, and no earlier pattern matches. |
| Router.ExactPatternWins | src/BaseRouter.php:117-120 | A route keyed by the URI itself is chosen with no parameters, before any regex is tried. Its method list decides between success and method-not-allowed. |
| Router.FirstPatternDecides | src/BaseRouter.php:122-143 | Without an exact key, the first matching pattern decides the outcome. An empty method list or a listed method gives its handler, captures and extra; any other method gives method-not-allowed. No later route is consulted. |
| Router.NotFoundIff | src/BaseRouter.php:132-133 | Not found iff no key equals the URI and no pattern matches it. |
| Router.MatchReturnsRegisteredRoute | src/BaseRouter.php:135-143 | A successful match returns a registered route's handler and extra unchanged, and that route accepts the method. |
| Router.StopsAtFirstPatternHit | src/BaseRouter.php:123-137 | Two overlapping routes, GET-only then POST: a POST is refused with method-not-allowed although the second route would accept it. |
| Router.BaseRouter.Match | src/BaseRouter.php:112-145 | The only errors are not-found and method-not-allowed with no methods. Not-found occurs exactly when neither an exact key nor a pattern matches. |
| Dispatcher.BaseDispatcher.constructor | src/BaseDispatcher.php:78-82 | A new dispatcher has an empty middleware queue and has not been initialised. |
| Dispatcher.BaseDispatcher.AddMiddleware | src/BaseDispatcher.php:90-92 | The unit is appended to the queue; nothing else changes. |
| Dispatcher.BaseDispatcher.Invoke | src/BaseDispatcher.php:94-111 | `init` runs exactly when there are no services yet. The queue, request and outcome afterwards are those of `InvokeAll` on the old queue. |
| Dispatcher.InvokeConsumesFront | src/BaseDispatcher.php:101 | The queue left is a suffix of the old one, so units run front first and at most once. A non-empty queue loses at least its front unit. |
| Dispatcher.RespondingUnitStops | src/BaseDispatcher.php:103-109 | Suppose the first k units forward and unit k answers. Then exactly k+1 units are consumed, the rest stay queued, and the request is untouched. The outcome is unit k's answer handed back out through the k forwarding units (`FinishChain`). |
| Dispatcher.ForwardingReachesDispatch | src/BaseDispatcher.php:103-106 | When every unit forwards, the whole queue is consumed and the request ends as `dispatch` leaves it. The outcome is `dispatch`'s answer handed back out through every unit. |
| Dispatcher.BaseDispatcher.Dispatch | src/BaseDispatcher.php:118-161 | The route loop leaves the request's prefix stack and extra, and returns the outcome, exactly as `DispatchAll` over the routes in order. |
| Dispatcher.BaseDispatcher.TryRoute | src/BaseDispatcher.php:122-155 | One loop turn. A failed test changes nothing. Otherwise the request is entered, the handler run, and the prefix popped after a normal return, as `Attempt` states. |
| Dispatcher.DispatchFirstQualifying | src/BaseDispatcher.php:120-160 | Dispatch answers `false`, or there is a route j that decides it: every route before j fell through, and trying route j yields the dispatch's outcome and final request. |
| Dispatcher.DecidingRoute | src/BaseDispatcher.php:151-155 | A dispatch that does not answer `false` has a deciding route; the lemma returns it as a witness. |
| Dispatcher.DispatchAppend | src/BaseDispatcher.php:120-157 | Dispatching over `a + b` is dispatching over `a` and, only if it fell through, over `b` from the request `a` left. |
| Dispatcher.NoRouteMatches | src/BaseDispatcher.php:158-160 | When no route's test succeeds, dispatch answers `false` and the request is unchanged. |
| Dispatcher.DispatchRestoresStack | src/BaseDispatcher.php:146-149 | A dispatch that ends without an exception leaves the prefix stack as it found it. |
| Dispatcher.AttemptRestoresStack | src/BaseDispatcher.php:128-149 | A route attempt that returns, even with `false`, restores the prefix stack. It leaves the route's extra in the request when that extra is an array. |
| Dispatcher.RaisedLeavesPrefix | src/BaseDispatcher.php:144-149 | An exception from a handler under a prefix leaves that prefix pushed, because there is no `finally`. |
| Dispatcher.HandlerSeesPrefix | src/BaseDispatcher.php:129-131 | The handler's `uri()` is computed with the route's prefix on top of the stack. |
| Dispatcher.ClassHandlerParts | src/BaseDispatcher.php:183-185 | A class handler has a non-empty class name, and the string starts with `class::method`. |
| Dispatcher.ClassHandlerSplit | src/BaseDispatcher.php:185 | `C::m` and `C::m::more` split into class `C` and method `m`; the text after a second `::` is ignored. |
| Dispatcher.ClassHandlerResolution | src/BaseDispatcher.php:183-211 | A `C::m` string becomes method `m` on the object `ControllerFor` names. It is wrapped with hooks exactly when that object is a controller. |
| Dispatcher.ControllerLookupOrder | src/BaseDispatcher.php:189-204 | A leading `\` instantiates the class. Otherwise a registered service is used. Otherwise `<namespace>\controllers\<C>` is instantiated. |
| Dispatcher.PlainStringUnchanged | src/BaseDispatcher.php:249-251 | A string with no `::` after its first character, including one that starts with `::`, is called as it is. |
| Dispatcher.ArrayHandlerWrappedIffController | src/BaseDispatcher.php:211-239 | An array handler is wrapped iff its first element is a controller object, as the wrapped controller and method. Other handlers and closures are returned unchanged. |
| Dispatcher.BeforeShortCircuits | src/BaseDispatcher.php:222-233 | A non-empty `__before` answer is the result, whatever the action and `__after` would do. |
| Dispatcher.DefaultHooksTransparent | src/BaseDispatcher.php:215-235 | With the default `__before` (false), a wrapped action answers what the action answers whenever the action raises or `__after` hands its answer back unchanged, as the default `__after` does with a response. |
| Dispatcher.DefaultHooksRaiseOnFalsyAction | src/BaseController.php:50-52 | The default `__after` accepts only a response. So when it raises on falsy values and the action answers one, the wrapped handler raises rather than answering `false`, and the route does not fall through. |
| Request.BaseRequest.constructor | src/BaseRequest.php:163-201 | The method is upper-cased, unless a truthy `x-http-method-override` header replaces it verbatim. Path and query string are `SplitUri` of the decoded URI. `YOLK_MESSAGES` is decoded into the messages and never stays in the cookies. Geo fields are set only for a truthy address. Prefix stack and extra start empty. |
| Request.RTrimSlashes | src/BaseRequest.php:173 | The result is the input with its run of trailing slashes removed, and does not end in `/`. |
| Request.SplitUriAtFirstMark | src/BaseRequest.php:172-175 | The URI is split at its first `?`; text after a second `?` is dropped. The query gets a leading `?` only when non-empty. |
| Request.SplitUriNoQuery | src/BaseRequest.php:172-175 | A URI without `?` has an empty query string, and its path is the URI without trailing slashes. |
| Request.RootPathIsEmpty | src/BaseRequest.php:173 | A request for `/` is stored with an empty path. |
| Request.Collapse | src/BaseRequest.php:243 | The collapsed text has no two consecutive slashes. |
| Request.CollapseKeeps | src/BaseRequest.php:243 | Text without doubled slashes is not changed by collapsing. |
| Request.CollapseDoubled | src/BaseRequest.php:243 | A doubled slash anywhere collapses as a single one does. With `CollapseKeeps`, every run of slashes becomes exactly one slash and all other text is kept. |
| Request.PushExtendsPrefix | src/BaseRequest.php:243 | The effective prefix of a pushed stack is the collapsed concatenation with the new element. |
| Request.UriOf | src/BaseRequest.php:239-250 | `uri()` is `/` or a suffix of the stored path. |
| Request.UriIsTailOfFullUri | src/BaseRequest.php:256-258 | `fullURI()` is the whole stored path. `uri()` is `/` or a tail of it, and the two agree while no prefix is pushed (the empty path reads as `/`). |
| Request.UriWithoutPrefix | src/BaseRequest.php:245-248 | With an empty stack, the root gives `/` and any other path is itself. |
| Request.UriStripsPrefix | src/BaseRequest.php:245-248 | A path made of the effective prefix plus a non-empty rest gives the rest. |
| Request.UriStripsInsideSegment | src/BaseRequest.php:248 | The prefix is removed literally: `/admin` turns `/administrator` into `istrator`. |
| Request.BaseRequest.PushUriPrefix | src/BaseRequest.php:203-205 | The prefix is appended to the stack; the extra is unchanged. |
| Request.BaseRequest.PopUriPrefix | src/BaseRequest.php:207-209 | An empty stack gives nothing. Otherwise the last element is removed and returned, so a push then a pop restores the stack. |
| Request.BaseRequest.SetUriPrefix | src/BaseRequest.php:214-225 | An array replaces the stack with its values. A truthy scalar gives a one-element stack. A falsy value empties it. |
| Request.BaseRequest.SetExtra | src/BaseRequest.php:329-333 | `extra(array)` replaces the extra and leaves the prefix stack. |
| Request.BaseRequest.AuthUser | src/BaseRequest.php:347-358 | The answer is empty iff none of `PHP_AUTH_USER`, `AUTHENTICATE_USERNAME`, `REMOTE_USER` is non-empty. Otherwise it is the first non-empty one. |
| Request.BaseRequest.AuthPassword | src/BaseRequest.php:360-362 | The `PHP_AUTH_PW` entry of the environment, or `""` when there is none. |
| Request.MethodTestsExclusive | src/BaseRequest.php:386-400 | At most one of `isGet`, `isPost`, `isPut`, `isDelete` holds, and one holds iff the method is GET, POST, PUT or DELETE. |
| Request.HeaderIgnoresSpelling | src/BaseRequest.php:294-298 | `header(name)` and `header(normalise(name))` find the same entry. |
| Request.IsSecureRejectsOff | src/BaseRequest.php:381-384 | A missing, empty, `"0"` or `"off"` HTTPS value is not secure. |
| Request.NoAddressNoGeo | src/BaseRequest.php:364-370 | Without geo data, `country` and `continent` answer the default. |
| Response.RedirectStatuses | src/BaseResponse.php:22-73 | 301 and 302 are in the status table with their standard messages. |
| Response.RedirectCodeOutsideTable | src/BaseResponse.php:145-147 | Every redirect code but 308 is in the table. 308 is not, so no response can have it. |
| Response.BaseResponse.constructor | src/BaseResponse.php:118-131 | 200 `OK`, empty body, charset `UTF-8`, Content-Type `text/html; charset=UTF-8`, no cookies, messages or redirect prefix. |
| Response.BaseResponse.Status | src/BaseResponse.php:149-164 | A zero code returns the current status. An unknown code is refused, changing nothing. A known code stores the given message, or the table's when it is falsy. Only the status changes, and the status stays in the table. |
| Response.NormaliseSegments | src/BaseResponse.php:173 | The `str_replace`/`ucwords`/`str_replace` pipeline equals upper-casing the first letter of each segment, segments being separated by dashes and by the whitespace `ucwords` splits words at. |
| Response.NormaliseHeaderNameCapitalises | src/BaseResponse.php:172-173 | For every name, normalisation keeps the length. It upper-cases exactly the first character and the characters after a dash or whitespace (so `x-y z` becomes `X-Y Z`), and leaves every other character as it is. |
| Response.NormaliseTwoSegments | src/BaseResponse.php:173 | `w1-w2` becomes `W1-W2`, with only the first letter of each word changed. |
| Response.NormalisedContentType | src/BaseResponse.php:173 | `content-type` is stored as `Content-Type`. |
| Response.NormalisedLocation | src/BaseResponse.php:278 | `Location` is already normal, so redirect stores the header under that name. |
| Response.BaseResponse.SetHeader | src/BaseResponse.php:166-186 | A falsy name changes nothing. Otherwise the value is stored under the normalised name, and a Content-Type gets the charset as `WithCharset` says. A later `header(name)` reads it back. |
| Response.CharsetAppended | src/BaseResponse.php:179-180 | A Content-Type where `charset` does not occur after the first character gets `; charset=<charset>` appended. This includes a value that starts with `charset`, because `strpos` then answers 0. |
| Response.ExplicitCharsetKept | src/BaseResponse.php:179-180 | A Content-Type naming `charset=` after a non-empty media type, and not starting with `charset`, is stored as given. |
| Response.BaseResponse.SetCharset | src/BaseResponse.php:137-143 | The charset is stored upper-cased, and an existing Content-Type has its `charset=` token rewritten. Nothing else changes. |
| Response.ReplaceCharsetParameter | src/BaseResponse.php:140 | A trailing `charset=<token>` is replaced by `charset=<new>`; the text before it is kept. |
| Response.SetCharsetOnDefault | src/BaseResponse.php:137-143 | On a new response, changing the charset gives `text/html; charset=<NEW>`. |
| Response.BaseResponse.SetBody | src/BaseResponse.php:188-197 | The body is replaced and read back; nothing else changes. |
| Response.BaseResponse.SetCookie | src/BaseResponse.php:199-218 | A falsy name changes nothing. Otherwise the cookie is stored with expiry `now + expires`, or 0 for a zero `expires`. It is read back, and nothing else changes. |
| Response.BaseResponse.AddMessage | src/BaseResponse.php:220-227 | Exactly one `{type, title, text}` message is appended; earlier messages and the rest are unchanged. |
| Response.BaseResponse.SetRedirectPrefix | src/BaseResponse.php:262-265 | Only the redirect prefix changes. |
| Response.RedirectTarget | src/BaseResponse.php:269-275 | The target is the URL or the prefix plus the URL. Without a redirect prefix it is the URL. Left to the response, the prefix is added iff the URL is neither `http(s)://` nor already prefixed. An explicit `prefix` argument decides on its own. |
| Response.RedirectTargetIdempotent | src/BaseResponse.php:269-275 | Left to the response, prefixing an already-redirected URL again changes nothing. |
| Response.BaseResponse.Redirect | src/BaseResponse.php:267-282 | 301 when permanent, otherwise 302, with the table's message. Location is set to the redirect target. Afterwards `isRedirect()` holds, and nothing else changes. |
| Config.BaseConfig.constructor | src/BaseConfig.php:42-44 | A new configuration is empty. |
| Config.Parts | src/BaseConfig.php:81 | A key always has at least one part. |
| Config.BaseConfig.Get | src/BaseConfig.php:79-93 | The cursor loop returns `GetValue`: the value at the end of the dotted path, or the default as soon as a part is missing or null. |
| Config.WalkNeverNull | src/BaseConfig.php:84-91 | A walk from a non-null value never yields null. |
| Config.HasIffSet | src/BaseConfig.php:69-71 | `has(key)` holds iff the path is set, and then `get` ignores its default. |
| Config.BaseConfig.Set | src/BaseConfig.php:101-124 | It succeeds iff no intermediate part holds a scalar, and then stores `SetPath`. On failure nothing changes. After a successful set of a non-null value, `get` returns it, and every path that diverges from the key is unchanged. |
| Config.SetPathOnEmpty | src/BaseConfig.php:107-111 | Setting inside an empty array always succeeds. |
| Config.SetThenGet | src/BaseConfig.php:101-124 | After a successful set of a non-null value, walking the same path finds it. |
| Config.SetLeavesOtherPaths | src/BaseConfig.php:101-124 | A successful set leaves every path that parts ways with the key unchanged. |
| Config.ToArrayAnswersHas | src/BaseConfig.php:136-138 | The array `toArray` hands out holds exactly what `has` and `get` read: a key is set in it iff `has` holds, and `get` answers the value found there. |
| Config.BaseConfig.Merge | src/BaseConfig.php:126-134 | The loop yields `MergeAll`: each entry is set in order, and it stops at the first failing set. |
| Config.LastMergedEntryWins | src/BaseConfig.php:126-134 | The last merged entry for a key determines its value. |
| Config.MergeReplacesSubtree | src/BaseConfig.php:126-134 | A top-level entry replaces the whole subtree under its key, with no deep merge. |
| Config.MergeStopsAtFailure | src/BaseConfig.php:128-130 | Once a set has failed, later entries are not applied. |
| RequestHelper.GetHeaders | src/RequestHelper.php:24-48 | The loop yields `HeadersOf`: each server entry assigned under its header name, in order. |
| RequestHelper.HeaderComesFromLastKey | src/RequestHelper.php:35-44 | A header is present iff some server key names it. It then holds the value of the last such key, unchanged. |
| RequestHelper.NormaliseIsCanonical | src/RequestHelper.php:107-109 | A normalised name has no space, underscore or capital. Normalising is idempotent. |
| RequestHelper.GetEnvironment | src/RequestHelper.php:56-68 | The loop yields `EnvironmentOf`: the environment keys kept in order. |
| RequestHelper.EnvironmentKeepsExactly | src/RequestHelper.php:58-66 | Over a PHP array, a key is kept iff it is not `HTTP_*`, `CONTENT_TYPE`, `CONTENT_LENGTH` or `REQUEST_METHOD`, with its value unchanged. |
| RequestHelper.HeadersAndEnvironmentPartition | src/RequestHelper.php:24-68 | `REQUEST_METHOD` and `HTTP_COOKIE` reach neither output. Every other key reaches exactly one of them. |
| RequestHelper.GetDataReadsOnlyItsSource | src/RequestHelper.php:78-90 | Each method's data comes from its own source only. POST gets the POST array unchanged, and no other method depends on it. Only PUT depends on the request body. Any other method gets an empty array. |
| RequestHelper.GetFiles | src/RequestHelper.php:98-105 | The loop yields `FilesOf`: the uploads with a falsy `error`, in order. |
| RequestHelper.FilesKeepsExactly | src/RequestHelper.php:100-103 | Over a PHP array, an upload is kept under its own key iff its `error` field is falsy. |
| Services.ShortcutName | src/ServiceContainer.php:75 | `(.*)$` captures a one-line name: the rest of the id, or the rest less a final line feed. |
| Services.MatchShortcutComplete | src/ServiceContainer.php:74-82 | Every `<kind>.<name>` id with a one-line name matches as `(kind, name)`. |
| Services.ShortcutFrom | src/ServiceContainer.php:74-82 | A shortcut's kind is one of the kinds, and the id is `<kind>.<name>`, possibly followed by one line feed. |
| Services.GetConfigReadsOnlyConfigEntry | src/ServiceContainer.php:84-96 | `getConfig` answers the `config` entry exactly when it is a configuration object. Storing any other id leaves its answer unchanged. |
| Services.ServiceContainer.OffsetExists | src/ServiceContainer.php:47-72 | A registered id exists. An unregistered one exists only as a shortcut of a known kind whose section key the configuration object holds. `ResolvedIdExisted`, `ViewExistsButCannotBeBuilt` and `NoConfigNoShortcuts` characterise it further. |
| Services.NoConfigNoShortcuts | src/ServiceContainer.php:36-53 | Without a configuration object, an unregistered id does not exist and is an unknown identifier. |
| Services.ViewExistsButCannotBeBuilt | src/ServiceContainer.php:53-66 | A `view.` id exists iff `views.<name>` is set, yet looking it up fails, since there is no `view` factory. |
| Services.MissingConfigRefused | src/ServiceContainer.php:98-133 | `cache`, `db` and `log` refuse an id whose configuration value is falsy, storing nothing. |
| Services.ServiceContainer.OffsetGet | src/ServiceContainer.php:33-44 | Looking up an id answers and updates the entries as `Resolve` does. |
| Services.ResolveOnlyStoresId | src/ServiceContainer.php:36-42 | A lookup changes at most the entry for its own id, and only to the answer it gives. |
| Services.ResolveMemoises | src/ServiceContainer.php:36-42 | After a successful lookup, looking the id up again gives the same answer and changes nothing, whatever the factories would build. |
| Services.ResolvedIdExisted | src/ServiceContainer.php:33-72 | Only an id for which `offsetExists` holds can be looked up. |

## Left out

- Regular expressions are not interpreted. Route patterns and the router's `test` are match oracles. Patterns are assumed to contain no `;`, the delimiter the matcher wraps them in.
- `BaseRouter::reverse` is not modelled. It reads a `url` field that `addRoute` never stores.
- The code raises `exceptions\NotAllowedException`, a class that does not exist; the shipped class is `MethodNotAllowedException`. It is modelled as the method-not-allowed error (status 405).
- Router.BaseRouter.AddRoute: parses the method prefix by the bracketed grammar (`Router.ParseMethodPrefix`), not by the uncompilable regex at src/BaseRouter.php:75. As written, every pattern is stored whole with no method list; `Router.ParseMethodPrefixAsWritten` models that (see Findings).
- `match` stops at the first pattern hit even when its method check fails. It collects no allowed methods, so method-not-allowed always carries an empty list.
- Dispatcher: handlers, controllers, hooks and middleware units are functions of a read-only view of the request (`uri()`, method, extra). Any other change they make to the request is not modelled.
- Dispatcher: the value a forwarding unit makes of the next step is a `finish` oracle.
- Dispatcher: a middleware unit either answers or calls the next step once, with the request it received. In PHP a unit gets the dispatcher itself as `$next`. It may call it several times, each call shifting another unit off the queue, or pass it a different request. Those traversals are not modelled, and `Dispatcher.RespondingUnitStops` and `Dispatcher.ForwardingReachesDispatch` rest on this restriction.
- Dispatcher: reflection in the constructor (the namespace) is not modelled; the namespace is a parameter.
- Dispatcher: `init` is an oracle that yields the services and routes. `BaseModule`, which sets the services at construction so `init` never runs, is a choice of that parameter.
- Dispatcher: `new $class(...)` of a class that does not exist, and calls to a method that is not callable, are not modelled.
- Dispatcher: the prefix pop is not in a `finally`, and the model keeps it that way. An exception leaves the pushed prefix in place.
- Request: `urldecode`, the messages cookie's `unserialize(base64_decode(...))`, `getIP` (`filter_var`) and the geo-IP extension calls are parameters of the constructor. `createFromArgs` and `createFromGlobals` read superglobals and are not modelled.
- Request: `option`, `data`, `cookie`, `file`, `environment`, `messages`, `ip` and `queryString` are plain field reads, or `Yolk::get` over them. `Yolk` and its XSS filter are not part of this model.
- Request: `isBot` and `isAjax` are not modelled.
- Request: the method constants of the request contract are taken to be `GET`, `POST`, `PUT` and `DELETE`.
- Request: PHP's loose `==` between the path and the prefix in `uri()` is modelled as string equality.
- Request: headers, cookies and environment values are strings; other PHP values there are not modelled.
- RequestHelper.GetDataReadsOnlyItsSource: reading `php://input` for PUT is outside the model; the parsed body is a parameter.
- RequestHelper: an upload entry that is not an array is treated as having no error, so it is kept. PHP's string-offset reading of `$f['error']` is not modelled.
- Response: `send` (the `header`, `setcookie` and `echo` output) and `getCharset` are not modelled. `time()` in `cookie` is the `now` parameter.
- Response: the status table is modelled as its 41 codes and messages. `status` with an unknown code is a refused answer instead of an exception.
- Response: the replacement text of `setCharset` is used literally. A charset containing `$1` or `\1`, which `preg_replace` would read as a back-reference, is not modelled.
- Response: a redirect prefix of PHP `null` is the empty string, which is equally falsy.
- Config: `load` (`require` of a file) and the `ini_set` side effect of `php.*` keys are not modelled.
- Config: an intermediate part holding a scalar makes `set` fail and change nothing, standing for PHP's error. PHP's string-offset behaviour for string intermediates is not modelled; `false` is turned into an array, as PHP does.
- ServiceContainer: the Pimple base container is a map from id to entry. Protected closures, raw values and factories are not distinguished.
- ServiceContainer: the cache, database and log managers, DSN parsing and the profiler are a `make` oracle that yields a service handle or fails.
- ServiceContainer: the container holds the configuration object by reference.
- `BaseApplication`, `BaseModule`, `BaseController` (except its default hooks) and the exception classes are not part of this model.

## Findings

| source | as written | input that shows it | evidently intended | confidence | as-written member | corrected member |
|---|---|---|---|---|---|---|
| src/BaseRouter.php:75-77 | The method-prefix regex `/^\([a-Z\|]+\):(.*)/i` has the out-of-order range `a-Z`, which PCRE refuses to compile. `preg_match` then fails, so every pattern is registered unchanged with no method list. With one capture group, `$m[1]`/`$m[2]` would also read the wrong groups. | `addRoute('(GET\|POST):/x', h)` registers `(GET\|POST):/x` with no method restriction | register `/x` for GET and POST, as the doc-comment at lines 48-54 describes. That comment contradicts itself: it asks for brackets, but its single-method example `GET:/about` (line 51) has none. The bracketed reading is chosen, because the code's own regex also requires the brackets. | not executed | Router.AsWrittenIgnoresMethodPrefix | Router.MethodPrefixRoundTrip |
