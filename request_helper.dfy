/**
 * RequestHelper: splits a `$_SERVER`-like array into HTTP headers and
 * environment settings, picks the request data for a method, and drops failed
 * file uploads. All inputs are PHP arrays, modelled as ordered key/value
 * sequences.
 */
module RequestHelper {
  import opened Php

  /** The method names of the request contract the framework implements
      (`Request::METHOD_GET`, ...). */
  const MethodGet: string := "GET"
  const MethodPost: string := "POST"
  const MethodPut: string := "PUT"
  const MethodDelete: string := "DELETE"

  // ---------------------------------------------------------------------------
  // Header-name normalisation: strtolower(preg_replace('/[ _]+/', '-', $name))
  // ---------------------------------------------------------------------------

  predicate IsSeparator(c: char) { c == ' ' || c == '_' }

  /** Replaces every run of spaces and underscores by one dash; `inRun` says
      whether the text before `s` ended inside such a run. */
  function Dashes(s: string, inRun: bool): string
    decreases |s|
  {
    if |s| == 0 then ""
    else if IsSeparator(s[0]) then (if inRun then "" else "-") + Dashes(s[1..], true)
    else [s[0]] + Dashes(s[1..], false)
  }

  function Normalise(name: string): string {
    Lower(Dashes(name, false))
  }

  lemma {:induction false} DashesNoSeparators(s: string, inRun: bool)
    ensures forall i :: 0 <= i < |Dashes(s, inRun)| ==> !IsSeparator(Dashes(s, inRun)[i])
    decreases |s|
  {
    if |s| > 0 {
      DashesNoSeparators(s[1..], IsSeparator(s[0]));
    }
  }

  lemma {:induction false} DashesIdentity(s: string, inRun: bool)
    requires forall i :: 0 <= i < |s| ==> !IsSeparator(s[i])
    ensures Dashes(s, inRun) == s
    decreases |s|
  {
    if |s| > 0 {
      DashesIdentity(s[1..], false);
      assert s == [s[0]] + s[1..];
    }
  }

  /** A normalised name has no spaces, underscores or capitals, and
      normalising it again changes nothing. */
  lemma NormaliseIsCanonical(name: string)
    ensures forall i :: 0 <= i < |Normalise(name)| ==>
      !IsSeparator(Normalise(name)[i]) && !IsUpper(Normalise(name)[i])
    ensures Normalise(Normalise(name)) == Normalise(name)
  {
    var d := Dashes(name, false);
    var n := Normalise(name);
    DashesNoSeparators(name, false);
    assert forall i :: 0 <= i < |n| ==> n[i] == LowerChar(d[i]);
    DashesIdentity(n, false);
    assert Lower(n) == n;
  }

  // ---------------------------------------------------------------------------
  // Headers and environment
  // ---------------------------------------------------------------------------

  /** The header a server key becomes, if any: `HTTP_*` keys without the
      prefix, and the two CGI variables that were headers. Cookies are
      handled elsewhere. */
  function HeaderName(k: string): Option<string> {
    if k == "HTTP_COOKIE" then None
    else if StartsWith(k, "HTTP_") then Some(Normalise(k[5..]))
    else if k == "CONTENT_TYPE" || k == "CONTENT_LENGTH" then Some(Normalise(k))
    else None
  }

  /** The server keys kept as environment settings. */
  predicate IsEnvironmentKey(k: string) {
    !StartsWith(k, "HTTP_") && k != "CONTENT_TYPE" && k != "CONTENT_LENGTH" && k != "REQUEST_METHOD"
  }

  /** The array built by assigning each entry of `a`, in order, under the key
      `rename` gives it, skipping entries it gives none. */
  function Renamed<V>(a: PArray<V>, rename: string -> Option<string>): PArray<V>
    decreases |a|
  {
    if |a| == 0 then []
    else
      var acc := Renamed(a[..|a| - 1], rename);
      var (k, v) := a[|a| - 1];
      match rename(k)
      case None => acc
      case Some(name) => Put(acc, name, v)
  }

  /** `j` is the last entry of `a` that `rename` sends to `name`. */
  predicate LastNamer<V>(a: PArray<V>, rename: string -> Option<string>, name: string, j: int) {
    0 <= j < |a| && rename(a[j].0) == Some(name)
    && forall j' :: j < j' < |a| ==> rename(a[j'].0) != Some(name)
  }

  /** No entry of `a` is sent to `name`. */
  predicate NoNamer<V>(a: PArray<V>, rename: string -> Option<string>, name: string) {
    forall j :: 0 <= j < |a| ==> rename(a[j].0) != Some(name)
  }

  /** The last entry, when renamed to `name`, decides `name`. */
  lemma RenamedLastHit<V>(a: PArray<V>, rename: string -> Option<string>, name: string)
    requires |a| > 0 && rename(a[|a| - 1].0) == Some(name)
    ensures Lookup(Renamed(a, rename), name) == Some(a[|a| - 1].1)
  {
    var acc := Renamed(a[..|a| - 1], rename);
    assert Renamed(a, rename) == Put(acc, name, a[|a| - 1].1);
  }

  /** The last entry, when not renamed to `name`, leaves `name` as it was. */
  lemma RenamedLastMiss<V>(a: PArray<V>, rename: string -> Option<string>, name: string)
    requires |a| > 0 && rename(a[|a| - 1].0) != Some(name)
    ensures Lookup(Renamed(a, rename), name) == Lookup(Renamed(a[..|a| - 1], rename), name)
  {
    var acc := Renamed(a[..|a| - 1], rename);
    match rename(a[|a| - 1].0)
    case None => assert Renamed(a, rename) == acc;
    case Some(other) => assert Renamed(a, rename) == Put(acc, other, a[|a| - 1].1);
  }

  /** A key is missing from the result exactly when no entry is renamed to it. */
  lemma {:induction false} RenamedMissing<V>(a: PArray<V>, rename: string -> Option<string>, name: string)
    ensures Lookup(Renamed(a, rename), name).None? <==> NoNamer(a, rename, name)
    decreases |a|
  {
    if |a| > 0 {
      var n := |a| - 1;
      var init := a[..n];
      RenamedMissing(init, rename, name);
      if rename(a[n].0) == Some(name) {
        RenamedLastHit(a, rename, name);
        assert !NoNamer(a, rename, name);
      } else {
        RenamedLastMiss(a, rename, name);
        assert forall j :: 0 <= j < n ==> init[j] == a[j];
        assert NoNamer(a, rename, name) <==> NoNamer(init, rename, name);
      }
    }
  }

  /** A key present in the result holds the value of the last entry renamed
      to it. */
  lemma RenamedFromLastEntry<V>(a: PArray<V>, rename: string -> Option<string>, name: string)
    requires Lookup(Renamed(a, rename), name).Some?
    ensures exists j :: LastNamer(a, rename, name, j) && Lookup(Renamed(a, rename), name).value == a[j].1
  {
    var j := LastRenamedEntry(a, rename, name);
  }

  /** The last entry renamed to a key present in the result. */
  lemma {:induction false} LastRenamedEntry<V>(a: PArray<V>, rename: string -> Option<string>, name: string) returns (j: nat)
    requires Lookup(Renamed(a, rename), name).Some?
    ensures LastNamer(a, rename, name, j) && Lookup(Renamed(a, rename), name).value == a[j].1
    decreases |a|
  {
    var n := |a| - 1;
    if rename(a[n].0) == Some(name) {
      RenamedLastHit(a, rename, name);
      j := n;
    } else {
      RenamedLastMiss(a, rename, name);
      j := LastRenamedEntry(a[..n], rename, name);
      LastNamerExtends(a, rename, name, j);
    }
  }

  /** The last entry renamed to `name` stays the last when an entry renamed
      to something else follows. */
  lemma LastNamerExtends<V>(a: PArray<V>, rename: string -> Option<string>, name: string, j: nat)
    requires |a| > 0 && rename(a[|a| - 1].0) != Some(name)
    requires LastNamer(a[..|a| - 1], rename, name, j)
    ensures LastNamer(a, rename, name, j) && a[..|a| - 1][j].1 == a[j].1
  {
    var init := a[..|a| - 1];
    assert init[j] == a[j];
    forall j' | j < j' < |a|
      ensures rename(a[j'].0) != Some(name)
    {
      if j' < |a| - 1 { assert init[j'] == a[j']; }
    }
  }

  /** The headers collected from a server array, in iteration order. */
  function HeadersOf<V>(server: PArray<V>): PArray<V> {
    Renamed(server, HeaderName)
  }

  /** A header is present exactly when some server key names it, and it holds
      the value of the last such key. */
  lemma HeaderComesFromLastKey<V>(server: PArray<V>, name: string)
    ensures Lookup(HeadersOf(server), name).None? <==>
      forall j :: 0 <= j < |server| ==> HeaderName(server[j].0) != Some(name)
    ensures Lookup(HeadersOf(server), name).Some? ==>
      exists j :: 0 <= j < |server| && HeaderName(server[j].0) == Some(name)
        && Lookup(HeadersOf(server), name).value == server[j].1
        && forall j' :: j < j' < |server| ==> HeaderName(server[j'].0) != Some(name)
  {
    RenamedMissing(server, HeaderName, name);
    if Lookup(HeadersOf(server), name).Some? {
      RenamedFromLastEntry(server, HeaderName, name);
    }
  }

  /** Entries of `a` kept by `keep`, assigned in order into a new array:
      the shape of a `foreach` that copies the entries it keeps. */
  function KeepWhere<V>(a: PArray<V>, keep: (string, V) -> bool): PArray<V>
    decreases |a|
  {
    if |a| == 0 then []
    else
      var acc := KeepWhere(a[..|a| - 1], keep);
      var (k, v) := a[|a| - 1];
      if keep(k, v) then Put(acc, k, v) else acc
  }

  lemma {:induction false} LookupAppend<V>(a: PArray<V>, k: string, v: V, q: string)
    ensures Lookup(a + [(k, v)], q) == if q in Keys(a) then Lookup(a, q) else if q == k then Some(v) else None
    decreases |a|
  {
    if |a| > 0 {
      assert (a + [(k, v)])[1..] == a[1..] + [(k, v)];
      LookupAppend(a[1..], k, v, q);
    } else {
      assert a + [(k, v)] == [(k, v)];
    }
  }

  /** Dropping the last entry of a PHP array leaves a PHP array without its key. */
  lemma UniqueInit<V>(a: PArray<V>)
    requires |a| > 0 && UniqueKeys(a)
    ensures UniqueKeys(a[..|a| - 1]) && a[|a| - 1].0 !in Keys(a[..|a| - 1])
  {
    var init := a[..|a| - 1];
    assert forall i :: 0 <= i < |init| ==> Keys(init)[i] == a[i].0 != a[|a| - 1].0;
  }

  /** The copy after a kept last entry. */
  lemma KeepWhereLast<V>(a: PArray<V>, keep: (string, V) -> bool, q: string)
    requires |a| > 0
    ensures Lookup(KeepWhere(a, keep), q) ==
      if keep(a[|a| - 1].0, a[|a| - 1].1) && q == a[|a| - 1].0 then Some(a[|a| - 1].1)
      else Lookup(KeepWhere(a[..|a| - 1], keep), q)
  {
    var acc := KeepWhere(a[..|a| - 1], keep);
    if keep(a[|a| - 1].0, a[|a| - 1].1) {
      assert KeepWhere(a, keep) == Put(acc, a[|a| - 1].0, a[|a| - 1].1);
    } else {
      assert KeepWhere(a, keep) == acc;
    }
  }

  /** Over a PHP array (distinct keys), the copy holds exactly the kept
      entries, with their values unchanged. */
  lemma {:induction false} KeepWhereLookup<V>(a: PArray<V>, keep: (string, V) -> bool, q: string)
    requires UniqueKeys(a)
    ensures Lookup(KeepWhere(a, keep), q) ==
      match Lookup(a, q)
      case Some(v) => if keep(q, v) then Some(v) else None
      case None => None
    decreases |a|
  {
    if |a| > 0 {
      var n := |a| - 1;
      var init := a[..n];
      assert a == init + [a[n]];
      UniqueInit(a);
      KeepWhereLookup(init, keep, q);
      LookupAppend(init, a[n].0, a[n].1, q);
      KeepWhereLast(a, keep, q);
    }
  }

  function EnvironmentOf<V>(server: PArray<V>): PArray<V> {
    KeepWhere(server, (k: string, v: V) => IsEnvironmentKey(k))
  }

  /** The environment keeps exactly the environment keys, values unchanged. */
  lemma EnvironmentKeepsExactly<V>(server: PArray<V>, k: string)
    requires UniqueKeys(server)
    ensures Lookup(EnvironmentOf(server), k) == if IsEnvironmentKey(k) then Lookup(server, k) else None
  {
    KeepWhereLookup(server, (k: string, v: V) => IsEnvironmentKey(k), k);
  }

  /** REQUEST_METHOD and HTTP_COOKIE reach neither output; every other server
      key reaches exactly one of them. */
  lemma HeadersAndEnvironmentPartition(k: string)
    ensures k == "REQUEST_METHOD" || k == "HTTP_COOKIE" ==> HeaderName(k).None? && !IsEnvironmentKey(k)
    ensures k != "REQUEST_METHOD" && k != "HTTP_COOKIE" ==> (HeaderName(k).Some? <==> !IsEnvironmentKey(k))
  {
    if k == "HTTP_COOKIE" {
      assert k[..5] == "HTTP_";
    } else if k == "REQUEST_METHOD" {
      assert k[0] != 'H';
    }
  }

  /** RequestHelper::getHeaders. */
  method GetHeaders<V>(server: PArray<V>) returns (headers: PArray<V>)
    ensures headers == HeadersOf(server)
  {
    headers := [];
    var i := 0;
    while i < |server|
      invariant 0 <= i <= |server|
      invariant headers == HeadersOf(server[..i])
    {
      var (k, v) := server[i];
      assert server[..i + 1][..i] == server[..i];
      if k != "HTTP_COOKIE" {
        if StartsWith(k, "HTTP_") {
          headers := Put(headers, Normalise(k[5..]), v);
        } else if k == "CONTENT_TYPE" || k == "CONTENT_LENGTH" {
          headers := Put(headers, Normalise(k), v);
        }
      }
      i := i + 1;
    }
    assert server[..i] == server;
  }

  /** RequestHelper::getEnvironment. */
  method GetEnvironment<V>(server: PArray<V>) returns (environment: PArray<V>)
    ensures environment == EnvironmentOf(server)
  {
    environment := [];
    var i := 0;
    while i < |server|
      invariant 0 <= i <= |server|
      invariant environment == EnvironmentOf(server[..i])
    {
      var (k, v) := server[i];
      assert server[..i + 1][..i] == server[..i];
      if !StartsWith(k, "HTTP_") && k != "CONTENT_TYPE" && k != "CONTENT_LENGTH" && k != "REQUEST_METHOD" {
        environment := Put(environment, k, v);
      }
      i := i + 1;
    }
    assert server[..i] == server;
  }

  // ---------------------------------------------------------------------------
  // Request data and uploads
  // ---------------------------------------------------------------------------

  /** RequestHelper::getData: the parsed request body for PUT (reading
      `php://input` is outside the model, so its parsed form is a parameter),
      the POST array for POST, and an empty array otherwise. */
  function GetData(verb: string, post: PArray<Value>, putBody: PArray<Value>): PArray<Value> {
    if verb == MethodPut then putBody
    else if verb == MethodPost then post
    else []
  }

  /** The data of a request comes from its own method's source only: the POST
      array reaches a POST request unchanged and no other, the request body
      reaches only a PUT request, and every other method gets no data. */
  lemma GetDataReadsOnlyItsSource(verb: string, post: PArray<Value>, putBody: PArray<Value>)
    ensures verb == MethodPost ==> GetData(verb, post, putBody) == post
    ensures verb != MethodPost ==> forall post' :: GetData(verb, post', putBody) == GetData(verb, post, putBody)
    ensures verb != MethodPut ==> forall body' :: GetData(verb, post, body') == GetData(verb, post, putBody)
    ensures verb != MethodPost && verb != MethodPut ==> GetData(verb, post, putBody) == []
  {
  }

  /** The upload's `error` field (null when it has none). */
  function UploadError(f: Value): Value {
    if f.Arr? then Get(f.items, "error", Null) else Null
  }

  predicate UploadSucceeded(k: string, f: Value) {
    !Truthy(UploadError(f))
  }

  function FilesOf(files: PArray<Value>): PArray<Value> {
    KeepWhere(files, UploadSucceeded)
  }

  /** RequestHelper::getFiles. */
  method GetFiles(files: PArray<Value>) returns (cleaned: PArray<Value>)
    ensures cleaned == FilesOf(files)
  {
    cleaned := [];
    var i := 0;
    while i < |files|
      invariant 0 <= i <= |files|
      invariant cleaned == FilesOf(files[..i])
    {
      var (k, f) := files[i];
      assert files[..i + 1][..i] == files[..i];
      if !Truthy(UploadError(f)) {
        cleaned := Put(cleaned, k, f);
      }
      i := i + 1;
    }
    assert files[..i] == files;
  }

  /** getFiles keeps exactly the uploads whose error field is falsy, under
      their own keys. */
  lemma FilesKeepsExactly(files: PArray<Value>, k: string)
    requires UniqueKeys(files)
    ensures Lookup(FilesOf(files), k) ==
      match Lookup(files, k)
      case Some(f) => if Truthy(UploadError(f)) then None else Some(f)
      case None => None
  {
    KeepWhereLookup(files, UploadSucceeded, k);
  }
}
