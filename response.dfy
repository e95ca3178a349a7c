/**
 * BaseResponse: the status line, headers, cookies, body and flash messages an
 * action builds up before the response is sent. Sending it (the `header`,
 * `setcookie` and `echo` calls) is outside the model, and so is the clock:
 * setting a cookie receives the current time as a parameter.
 */
module Response {
  import opened Php

  // ---------------------------------------------------------------------------
  // Status codes
  // ---------------------------------------------------------------------------

  /** The status codes a response accepts, with their default messages. */
  const Statuses: map<int, string> := map[
    100 := "Continue", 101 := "Switching Protocols",
    200 := "OK", 201 := "Created", 202 := "Accepted", 203 := "Non-Authoritative Information",
    204 := "No Content", 205 := "Reset Content", 206 := "Partial Content",
    300 := "Multiple Choices", 301 := "Moved Permanently", 302 := "Found", 303 := "See Other",
    304 := "Not Modified", 305 := "Use Proxy", 307 := "Temporary Redirect",
    400 := "Bad Request", 401 := "Unauthorized", 402 := "Payment Required", 403 := "Forbidden",
    404 := "Not Found", 405 := "Method Not Allowed", 406 := "Not Acceptable",
    407 := "Proxy Authentication Required", 408 := "Request Timeout", 409 := "Conflict",
    410 := "Gone", 411 := "Length Required", 412 := "Precondition Failed",
    413 := "Request Entity Too Large", 414 := "Request-URI Too Long",
    415 := "Unsupported Media Type", 416 := "Requested Range Not Satisfiable",
    417 := "Expectation Failed",
    500 := "Internal Server Error", 501 := "Not Implemented", 502 := "Bad Gateway",
    503 := "Service Unavailable", 504 := "Gateway Timeout", 505 := "HTTP Version Not Supported",
    509 := "Bandwidth Limit Exceeded"
  ]

  /** The codes `isRedirect` recognises. */
  const RedirectCodes: set<int> := {301, 302, 303, 307, 308}

  datatype StatusLine = StatusLine(code: int, message: string)

  /** What `status($code, $message)` gives back: the current status line for
      a falsy code, an exception for a code missing from the table, and
      otherwise the response itself, updated. */
  datatype StatusAnswer = Current(line: StatusLine) | Updated | InvalidCode(code: int)

  /** The table's messages for the two redirect codes. */
  lemma RedirectStatuses()
    ensures 301 in Statuses && Statuses[301] == "Moved Permanently"
    ensures 302 in Statuses && Statuses[302] == "Found"
  {
  }

  /** 308 is recognised as a redirect, but no response can be given that code. */
  lemma RedirectCodeOutsideTable()
    ensures 308 in RedirectCodes && 308 !in Statuses
    ensures RedirectCodes - {308} <= Statuses.Keys
  {
  }

  // ---------------------------------------------------------------------------
  // Header names:
  //   str_replace('- ', '-', ucwords(str_replace('-', '- ', $name)))
  // ---------------------------------------------------------------------------

  /** The word delimiters of `ucwords`. */
  predicate IsWordDelimiter(c: char) {
    c == ' ' || c == '\t' || c == '\r' || c == '\n' || c == '\U{0C}' || c == '\U{0B}'
  }

  /** Inserts a space after every dash. */
  function DashSpace(s: string): string {
    if |s| == 0 then "" else (if s[0] == '-' then "- " else [s[0]]) + DashSpace(s[1..])
  }

  /** `ucwords`: upper-cases the first character and every character that
      follows a delimiter; `atWord` says whether `s` starts a word. */
  function Ucwords(s: string, atWord: bool): string {
    if |s| == 0 then ""
    else [if atWord then UpperChar(s[0]) else s[0]] + Ucwords(s[1..], IsWordDelimiter(s[0]))
  }

  /** `str_replace('- ', '-', $s)`, left to right. */
  function DropDashSpace(s: string): string {
    if |s| == 0 then ""
    else if |s| >= 2 && s[0] == '-' && s[1] == ' ' then "-" + DropDashSpace(s[2..])
    else [s[0]] + DropDashSpace(s[1..])
  }

  function NormaliseHeaderName(name: string): string {
    DropDashSpace(Ucwords(DashSpace(name), true))
  }

  /** Ends a segment: a dash, or one of the delimiters of `ucwords`. */
  predicate IsSegmentBreak(c: char) {
    c == '-' || IsWordDelimiter(c)
  }

  /** Upper-cases the first character of each segment, segments being
      separated by dashes and whitespace, and leaves every other character
      as it is; `atStart` says whether `s` starts a segment. */
  function CapitaliseSegments(s: string, atStart: bool): string {
    if |s| == 0 then ""
    else [if atStart then UpperChar(s[0]) else s[0]] + CapitaliseSegments(s[1..], IsSegmentBreak(s[0]))
  }

  lemma {:induction false} CapitaliseSegmentsAt(s: string, atStart: bool)
    ensures |CapitaliseSegments(s, atStart)| == |s|
    ensures forall i :: 0 <= i < |s| ==>
      CapitaliseSegments(s, atStart)[i] == (if (i == 0 && atStart) || (i > 0 && IsSegmentBreak(s[i - 1])) then UpperChar(s[i]) else s[i])
    decreases |s|
  {
    if |s| > 0 {
      CapitaliseSegmentsAt(s[1..], IsSegmentBreak(s[0]));
      var r := CapitaliseSegments(s, atStart);
      assert forall i :: 1 <= i < |s| ==> r[i] == CapitaliseSegments(s[1..], IsSegmentBreak(s[0]))[i - 1];
    }
  }

  lemma {:induction false} NormaliseSegments(s: string, atStart: bool)
    ensures DropDashSpace(Ucwords(DashSpace(s), atStart)) == CapitaliseSegments(s, atStart)
    decreases |s|
  {
    if |s| > 0 {
      var c := s[0];
      var d := DashSpace(s[1..]);
      NormaliseSegments(s[1..], IsSegmentBreak(c));
      if c == '-' {
        assert DashSpace(s) == "- " + d;
        assert ("- " + d)[1..] == " " + d && (" " + d)[1..] == d;
        assert Ucwords("- " + d, atStart) == "- " + Ucwords(d, true);
        var u := Ucwords(d, true);
        assert ("- " + u)[2..] == u;
      } else {
        assert DashSpace(s) == [c] + d;
        assert ([c] + d)[1..] == d;
        var x := if atStart then UpperChar(c) else c;
        var u := Ucwords(d, IsWordDelimiter(c));
        assert Ucwords([c] + d, atStart) == [x] + u;
        assert ([x] + u)[1..] == u;
      }
    }
  }

  /** Normalising a name upper-cases its first character and every character
      that follows a dash or whitespace, and changes nothing else. */
  lemma NormaliseHeaderNameCapitalises(name: string)
    ensures |NormaliseHeaderName(name)| == |name|
    ensures forall i :: 0 <= i < |name| ==>
      NormaliseHeaderName(name)[i] ==
        if i == 0 || IsSegmentBreak(name[i - 1]) then UpperChar(name[i]) else name[i]
  {
    NormaliseSegments(name, true);
    CapitaliseSegmentsAt(name, true);
  }

  /** Segment-wise capitalisation of a word without dashes or whitespace,
      followed by more text. */
  lemma {:induction false} CapitaliseWord(w: string, rest: string, atStart: bool)
    requires |w| > 0
    requires forall i :: 0 <= i < |w| ==> !IsSegmentBreak(w[i])
    ensures CapitaliseSegments(w + rest, atStart) ==
      [if atStart then UpperChar(w[0]) else w[0]] + w[1..] + CapitaliseSegments(rest, false)
    decreases |w|
  {
    var x := if atStart then UpperChar(w[0]) else w[0];
    assert (w + rest)[0] == w[0];
    assert (w + rest)[1..] == w[1..] + rest;
    assert CapitaliseSegments(w + rest, atStart) == [x] + CapitaliseSegments(w[1..] + rest, false);
    if |w| == 1 {
      assert w[1..] + rest == rest;
    } else {
      CapitaliseWord(w[1..], rest, false);
      assert [w[1..][0]] + w[1..][1..] == w[1..];
    }
  }

  /** A two-segment name without whitespace gets both segments capitalised. */
  lemma NormaliseTwoSegments(w1: string, w2: string)
    requires |w1| > 0 && |w2| > 0
    requires forall i :: 0 <= i < |w1| ==> w1[i] != '-' && !IsWordDelimiter(w1[i])
    requires forall i :: 0 <= i < |w2| ==> w2[i] != '-' && !IsWordDelimiter(w2[i])
    ensures NormaliseHeaderName(w1 + "-" + w2) == [UpperChar(w1[0])] + w1[1..] + "-" + [UpperChar(w2[0])] + w2[1..]
  {
    var name := w1 + "-" + w2;
    NormaliseSegments(name, true);
    assert name == w1 + ("-" + w2);
    CapitaliseWord(w1, "-" + w2, true);
    assert ("-" + w2)[1..] == w2;
    assert CapitaliseSegments("-" + w2, false) == "-" + CapitaliseSegments(w2, true);
    assert w2 + "" == w2;
    CapitaliseWord(w2, "", true);
  }

  /** "content-type" is stored as "Content-Type". */
  lemma NormalisedContentType()
    ensures NormaliseHeaderName("content-type") == "Content-Type"
  {
    var name := "content" + "-" + "type";
    NormaliseTwoSegments("content", "type");
    assert UpperChar('c') == 'C' && UpperChar('t') == 'T';
    assert NormaliseHeaderName(name) == "Content-Type";
    assert name == "content-type";
  }

  /** "Location" is already normal. */
  lemma NormalisedLocation()
    ensures NormaliseHeaderName("Location") == "Location"
  {
    NormaliseSegments("Location", true);
    assert "Location" == "Location" + "";
    CapitaliseWord("Location", "", true);
  }

  // ---------------------------------------------------------------------------
  // Charset handling
  // ---------------------------------------------------------------------------

  /** A Content-Type value as stored: `; charset=<charset>` is appended unless
      "charset" occurs after the first character (`!strpos($value, 'charset')`). */
  function WithCharset(value: string, charset: string): string {
    match Find(value, "charset")
    case None => value + "; charset=" + charset
    case Some(i) => if i == 0 then value + "; charset=" + charset else value
  }

  /** A value that names a charset after its first character is stored as given. */
  lemma ExplicitCharsetKept(media: string, cs: string, charset: string)
    requires |media| > 0 && !StartsWith(media + "charset=" + cs, "charset")
    ensures WithCharset(media + "charset=" + cs, charset) == media + "charset=" + cs
  {
    var v := media + "charset=" + cs;
    assert v[|media|..][..7] == "charset";
  }

  /** The characters `[a-z0-9\-]` with the `i` flag. */
  predicate IsTokenChar(c: char) {
    IsLetter(c) || IsDigit(c) || c == '-'
  }

  /** Length of the leading run of token characters. */
  function TokenLength(s: string): (n: nat)
    ensures n <= |s|
    ensures forall i :: 0 <= i < n ==> IsTokenChar(s[i])
    ensures n == |s| || !IsTokenChar(s[n])
  {
    if |s| == 0 || !IsTokenChar(s[0]) then 0 else 1 + TokenLength(s[1..])
  }

  /** `s` starts with "charset=", in any case. */
  predicate StartsWithCharset(s: string) {
    |s| >= 8 && Lower(s[..8]) == "charset="
  }

  /** `preg_replace('/charset=([a-z0-9\-]*)/i', "charset=$cs", $s)`. */
  function ReplaceCharset(s: string, cs: string): string
    decreases |s|
  {
    if |s| == 0 then ""
    else if StartsWithCharset(s) then
      "charset=" + cs + ReplaceCharset(s[8 + TokenLength(s[8..])..], cs)
    else [s[0]] + ReplaceCharset(s[1..], cs)
  }

  /** Text with no "c" in it passes through unchanged. */
  lemma {:induction false} ReplaceCharsetSkips(p: string, rest: string, cs: string)
    requires forall i :: 0 <= i < |p| ==> LowerChar(p[i]) != 'c'
    ensures ReplaceCharset(p + rest, cs) == p + ReplaceCharset(rest, cs)
    decreases |p|
  {
    if |p| > 0 {
      var s := p + rest;
      assert s[0] == p[0] && s[1..] == p[1..] + rest;
      if |s| >= 8 {
        assert Lower(s[..8])[0] == LowerChar(p[0]);
      }
      assert !StartsWithCharset(s);
      assert ReplaceCharset(s, cs) == [s[0]] + ReplaceCharset(s[1..], cs);
      ReplaceCharsetSkips(p[1..], rest, cs);
      assert [p[0]] + p[1..] == p;
      assert p + ReplaceCharset(rest, cs) == [p[0]] + (p[1..] + ReplaceCharset(rest, cs));
    } else {
      assert p + rest == rest;
    }
  }

  /** A `charset=` parameter at the end of a value gets the new charset. */
  lemma {:induction false} ReplaceCharsetParameter(p: string, current: string, cs: string)
    requires forall i :: 0 <= i < |p| ==> LowerChar(p[i]) != 'c'
    requires forall i :: 0 <= i < |current| ==> IsTokenChar(current[i])
    ensures ReplaceCharset(p + "charset=" + current, cs) == p + "charset=" + cs
  {
    var s := "charset=" + current;
    var whole := p + "charset=" + current;
    assert whole == p + s;
    CharsetParameter(current);
    ReplaceWholeParameter(s, cs);
    ReplaceCharsetSkips(p, s, cs);
    assert ReplaceCharset(whole, cs) == p + ("charset=" + cs);
    assert p + ("charset=" + cs) == p + "charset=" + cs;
  }

  /** Lower-casing text without upper-case letters changes nothing. */
  lemma LowerIdentity(s: string)
    requires forall i :: 0 <= i < |s| ==> !IsUpper(s[i])
    ensures Lower(s) == s
  {
  }

  /** "charset=" followed by a token is a `charset=` parameter. */
  lemma CharsetParameter(current: string)
    requires forall i :: 0 <= i < |current| ==> IsTokenChar(current[i])
    ensures StartsWithCharset("charset=" + current)
    ensures forall i :: 8 <= i < |"charset=" + current| ==> IsTokenChar(("charset=" + current)[i])
  {
    var s := "charset=" + current;
    assert s[..8] == "charset=";
    LowerIdentity("charset=");
    forall i | 8 <= i < |s|
      ensures IsTokenChar(s[i])
    {
      assert s[i] == current[i - 8];
    }
  }

  /** A text that is one `charset=` parameter becomes `charset=<cs>`. */
  lemma ReplaceWholeParameter(s: string, cs: string)
    requires StartsWithCharset(s)
    requires forall i :: 8 <= i < |s| ==> IsTokenChar(s[i])
    ensures ReplaceCharset(s, cs) == "charset=" + cs
  {
    var t := s[8..];
    forall i | 0 <= i < |t|
      ensures IsTokenChar(t[i])
    {
      assert t[i] == s[8 + i];
    }
    TokenLengthWhole(t);
    assert s[8 + |t|..] == "";
  }

  /** A text made of token characters is one token. */
  lemma {:induction false} TokenLengthWhole(t: string)
    requires forall i :: 0 <= i < |t| ==> IsTokenChar(t[i])
    ensures TokenLength(t) == |t|
    decreases |t|
  {
    if |t| > 0 {
      assert forall i :: 0 <= i < |t| - 1 ==> t[1..][i] == t[i + 1];
      TokenLengthWhole(t[1..]);
    }
  }

  /** The media type of a new response. */
  const DefaultMediaType: string := "text/html; "

  // ---------------------------------------------------------------------------
  // Redirects
  // ---------------------------------------------------------------------------

  predicate IsAbsoluteHttp(url: string) {
    StartsWith(url, "http://") || StartsWith(url, "https://")
  }

  /**
   * The URL a redirect goes to. Without a redirect prefix the URL is used as
   * given. With one, `prefix` decides (PHP's null is `None`); left to the
   * response, it prefixes URLs that are neither absolute http(s) URLs nor
   * already prefixed.
   */
  function RedirectTarget(redirectPrefix: string, url: string, prefix: Option<bool>): (r: string)
    ensures r == url || r == redirectPrefix + url
    ensures !StrTruthy(redirectPrefix) ==> r == url
    ensures StrTruthy(redirectPrefix) && prefix.None? ==>
      (StartsWith(r, redirectPrefix) || IsAbsoluteHttp(r))
    ensures StrTruthy(redirectPrefix) && prefix.None? && (IsAbsoluteHttp(url) || StartsWith(url, redirectPrefix)) ==>
      r == url
    ensures StrTruthy(redirectPrefix) && prefix.Some? ==>
      r == (if prefix.value then redirectPrefix + url else url)
  {
    if !StrTruthy(redirectPrefix) then url
    else
      var add := match prefix
                 case None => !IsAbsoluteHttp(url) && !StartsWith(url, redirectPrefix)
                 case Some(b) => b;
      if add then redirectPrefix + url else url
  }

  /** Left to the response, prefixing is idempotent: a prefixed URL is not
      prefixed again. */
  lemma RedirectTargetIdempotent(redirectPrefix: string, url: string)
    ensures RedirectTarget(redirectPrefix, RedirectTarget(redirectPrefix, url, None), None)
         == RedirectTarget(redirectPrefix, url, None)
  {
    var r := RedirectTarget(redirectPrefix, url, None);
    if r == redirectPrefix + url {
      assert r[..|redirectPrefix|] == redirectPrefix;
    }
  }

  // ---------------------------------------------------------------------------
  // The response object
  // ---------------------------------------------------------------------------

  datatype Cookie = Cookie(value: string, expires: int, path: string, domain: string)

  datatype Message = Message(kind: string, title: string, text: string)

  /** `header($name)`: all headers for a falsy name, else the one named (null if unset). */
  datatype HeaderAnswer = AllHeaders(headers: PArray<string>) | HeaderValue(value: Option<string>)

  /** `cookie($name)`: all cookies for a falsy name, else the one named (`[]` if unset). */
  datatype CookieAnswer = AllCookies(cookies: PArray<Cookie>) | CookieValue(cookie: Option<Cookie>)

  /** Everything a response holds, for stating what a setter changes. */
  datatype State = State(status: StatusLine, headers: PArray<string>, cookies: PArray<Cookie>,
                         body: string, charset: string, messages: seq<Message>,
                         redirectPrefix: string)

  class BaseResponse {
    var status: StatusLine
    var headers: PArray<string>
    var cookies: PArray<Cookie>
    var body: string
    var charset: string
    var messages: seq<Message>
    /** The prefix for relative redirects; "" stands for PHP's null. */
    var redirectPrefix: string

    function Snapshot(): State
      reads this
    {
      State(status, headers, cookies, body, charset, messages, redirectPrefix)
    }

    /** Every response holds a status code from the table. */
    predicate Valid()
      reads this
    {
      status.code in Statuses
    }

    /** BaseResponse::__construct: 200 OK, an empty body, an HTML content
        type in UTF-8, no cookies, no messages. */
    constructor ()
      ensures Valid()
      ensures Snapshot() == State(StatusLine(200, "OK"), [("Content-Type", DefaultMediaType + "charset=UTF-8")],
                                  [], "", "UTF-8", [], "")
    {
      charset := "UTF-8";
      status := StatusLine(200, Statuses[200]);
      body := "";
      headers := [("Content-Type", DefaultMediaType + "charset=UTF-8")];
      cookies := [];
      messages := [];
      redirectPrefix := "";
    }

    /** BaseResponse::status. */
    method Status(code: int, message: string) returns (answer: StatusAnswer)
      modifies this
      ensures code == 0 ==> answer == Current(old(status)) && Snapshot() == old(Snapshot())
      ensures code != 0 && code !in Statuses ==> answer == InvalidCode(code) && Snapshot() == old(Snapshot())
      ensures code != 0 && code in Statuses ==> (answer == Updated &&
        Snapshot() == old(Snapshot()).(status := StatusLine(code, if StrTruthy(message) then message else Statuses[code])))
      ensures old(Valid()) ==> Valid()
    {
      if code == 0 {
        return Current(status);
      }
      if code !in Statuses {
        return InvalidCode(code);
      }
      status := StatusLine(code, if StrTruthy(message) then message else Statuses[code]);
      answer := Updated;
    }

    /** BaseResponse::isRedirect. */
    predicate IsRedirect()
      reads this
    {
      status.code in RedirectCodes
    }

    /** BaseResponse::header with no value. */
    function Header(name: string): HeaderAnswer
      reads this
    {
      if !StrTruthy(name) then AllHeaders(headers)
      else HeaderValue(Lookup(headers, NormaliseHeaderName(name)))
    }

    /** BaseResponse::header with a value: stores it under the normalised
        name, completing a Content-Type with the current charset. A falsy
        name changes nothing. */
    method SetHeader(name: string, value: string)
      modifies this
      ensures !StrTruthy(name) ==> Snapshot() == old(Snapshot())
      ensures StrTruthy(name) ==> Snapshot() == old(Snapshot()).(headers := Put(old(headers), NormaliseHeaderName(name),
        if NormaliseHeaderName(name) == "Content-Type" then WithCharset(value, charset) else value))
      ensures StrTruthy(name) ==> Header(name) == HeaderValue(Some(
        if NormaliseHeaderName(name) == "Content-Type" then WithCharset(value, charset) else value))
    {
      if !StrTruthy(name) {
        return;
      }
      var n := NormaliseHeaderName(name);
      var v := value;
      if n == "Content-Type" {
        v := WithCharset(value, charset);
      }
      headers := Put(headers, n, v);
    }

    /** BaseResponse::setCharset: stores the charset upper-cased and rewrites
        the charset parameter of the Content-Type header. */
    method SetCharset(newCharset: string)
      modifies this
      ensures charset == Upper(newCharset)
      ensures Snapshot() == old(Snapshot()).(charset := charset, headers :=
        match Lookup(old(headers), "Content-Type")
        case None => old(headers)
        case Some(ct) => Put(old(headers), "Content-Type", ReplaceCharset(ct, charset)))
    {
      charset := Upper(newCharset);
      var ct := Lookup(headers, "Content-Type");
      if ct.Some? {
        headers := Put(headers, "Content-Type", ReplaceCharset(ct.value, charset));
      }
    }

    /** BaseResponse::body with no argument. */
    function Body(): string
      reads this
    {
      body
    }

    /** BaseResponse::body with an argument. */
    method SetBody(newBody: string)
      modifies this
      ensures Snapshot() == old(Snapshot()).(body := newBody)
      ensures Body() == newBody
    {
      body := newBody;
    }

    /** BaseResponse::cookie with no value. */
    function CookieOf(name: string): CookieAnswer
      reads this
    {
      if !StrTruthy(name) then AllCookies(cookies) else CookieValue(Lookup(cookies, name))
    }

    /** BaseResponse::cookie with a value; `now` is the current time. A
        non-zero lifetime expires `expires` seconds from now, zero means at
        the end of the session. A falsy name changes nothing. */
    method SetCookie(name: string, value: string, expires: int, path: string, domain: string, now: int)
      modifies this
      ensures !StrTruthy(name) ==> Snapshot() == old(Snapshot())
      ensures StrTruthy(name) ==> Snapshot() == old(Snapshot()).(cookies :=
        Put(old(cookies), name, Cookie(value, if expires != 0 then now + expires else 0, path, domain)))
      ensures StrTruthy(name) ==> CookieOf(name).cookie == Some(Cookie(value, if expires != 0 then now + expires else 0, path, domain))
    {
      if !StrTruthy(name) {
        return;
      }
      cookies := Put(cookies, name, Cookie(value, if expires != 0 then now + expires else 0, path, domain));
    }

    /** BaseResponse::message: appends one message and keeps the earlier ones. */
    method AddMessage(text: string, kind: string, title: string)
      modifies this
      ensures messages == old(messages) + [Message(kind, title, text)]
      ensures Snapshot() == old(Snapshot()).(messages := messages)
    {
      messages := messages + [Message(kind, title, text)];
    }

    /** BaseResponse::setRedirectPrefix. */
    method SetRedirectPrefix(prefix: string)
      modifies this
      ensures Snapshot() == old(Snapshot()).(redirectPrefix := prefix)
    {
      redirectPrefix := prefix;
    }

    /** BaseResponse::redirect: 301 when permanent, 302 otherwise, and a
        Location header with the target URL. */
    method Redirect(url: string, permanent: bool, prefix: Option<bool>)
      modifies this
      ensures IsRedirect() && Valid()
      ensures status == if permanent then StatusLine(301, "Moved Permanently") else StatusLine(302, "Found")
      ensures headers == Put(old(headers), "Location", RedirectTarget(redirectPrefix, url, prefix))
      ensures Snapshot() == old(Snapshot()).(status := status, headers := headers)
    {
      var target := RedirectTarget(redirectPrefix, url, prefix);
      RedirectStatuses();
      var answer := Status(if permanent then 301 else 302, "");
      NormalisedLocation();
      SetHeader("Location", target);
    }
  }

  /** A new response whose charset is changed gets the new charset in its
      Content-Type header. */
  lemma SetCharsetOnDefault(cs: string)
    ensures ReplaceCharset(DefaultMediaType + "charset=UTF-8", Upper(cs)) == DefaultMediaType + "charset=" + Upper(cs)
  {
    ReplaceCharsetParameter(DefaultMediaType, "UTF-8", Upper(cs));
    assert DefaultMediaType + "charset=UTF-8" == DefaultMediaType + "charset=" + "UTF-8";
  }

  /** A Content-Type that does not name a charset after its first character
      is completed with the current one. */
  lemma CharsetAppended(value: string, charset: string)
    requires forall j :: 0 < j <= |value| ==> !StartsWith(value[j..], "charset")
    ensures WithCharset(value, charset) == value + "; charset=" + charset
  {
  }
}
