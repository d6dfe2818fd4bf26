/**
 * The HTTP client's interceptors (lib/api.ts): the XSRF header taken from
 * the cookie on every request, and the tag put on unauthorised failures.
 */
module Api {
  import opened Wrappers
  import opened JsText

  /** `getCookie(name)` over the text of `document.cookie`. */
  function GetCookie(cookie: string, name: string): (r: Option<string>)
    ensures r.Some? ==> |Split("; " + cookie, "; " + name + "=")| == 2
    ensures r.Some? ==> r.value != ""
    ensures |Split("; " + cookie, "; " + name + "=")| != 2 ==> r.None?
  {
    var parts := Split("; " + cookie, "; " + name + "=");
    if |parts| == 2 then
      var value := Split(parts[1], ";")[0];
      if value == "" then None else Some(value)
    else None
  }

  /** The text before the first `c` holds no `c`. */
  lemma {:induction false} FirstSegmentHasNo(s: string, c: char)
    ensures c !in Split(s, [c])[0]
  {
    IndexOfFirst(s, [c]);
    match IndexOf(s, [c])
    case None =>
      forall k | 0 <= k < |s|
        ensures s[k] != c
      {
        assert !StartsWith(s[k..], [c]);
        assert s[k..][..1] == [s[k]];
      }
    case Some(i) =>
      forall k | 0 <= k < i
        ensures s[k] != c
      {
        assert !StartsWith(s[k..], [c]);
        assert s[k..][..1] == [s[k]];
      }
  }

  /** A cookie value never contains `;`. */
  lemma CookieHasNoSemicolon(cookie: string, name: string)
    requires GetCookie(cookie, name).Some?
    ensures ';' !in GetCookie(cookie, name).value
  {
    var parts := Split("; " + cookie, "; " + name + "=");
    FirstSegmentHasNo(parts[1], ';');
  }

  /** No `c` in `s` means no separator starting with `c` in `s`. */
  lemma {:induction false} IndexOfAbsentLead(s: string, sep: string)
    requires |sep| > 0 && sep[0] !in s
    ensures IndexOf(s, sep) == None
    decreases |s|
  {
    if |s| >= |sep| {
      assert !StartsWith(s, sep) by { assert s[0] != sep[0]; }
      IndexOfAbsentLead(s[1..], sep);
    }
  }

  /** A cookie jar holding only `name=value` yields that value. */
  lemma GetCookieOfSingle(name: string, value: string)
    requires ';' !in name && ';' !in value && value != ""
    ensures GetCookie(name + "=" + value, name) == Some(value)
  {
    var sep := "; " + name + "=";
    var s := "; " + (name + "=" + value);
    assert s == sep + value;
    assert StartsWith(s, sep);
    assert IndexOf(s, sep) == Some(0);
    assert s[|sep|..] == value;
    IndexOfAbsentLead(value, sep);
    assert Split(value, sep) == [value];
    assert Split(s, sep) == [""] + [value];
    IndexOfCharAbsent(value, ';');
  }

  /** A separator that first occurs right after `head` and never in `tail` splits `head + sep + tail` in two. */
  lemma SplitAtOnlyOccurrence(s: string, head: string, sep: string, tail: string)
    requires |sep| > 0 && s == head + sep + tail
    requires forall k :: 0 <= k < |head| ==> !StartsWith(s[k..], sep)
    requires forall k :: 0 <= k <= |tail| ==> !StartsWith(tail[k..], sep)
    ensures Split(s, sep) == [head, tail]
  {
    assert s[|head|..][..|sep|] == sep;
    IndexOfFirst(s, sep);
    match IndexOf(s, sep)
    case None =>
      assert false;
    case Some(i) =>
      assert StartsWith(s[|head|..], sep);
      assert i == |head|;
      assert s[..|head|] == head;
      assert s[|head| + |sep|..] == tail;
      IndexOfFirst(tail, sep);
      match IndexOf(tail, sep)
      case None =>
      case Some(j) =>
        assert false;
  }

  /** The text before the first `;` of `v + rest`, when `rest` is empty or starts with `;`. */
  lemma FirstSegmentOf(v: string, rest: string)
    requires ';' !in v
    requires rest == "" || rest[0] == ';'
    ensures Split(v + rest, ";")[0] == v
  {
    if rest == "" {
      assert v + rest == v;
      IndexOfCharAbsent(v, ';');
    } else {
      assert v + rest == v + [';'] + rest[1..];
      IndexOfCharAfterPrefix(v, ';', rest[1..]);
      assert (v + rest)[..|v|] == v;
    }
  }

  /**
   * In any jar, a cookie `name=v` whose separator `; name=` occurs exactly once
   * yields `v`, the text up to the next `;` or the end.
   */
  lemma GetCookieFinds(cookie: string, head: string, name: string, v: string, rest: string)
    requires "; " + cookie == head + "; " + name + "=" + v + rest
    requires forall k :: 0 <= k < |head| ==> !StartsWith(("; " + cookie)[k..], "; " + name + "=")
    requires forall k :: 0 <= k <= |v + rest| ==> !StartsWith((v + rest)[k..], "; " + name + "=")
    requires v != "" && ';' !in v
    requires rest == "" || rest[0] == ';'
    ensures GetCookie(cookie, name) == Some(v)
  {
    var sep := "; " + name + "=";
    assert "; " + cookie == head + sep + (v + rest);
    SplitAtOnlyOccurrence("; " + cookie, head, sep, v + rest);
    FirstSegmentOf(v, rest);
  }

  const XsrfCookie := "XSRF-TOKEN"
  const XsrfHeader := "X-XSRF-TOKEN"

  /**
   * A request's configuration; the request interceptor writes its headers.
   * `decodeURIComponent` is a parameter, `decode`.
   */
  class RequestConfig {
    var headers: map<string, string>

    constructor(headers: map<string, string>)
      ensures this.headers == headers
    {
      this.headers := headers;
    }

    /** The request interceptor. */
    method AddXsrfHeader(cookie: string, decode: string -> string)
      modifies this
      ensures GetCookie(cookie, XsrfCookie).Some? ==>
        headers == old(headers)[XsrfHeader := decode(GetCookie(cookie, XsrfCookie).value)]
      ensures GetCookie(cookie, XsrfCookie).None? ==> headers == old(headers)
    {
      var token := GetCookie(cookie, XsrfCookie);
      if token.Some? {
        headers := headers[XsrfHeader := decode(token.value)];
      }
    }
  }

  /** Whether a failure carries the auth tag once the response interceptor has seen it. */
  predicate Tagged(before: bool, status: Option<int>)
  {
    before || status == Some(401)
  }

  /** A failed request as the response interceptor sees it; `isAuthError` is the tag it may add. */
  class RequestError {
    const status: Option<int>
    var isAuthError: bool

    constructor(status: Option<int>)
      ensures this.status == status && !isAuthError
    {
      this.status := status;
      isAuthError := false;
    }

    /** The response interceptor's error branch: tag a 401, then reject. */
    method OnRejected() returns (rejected: bool)
      modifies this
      ensures rejected
      ensures isAuthError == Tagged(old(isAuthError), status)
      ensures !old(isAuthError) ==> (isAuthError <==> status == Some(401))
    {
      if status == Some(401) {
        isAuthError := true;
      }
      rejected := true;
    }
  }
}
