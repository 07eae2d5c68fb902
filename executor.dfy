/** The front of `executeRequest`: validate the query, then the method, then
    build the request URL. What follows (sending the GET request, gunzipping
    and JSON-decoding the response) is an external step the caller supplies
    as `fetch`. */
module Executor {
  import opened Wrappers
  import opened Onionoo
  import opened Validation
  import opened QueryEncoding
  import opened QueryParsing

  /** Everything of a request URL before its query string. */
  function UrlPrefix(name: string): string
  {
    BaseUrl + name + "?"
  }

  /** `url` is a URL the client may build for the method `name` and the
      filter `query`: the base address, the method, '?' and an encoding of
      the filter. */
  ghost predicate IsRequestUrl(url: string, name: string, query: Query)
  {
    var prefix := UrlPrefix(name);
    |prefix| <= |url| && url[..|prefix|] == prefix && IsEncoding(url[|prefix|..], query)
  }

  /** Validation and URL construction: the query is checked first, so an
      invalid query is reported even when the method is invalid too; either
      failure returns before any URL exists. */
  method PrepareRequest(name: string, query: Query) returns (r: Result<string, Error>)
    ensures !AcceptedQuery(query) ==> r.Failure? && r.error.InvalidParameter? && Offending(query, r.error.key)
    ensures AcceptedQuery(query) && name !in ValidMethods ==> r == Failure(ValidateMethod(name).value)
    ensures AcceptedQuery(query) && name in ValidMethods ==> r.Success? && IsRequestUrl(r.value, name, query)
  {
    var paramErr := ValidateQueryParameters(query);
    if paramErr.Some? {
      return Failure(paramErr.value);
    }
    var methodErr := ValidateMethod(name);
    if methodErr.Some? {
      return Failure(methodErr.value);
    }
    var encoded := ConstructQueryParametersString(query);
    var url := UrlPrefix(name) + encoded;
    assert url[..|UrlPrefix(name)|] == UrlPrefix(name) && url[|UrlPrefix(name)|..] == encoded;
    return Success(url);
  }

  /** The outcome of the external step, with its error wrapped as the
      client reports it. */
  function Received<T>(response: Result<T, string>): (r: Result<T, Error>)
    ensures r.Failure? <==> response.Failure?
    ensures r.Success? ==> r.value == response.value
    ensures r.Failure? ==> r.error == Remote(response.error)
  {
    match response
    case Success(v) => Success(v)
    case Failure(cause) => Failure(Remote(cause))
  }

  /** One round trip: prepare the request, then hand the URL to `fetch`,
      which stands for the HTTP request and the decoding of its body.
      `requested` records the URL handed to `fetch`, if any: a validation
      failure returns before any request is made. */
  method ExecuteRequest<T>(name: string, query: Query, fetch: string -> Result<T, string>)
    returns (r: Result<T, Error>, ghost requested: Option<string>)
    ensures !AcceptedQuery(query) ==> r.Failure? && r.error.InvalidParameter? && Offending(query, r.error.key)
    ensures AcceptedQuery(query) && name !in ValidMethods ==> r == Failure(ValidateMethod(name).value)
    ensures requested.None? <==> !AcceptedQuery(query) || name !in ValidMethods
    ensures requested.Some? ==>
      IsRequestUrl(requested.value, name, query) && r == Received(fetch(requested.value))
  {
    var request := PrepareRequest(name, query);
    if request.Failure? {
      return Failure(request.error), None;
    }
    var url := request.value;
    requested := Some(url);
    r := Received(fetch(url));
  }

  /** The shape of every request URL: it starts with the base address, the
      method and '?', ends in '?' exactly when the filter holds no entry and
      in '&' otherwise, and is as long as its parts together. */
  lemma RequestUrlShape(url: string, name: string, query: Query)
    requires IsRequestUrl(url, name, query)
    ensures |url| == |BaseUrl| + |name| + 1 + (if query.None? then 0 else EncodedLength(query.value))
    ensures Keys(query) == {} <==> url == UrlPrefix(name)
    ensures Keys(query) != {} ==> url[|url| - 1] == '&'
  {
    var prefix := UrlPrefix(name);
    var encoded := url[|prefix|..];
    EncodingShape(encoded, query);
    assert url == prefix + encoded;
    if Keys(query) != {} {
      assert url[|url| - 1] == encoded[|encoded| - 1];
    }
  }

  /** No method name contains '?', so the first '?' after the base address
      is the one that starts the query string. */
  lemma MethodNamesHaveNoQuestionMark(name: string)
    requires name in ValidMethods
    ensures '?' !in name
  {
  }

  /** No parameter name contains '&' or '='. */
  lemma ParameterNamesArePlain(key: string)
    requires key in ValidParameters
    ensures '&' !in key && '=' !in key
  {
  }

  /** A split-only reading of a request URL: the method is the text between
      the base address and the first '?', and the filter is read from the
      rest by `ParseQuery`, with no percent-decoding. */
  function ReadRequestUrl(url: string): Option<(string, map<string, string>)>
  {
    if |url| < |BaseUrl| || url[..|BaseUrl|] != BaseUrl then None
    else
      var rest := url[|BaseUrl|..];
      var q := IndexOf(rest, '?');
      if q == |rest| then None
      else Some((rest[..q], ParseQuery(rest[q + 1..])))
  }

  /** The entries of a filter as a map; a nil filter has none. */
  function Entries(query: Query): map<string, string>
  {
    if query.None? then map[] else query.value
  }

  /** A URL made of the base address, a method name without '?', '?' and
      a query string is read as that name and the filter the query string
      reads as. */
  lemma ReadComposedUrl(name: string, encoded: string)
    requires '?' !in name
    ensures ReadRequestUrl(UrlPrefix(name) + encoded) == Some((name, ParseQuery(encoded)))
  {
    var url := UrlPrefix(name) + encoded;
    assert url == BaseUrl + (name + "?" + encoded);
    var rest := url[|BaseUrl|..];
    assert rest == name + "?" + encoded;
    assert rest[|name|] == '?';
    assert forall j :: 0 <= j < |name| ==> rest[j] != '?' by {
      forall j | 0 <= j < |name|
        ensures rest[j] != '?'
      {
        assert rest[j] == name[j];
      }
    }
    assert IndexOf(rest, '?') == |name|;
    assert rest[..|name|] == name;
    assert rest[|name| + 1..] == encoded;
  }

  /** An accepted filter whose values hold no '&' has plain entries. */
  lemma AcceptedEntriesArePlain(m: map<string, string>)
    requires AcceptedQuery(Some(m))
    requires forall k :: k in m ==> '&' !in m[k]
    ensures PlainEntries(m)
  {
  }

  /** Every URL the client builds for an accepted filter whose values hold
      no '&' is read back as the method and the filter it was built from,
      whatever order the entries were written in. */
  lemma RequestUrlRoundTrip(url: string, name: string, query: Query)
    requires IsRequestUrl(url, name, query)
    requires name in ValidMethods
    requires AcceptedQuery(query)
    requires forall k :: k in Entries(query) ==> '&' !in Entries(query)[k]
    ensures ReadRequestUrl(url) == Some((name, Entries(query)))
  {
    var encoded := url[|UrlPrefix(name)|..];
    assert url == UrlPrefix(name) + encoded;
    assert ParseQuery(encoded) == Entries(query) by {
      if query.Some? {
        assert Entries(query) == query.value;
        AcceptedEntriesArePlain(query.value);
        EncodingRoundTrip(encoded, query.value);
      } else {
        assert encoded == "";
      }
    }
    MethodNamesHaveNoQuestionMark(name);
    ReadComposedUrl(name, encoded);
  }
}
