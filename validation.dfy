/** The two input checks `executeRequest` runs before it builds a request:
    the query keys against the parameter allow-list, and the method name
    against the method allow-list. */
module Validation {
  import opened Wrappers
  import opened Onionoo

  /** The query parameter names the client recognises. */
  const ValidParameters: set<string> := {
    "type", "running", "search", "lookup", "fingerprint", "country", "as", "flag",
    "first_seen_days", "last_seen_days", "contact", "family", "fields", "order",
    "offset", "limit"
  }

  /** The Onionoo documents the client can ask for; each is a URL path segment. */
  const ValidMethods: set<string> := {
    "summary", "details", "bandwidth", "weights", "clients", "uptime"
  }

  /** A query the client lets through: every key it holds is a recognised
      parameter (a nil or empty map holds no key). */
  predicate AcceptedQuery(query: Query)
  {
    Keys(query) <= ValidParameters
  }

  /** A key of `query` that the allow-list does not contain. */
  predicate Offending(query: Query, key: string)
  {
    key in Keys(query) && key !in ValidParameters
  }

  /** Walks the keys of `query` in whatever order the map yields them and
      stops at the first one outside the allow-list. Which offending key is
      reported, when there are several, depends on that order, so the
      contract only says it is one of them. */
  method ValidateQueryParameters(query: Query) returns (err: Option<Error>)
    ensures query.None? ==> err.None?
    ensures err.None? <==> AcceptedQuery(query)
    ensures err.Some? ==> err.value.InvalidParameter? && Offending(query, err.value.key)
  {
    if query.None? {
      return None;
    }
    var unvisited := query.value.Keys;
    while unvisited != {}
      invariant unvisited <= query.value.Keys
      invariant forall k :: k in query.value && k !in unvisited ==> k in ValidParameters
      decreases unvisited
    {
      var k :| k in unvisited;
      if k !in ValidParameters {
        return Some(InvalidParameter(k));
      }
      unvisited := unvisited - {k};
    }
    return None;
  }

  /** Checks a method name: the empty name has an error of its own, checked
      first; any other name must be one of the six, compared exactly. */
  function ValidateMethod(name: string): (err: Option<Error>)
    ensures err.None? <==> name in ValidMethods
    ensures name == "" ==> err == Some(EmptyMethod)
    ensures name != "" && name !in ValidMethods ==> err == Some(UnknownMethod(name))
  {
    if name == "" then Some(EmptyMethod)
    else if name !in ValidMethods then Some(UnknownMethod(name))
    else None
  }

  /** Method names are compared case-sensitively: the capitalised names and
      the name the tests use for an unknown method are all rejected. */
  lemma MethodNamesAreCaseSensitive()
    ensures ValidateMethod("Unknown") == Some(UnknownMethod("Unknown"))
    ensures ValidateMethod("Summary") == Some(UnknownMethod("Summary"))
    ensures ValidateMethod("DETAILS") == Some(UnknownMethod("DETAILS"))
    ensures ValidateMethod("summary").None?
  {
  }
}
