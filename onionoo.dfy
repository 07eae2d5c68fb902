/** The values every part of the Onionoo client shares: the caller's query
    filter, the errors the client reports and the service's base address. */
module Onionoo {
  import opened Wrappers

  /** A query filter as the caller passes it: Go's `map[string]string`,
      which may be nil (`None`). One value per key. */
  type Query = Option<map<string, string>>

  /** The errors the client reports. The Go code builds them with
      `fmt.Errorf`; the model keeps their kind and the value they name. */
  datatype Error =
    | InvalidParameter(key: string)   // a query key outside the allow-list
    | EmptyMethod                     // the method name is ""
    | UnknownMethod(name: string)   // a non-empty method name outside the allow-list
    | Remote(cause: string)           // an error of reading the response body or of JSON decoding, returned as it is

  /** The keys a query holds; a nil map holds none. */
  function Keys(query: Query): set<string>
  {
    if query.None? then {} else query.value.Keys
  }

  /** The address every request URL starts with. */
  const BaseUrl: string := "https://onionoo.torproject.org/"
}
