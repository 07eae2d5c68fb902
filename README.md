# gonionoo request front, modelled in Dafny

This project models the part of the gonionoo client for the Onionoo service
(the Tor Project's relay and bridge status API) that runs before anything
goes over the network:

- the allow-list of 16 query parameter names and its check (`validateQueryParameters`);
- the allow-list of six method names and its check (`validateMethod`);
- the query-string encoder (`constructQueryParametersString`);
- the front of `executeRequest`: validate the query, then the method, then
  build `https://onionoo.torproject.org/<method>?<query>`;
- the six typed accessors `GetSummary` … `GetUptime`, each passing its fixed
  method name to the executor.

Go's map iteration order is unspecified. Both loops over a query map
(validation and encoding) therefore pick the next key by nondeterministic
choice (`:|`). Their contracts say what holds for every order. When several
keys are refused, the error names some offending key. The encoded string
is the concatenation, over some enumeration of the entries, of
`key=value&`. Because of this choice, the executor front is a method rather
than a function. Its specification is the predicate `Executor.IsRequestUrl`.

Everything after the URL is built is one external step: the GET request,
gzip decompression and JSON decoding into the document type. Each method
takes it as a parameter `fetch: string -> Result<T, string>`. Its error text
is reported as `Remote(cause)`. A ghost out-parameter `requested` records
the URL handed to `fetch`. It is `None` exactly when validation fails, so no
request is made then. The document types (`Summary`, `Details`, …) are type
parameters.

As an inverse of the encoder, `QueryParsing` defines a split-only reader
that does no percent-decoding: it splits at `&`, then splits each entry at
its first `=`. The project proves that this reader reads every encoding of a
filter back as the filter, provided no value contains `&`. Allow-listed keys
never contain `&` or `=`. It also proves that any value containing `&` is cut
at that `&`, because nothing is percent-encoded.

Files: `wrappers.dfy` (Option, Result), `onionoo.dfy` (query, errors, base
URL), `validation.dfy`, `query_encoding.dfy`, `query_parsing.dfy`,
`executor.dfy`, `accessors.dfy`.

Notes on the code as written (`gonionoo.go`):
- The parameter allow-list has 16 names (gonionoo.go:22-39).
- Every `key=value` pair is terminated by `&`, including the last one
  (gonionoo.go:83).
- There is no conditional-fetch token. The tests call
  `GetSummary(nil, "")` (gonionoo_test.go:11) and
  `executeRequest("Unknown", nil, "", &result)` (gonionoo_test.go:167).
  Each call has an extra argument and one more result than gonionoo.go
  declares: `GetSummary` three results against two (gonionoo.go:131),
  `executeRequest` two against one (gonionoo.go:89). The model follows
  gonionoo.go.
- Only the errors of reading the body (gonionoo.go:117-120) and of JSON
  decoding (gonionoo.go:122-125) are returned, as they are (`Remote` here).
  The errors of `http.NewRequest`, `client.Do` and `gzip.NewReader` are
  overwritten without being checked.
- An accessor returns a document exactly when it returns no error, provided
  the document type `T` includes Go's nil pointer. A response body `null`
  makes `json.Unmarshal` set the accessor's pointer to nil, and the accessor
  then returns `(nil, nil)`. In the model this is `Some(v)` for the value
  `v` of `T` that stands for nil.

## Model

| member | source | states |
|---|---|---|
| `Validation.ValidateQueryParameters` | gonionoo.go:50-62 | A nil query is accepted. Any query is accepted iff every key is one of the 16 allow-listed names. When refused, the error is `InvalidParameter(k)` for some key `k` of the query that is not allow-listed. |
| `Validation.ValidateMethod` | gonionoo.go:64-74 | Succeeds iff the name is one of the six methods. `""` gives `EmptyMethod`, checked before the allow-list. Any other refused name `m` gives `UnknownMethod(m)`. |
| `Validation.MethodNamesAreCaseSensitive` | gonionoo.go:41-48 | `"Unknown"`, `"Summary"` and `"DETAILS"` are refused as unknown methods and `"summary"` is accepted: names are compared exactly. |
| `QueryEncoding.Serialize` | gonionoo.go:82-84 | The text written after visiting keys in a given order is empty iff no key was visited, and otherwise ends in `&`. |
| `QueryEncoding.ConstructQueryParametersString` | gonionoo.go:76-87 | For nil the result is `""`. Otherwise it is the concatenation of `key=value&` over some enumeration of the map's keys, each key exactly once. |
| `QueryEncoding.EncodedLengthRemove` | gonionoo.go:82-84 | The total encoded length of a map is one entry's `|key|+|value|+2` plus the length of the rest, whichever entry is taken out. |
| `QueryEncoding.SerializeLength` | gonionoo.go:82-84 | For every enumeration of the keys, the encoding has length Σ(|k|+|v|+2) over the entries. The length does not depend on iteration order. |
| `QueryEncoding.SerializeAppend` | gonionoo.go:82-84 | Encoding the keys of `a` then those of `b` gives the encoding of `a` followed by that of `b`: the buffer only grows at its end. |
| `QueryEncoding.EntryAppears` | gonionoo.go:82-84 | The i-th visited entry occurs verbatim as `key=value&`, between the encodings of the entries before and after it. |
| `QueryEncoding.EncodingShape` | gonionoo.go:76-87 | Every encoder output is `""` exactly when the query is nil or empty. Otherwise it ends in `&`. Its length is the sum of the entry lengths. |
| `QueryParsing.ParseSegment` | gonionoo.go:83 | For the split-only reader, a written entry whose key has no `&` or `=` and whose value has no `&` reads back as that entry, followed by whatever follows it. |
| `QueryParsing.ParseSerialize` | gonionoo.go:82-84 | Reading back an encoding with such entries yields the entries in the order they were written. |
| `QueryParsing.ToMapPairs` | gonionoo.go:82-84 | Collecting the written entries gives back the map restricted to the visited keys, with the same values. |
| `QueryParsing.EncodingRoundTrip` | gonionoo.go:76-87 | For the split-only reader and any encoder output of a map whose keys hold no `&` or `=` and whose values hold no `&`, reading it back gives exactly that map. |
| `QueryParsing.ValueWithAmpersandIsCut` | gonionoo.go:83 | With no percent-encoding, a value containing `&` is read back cut at its first `&`, so the round trip fails for such values. |
| `Executor.PrepareRequest` | gonionoo.go:89-98 | A refused query gives `InvalidParameter` of an offending key, even when the method is also invalid. Next, an invalid method gives `ValidateMethod`'s error. Otherwise the result is a URL `https://onionoo.torproject.org/` + method + `?` + an encoding of the query. |
| `Executor.Received` | gonionoo.go:117-125 | The external step's error is passed on unchanged as `Remote(cause)`, and its decoded document is passed on unchanged. |
| `Executor.ExecuteRequest` | gonionoo.go:89-127 | Has the same validation outcomes and precedence as `PrepareRequest`. The URL handed to `fetch` (`requested`) is absent exactly when the query or the method is refused, so no request is made then. Otherwise it is a valid request URL and the result is what `fetch` returns for it. |
| `Executor.RequestUrlShape` | gonionoo.go:98 | A request URL is as long as base + method + 1 + the encoded length. It is exactly `base + method + "?"` iff the query has no entry, and otherwise ends in `&`. |
| `Executor.MethodNamesHaveNoQuestionMark` | gonionoo.go:41-48 | None of the six method names contains `?`. |
| `Executor.ParameterNamesArePlain` | gonionoo.go:22-39 | None of the 16 parameter names contains `&` or `=`. |
| `Executor.ReadComposedUrl` | gonionoo.go:98 | A URL built from the base, a method without `?`, `?` and a query string splits back into that method and the query string. |
| `Executor.AcceptedEntriesArePlain` | gonionoo.go:22-39 | An accepted query whose values hold no `&` has entries that survive encoding unescaped. |
| `Executor.RequestUrlRoundTrip` | gonionoo.go:89-98 | Under the split-only reading, every URL built for a valid method and an accepted query whose values hold no `&` reads back as exactly that method and query, whatever the iteration order. |
| `Accessors.Dispatch` | gonionoo.go:131-139 | An accessor returns a document iff it returns no error. A refused query yields `InvalidParameter` of an offending key and no request. Otherwise exactly one request is made, for a URL built from the accessor's method, and the pair is what `fetch` gives for it. |
| `Accessors.AccessorErrors` | gonionoo.go:130-194 | An accessor never reports `EmptyMethod` or `UnknownMethod`: its errors are a refused key (an offending one) or `Remote`. |
| `Accessors.GetSummary` | gonionoo.go:131-139 | Dispatches with method `summary`: nil document with the error, or the document with no error. |
| `Accessors.GetDetails` | gonionoo.go:142-150 | Dispatches with method `details`, with the same pair contract. |
| `Accessors.GetBandwidth` | gonionoo.go:153-161 | Dispatches with method `bandwidth`, with the same pair contract. |
| `Accessors.GetWeights` | gonionoo.go:164-172 | Dispatches with method `weights`, with the same pair contract. |
| `Accessors.GetClients` | gonionoo.go:175-183 | Dispatches with method `clients`, with the same pair contract. |
| `Accessors.GetUptime` | gonionoo.go:186-194 | Dispatches with method `uptime`, with the same pair contract. |

## Left out

- HTTP request construction and sending (gonionoo.go:100-105): network I/O. It is part of the `fetch` parameter.
- Gzip decompression on `Content-Encoding: gzip` (gonionoo.go:107-115): foreign library code. It is part of `fetch`.
- Reading the body and `json.Unmarshal` into the document types (gonionoo.go:117-125): the document types are not part of this model. Decoding is part of `fetch`, whose decoded document the model passes on.
- The errors the code ignores or overwrites (gonionoo.go:100-111): a value with a control character makes `http.NewRequest` fail with a nil `request`, and line 101 panics; a failed `client.Do` leaves `response` nil and `response.Body.Close` panics; and a failed `gzip.NewReader` leaves `reader` nil. This is Go runtime behaviour on the I/O path, which the model does not cover.
- Conditional fetch with `If-Modified-Since` / `Last-Modified`: gonionoo.go has no such logic.
- Error message texts from `fmt.Errorf`: errors are the datatype `Onionoo.Error`, which keeps each error's kind and the key or name it concerns.
- The unused version constants (gonionoo.go:17-19).
- Which offending key is reported, and in which order entries are written: these depend on Go's map iteration order, which the model leaves open (nondeterministic choice).
- The round trip through a real URL parser and query decoder: `QueryParsing` only splits at `&` and `=`. Besides values with `&`, the round trip also fails for values with `#` (which starts a URL fragment that is never sent), `%` or `+` (which query decoders turn into other characters).
- Release of the response body on every path: resource handling on the I/O path.
