/** The six typed accessors, one per Onionoo document. Each passes its own
    method name to `ExecuteRequest` and hands back Go's pair of a result
    and an error: the decoded document and no error, or no document and
    the error. The document types (`Summary`, `Details`, ...) are left
    abstract as type parameters; `fetch` is the external round trip. */
module Accessors {
  import opened Wrappers
  import opened Onionoo
  import opened Validation
  import opened Executor

  /** Go's `(*Shape, error)` pair for the outcome of `ExecuteRequest`. */
  function Reply<T>(r: Result<T, Error>): (Option<T>, Option<Error>)
  {
    match r
    case Success(v) => (Some(v), None)
    case Failure(e) => (None, Some(e))
  }

  /** What an accessor for the method `name` may return: a document exactly
      when there is no error; the offending key, and no request at all,
      when the filter is refused; otherwise what `fetch` delivers for the
      request URL `requested`, built from `name` and the filter. */
  ghost predicate Delivers<T>(name: string, query: Query, fetch: string -> Result<T, string>,
                              requested: Option<string>, shape: Option<T>, err: Option<Error>)
  {
    && Answers(query, shape, err)
    && (requested.None? <==> !AcceptedQuery(query))
    && (requested.Some? ==>
          IsRequestUrl(requested.value, name, query) && (shape, err) == Reply(Received(fetch(requested.value))))
  }

  /** The part of `Delivers` about the pair alone: a document exactly when
      there is no error, and the offending key when the filter is refused.
      The accessors state it on its own as well, because it speaks only of
      the pair they return and not of the ghost URL `requested`. */
  predicate Answers<T>(query: Query, shape: Option<T>, err: Option<Error>)
  {
    && (shape.None? <==> err.Some?)
    && (!AcceptedQuery(query) ==> err.Some? && err.value.InvalidParameter? && Offending(query, err.value.key))
  }

  /** The accessor body every `Get*` function shares. */
  method Dispatch<T>(name: string, query: Query, fetch: string -> Result<T, string>)
    returns (shape: Option<T>, err: Option<Error>, ghost requested: Option<string>)
    requires name in ValidMethods
    ensures Answers(query, shape, err)
    ensures Delivers(name, query, fetch, requested, shape, err)
  {
    var r;
    r, requested := ExecuteRequest(name, query, fetch);
    if r.Failure? {
      shape, err := None, Some(r.error);
    } else {
      shape, err := Some(r.value), None;
    }
    assert (shape, err) == Reply(r);
  }

  /** An accessor never reports an empty or unknown method, since each
      passes one of the six names: its errors are a refused filter key or
      an error of the round trip. */
  lemma AccessorErrors<T>(name: string, query: Query, fetch: string -> Result<T, string>,
                          requested: Option<string>, shape: Option<T>, err: Option<Error>)
    requires Delivers(name, query, fetch, requested, shape, err)
    requires err.Some?
    ensures err.value.InvalidParameter? || err.value.Remote?
    ensures err.value.InvalidParameter? ==> Offending(query, err.value.key)
  {
  }

  method GetSummary<Summary>(query: Query, fetch: string -> Result<Summary, string>)
    returns (summary: Option<Summary>, err: Option<Error>, ghost requested: Option<string>)
    ensures Answers(query, summary, err)
    ensures Delivers("summary", query, fetch, requested, summary, err)
  {
    summary, err, requested := Dispatch("summary", query, fetch);
  }

  method GetDetails<Details>(query: Query, fetch: string -> Result<Details, string>)
    returns (details: Option<Details>, err: Option<Error>, ghost requested: Option<string>)
    ensures Answers(query, details, err)
    ensures Delivers("details", query, fetch, requested, details, err)
  {
    details, err, requested := Dispatch("details", query, fetch);
  }

  method GetBandwidth<Bandwidth>(query: Query, fetch: string -> Result<Bandwidth, string>)
    returns (bandwidth: Option<Bandwidth>, err: Option<Error>, ghost requested: Option<string>)
    ensures Answers(query, bandwidth, err)
    ensures Delivers("bandwidth", query, fetch, requested, bandwidth, err)
  {
    bandwidth, err, requested := Dispatch("bandwidth", query, fetch);
  }

  method GetWeights<Weights>(query: Query, fetch: string -> Result<Weights, string>)
    returns (weights: Option<Weights>, err: Option<Error>, ghost requested: Option<string>)
    ensures Answers(query, weights, err)
    ensures Delivers("weights", query, fetch, requested, weights, err)
  {
    weights, err, requested := Dispatch("weights", query, fetch);
  }

  method GetClients<Clients>(query: Query, fetch: string -> Result<Clients, string>)
    returns (clients: Option<Clients>, err: Option<Error>, ghost requested: Option<string>)
    ensures Answers(query, clients, err)
    ensures Delivers("clients", query, fetch, requested, clients, err)
  {
    clients, err, requested := Dispatch("clients", query, fetch);
  }

  method GetUptime<Uptime>(query: Query, fetch: string -> Result<Uptime, string>)
    returns (uptime: Option<Uptime>, err: Option<Error>, ghost requested: Option<string>)
    ensures Answers(query, uptime, err)
    ensures Delivers("uptime", query, fetch, requested, uptime, err)
  {
    uptime, err, requested := Dispatch("uptime", query, fetch);
  }
}
