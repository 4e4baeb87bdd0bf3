/** The HTTP boundary to the API server. Requests are values the console sends;
    replies are values handed to the model, never fetched by it. */
module Http {
  import opened Common

  /** The `params` object of a list call; `None` is a missing (undefined) property. */
  datatype ListParams = ListParams(page: Option<int>, limit: Option<int>, search: Option<string>)

  /** The query string actually sent: `?page=..&limit=..&search=..`. */
  datatype Query = Query(page: int, limit: int, search: string)

  /** Destructuring with defaults, `{ page = 1, limit = 10, search = '' } = params`:
      a default replaces only a missing property, so a supplied `0` or `''` is kept. */
  function WithDefaults(p: ListParams): (q: Query)
    ensures p.page.Some? ==> q.page == p.page.value
    ensures p.page.None? ==> q.page == 1
    ensures p.limit.Some? ==> q.limit == p.limit.value
    ensures p.limit.None? ==> q.limit == 10
    ensures p.search.Some? ==> q.search == p.search.value
    ensures p.search.None? ==> q.search == ""
  {
    Query(
      match p.page case Some(n) => n case None => 1,
      match p.limit case Some(n) => n case None => 10,
      match p.search case Some(s) => s case None => "")
  }

  /** Params built from three supplied arguments, as every page passes them. */
  function Given(page: int, limit: int, search: string): ListParams
  {
    ListParams(Some(page), Some(limit), Some(search))
  }

  /** A request to the API server: the collection path, and for `Put`/`Delete` the id
      appended to it (`None` when the id is undefined). */
  datatype Request =
    | GetList(path: string, query: Query)
    | Post(path: string, body: Record)
    | Put(path: string, id: Option<Value>, body: Record)
    | Delete(path: string, id: Option<Value>)

  /** A rejected call; `error` is the server's `response.data.error`, when it has one. */
  datatype ServerError = ServerError(error: Option<string>)

  /** The outcome of an awaited call: the response body, or the thrown error. */
  datatype Reply<T> = Ok(body: T) | Thrown(failure: ServerError)

  /** `error.response?.data?.error || fallback`. */
  function ErrorText(e: ServerError, fallback: string): (t: string)
    ensures NonEmpty(e.error) ==> t == e.error.value
    ensures !NonEmpty(e.error) ==> t == fallback
  {
    if NonEmpty(e.error) then e.error.value else fallback
  }
}
