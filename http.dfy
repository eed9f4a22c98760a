/** Values the worker exchanges with the page, the network and the caches. */
module Http {

  datatype Option<+T> = None | Some(value: T)

  /**
    A response snapshot. The worker never mutates a response; what it stores
    in a cache is an independent copy (`response.clone()` in the worker),
    which as a value is the response itself.
   */
  datatype Response = Response(status: int, contentType: string, body: string)
  {
    /** The Fetch API's `ok` flag: the status lies in 200-299. */
    predicate Ok() { 200 <= status <= 299 }
  }

  /**
    What one call of `fetch` produced. An HTTP error status still resolves
    the promise (`Fetched`); only a network failure rejects it.
   */
  datatype FetchOutcome = Fetched(response: Response) | NetworkError
  {
    /** The response is there and `ok`: one of the conditions `Cache.addAll` demands of every URL. */
    predicate Succeeded() { Fetched? && response.Ok() }
  }
}
