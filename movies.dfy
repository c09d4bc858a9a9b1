/** Values exchanged with the movie-data service, as the component sees them. */
module Movies {

  datatype Option<+T> = None | Some(value: T) {
    function GetOr(default: T): T {
      match this
      case Some(v) => v
      case None => default
    }
  }

  /** A movie as listed by the trending, search and recommendation endpoints, or as
      returned by the detail endpoint (the fields the logic reads; `vote_average`
      and the detail-only display fields are not modelled). */
  datatype Movie = Movie(id: int, title: string, posterPath: Option<string>, releaseDate: Option<string>)

  /** A list response `{ results: [...] }`; the `results` field may be missing. */
  datatype Page = Page(results: Option<seq<Movie>>)

  /** A JSON body that parsed: either the literal `null`, on which reading `.results`
      throws, or any other value. A number, string, boolean or array has no `results`
      either, so it behaves as an object without that field: `Object(Page(None))`. */
  datatype Json<+T> = Null | Object(value: T)

  /** The outcome of `fetch` followed by `response.json()`: it rejects (network error,
      malformed body), or it yields a parsed body. */
  datatype Response<+T> = Failed | Parsed(body: Json<T>)

  /** The HTTP GET requests the component issues. */
  datatype Request =
    | TrendingRequest
    | SearchRequest(query: string)
    | DetailsRequest(movieId: int)
    | RecommendationsRequest(movieId: int)

  /** `data.results || []` */
  function ResultsOrEmpty(p: Page): (r: seq<Movie>)
    ensures p.results.Some? ==> r == p.results.value
    ensures p.results.None? ==> r == []
  {
    p.results.GetOr([])
  }
}
