/** The component's view state and the transitions its handlers make, with each network
    call replaced by its outcome (src/mvrec_react_app.js, lines 9-86). These functions
    specify the methods of `App.MvRecApp`. */
module ViewState {
  import opened Movies
  import Favorites
  import Query

  /** `activeTab`: 'trending', 'search', 'details' or 'favorites'. */
  datatype Tab = TrendingTab | SearchTab | DetailsTab | FavoritesTab

  /** The eight `useState` cells of the component (lines 9-16). */
  datatype State = State(
    searchQuery: string,
    movies: seq<Movie>,
    trending: seq<Movie>,
    selectedMovie: Option<Movie>,
    recommendations: seq<Movie>,
    loading: bool,
    activeTab: Tab,
    favorites: seq<Movie>)

  /** The state on mount: empty lists, nothing selected, the trending tab. */
  const Initial: State := State("", [], [], None, [], false, TrendingTab, [])

  /** A transition's new state and the requests it issued, in order. */
  datatype Step = Step(state: State, sent: seq<Request>)

  /** The response yielded an object, so reading `.results` from it does not throw. */
  predicate Loaded<T>(r: Response<T>) {
    r.Parsed? && r.body.Object?
  }

  /** What `setSelectedMovie(details)` stores: a JSON `null` body stores null. */
  function Selection(body: Json<Movie>): Option<Movie> {
    match body
    case Null => None
    case Object(m) => Some(m)
  }

  /** `fetchTrending` (lines 22-34): one request; on success the trending list becomes
      the results (empty when absent) and the trending tab is shown; a rejected request
      or a `null` body (reading `.results` throws) changes nothing but `loading`. */
  function FetchTrending(s: State, r: Response<Page>): (t: Step)
    ensures t.sent == [TrendingRequest]
    ensures !t.state.loading
    ensures t.state.activeTab == if Loaded(r) then TrendingTab else s.activeTab
    ensures Loaded(r) ==> t.state.trending == ResultsOrEmpty(r.body.value) && t.state.activeTab == TrendingTab
    ensures !Loaded(r) ==> t.state == s.(loading := false)
    ensures t.state.(trending := s.trending, activeTab := s.activeTab) == s.(loading := false)
  {
    var next := match r
      case Parsed(Object(page)) => s.(trending := ResultsOrEmpty(page), activeTab := TrendingTab)
      case _ => s;
    Step(next.(loading := false), [TrendingRequest])
  }

  /** `searchMovies` (lines 36-49): a blank query (one whose `trim()` is empty, by
      `Query.TrimEmptyIffBlank`) is a no-op that sends nothing;
      otherwise one request carrying the query as typed, and on success the search
      results replace `movies` and the search tab is shown. */
  function SearchMovies(s: State, r: Response<Page>): (t: Step)
    ensures Query.IsBlank(s.searchQuery) ==> t == Step(s, [])
    ensures !Query.IsBlank(s.searchQuery) ==>
      && t.sent == [SearchRequest(s.searchQuery)]
      && !t.state.loading
      && t.state.activeTab == (if Loaded(r) then SearchTab else s.activeTab)
      && (Loaded(r) ==> t.state.movies == ResultsOrEmpty(r.body.value) && t.state.activeTab == SearchTab)
      && (!Loaded(r) ==> t.state == s.(loading := false))
      && t.state.(movies := s.movies, activeTab := s.activeTab) == s.(loading := false)
  {
    if Query.IsBlank(s.searchQuery) then Step(s, [])
    else
      var next := match r
        case Parsed(Object(page)) => s.(movies := ResultsOrEmpty(page), activeTab := SearchTab)
        case _ => s;
      Step(next.(loading := false), [SearchRequest(s.searchQuery)])
  }

  /** `fetchMovieDetails(movieId)` (lines 57-74): both requests are issued together.
      If either rejects, nothing but `loading` changes. If both parse and the
      recommendations body is an object, the selection, the recommendations (empty
      when absent) and the details tab are written together. If the recommendations
      body is `null`, `setSelectedMovie` has already run when `recs.results` throws,
      so only the selection changes. */
  function FetchMovieDetails(s: State, movieId: int, details: Response<Movie>, recs: Response<Page>): (t: Step)
    ensures t.sent == [DetailsRequest(movieId), RecommendationsRequest(movieId)]
    ensures !t.state.loading
    ensures t.state.activeTab == if details.Parsed? && Loaded(recs) then DetailsTab else s.activeTab
    ensures details.Parsed? && Loaded(recs) ==>
      && t.state.selectedMovie == Selection(details.body)
      && t.state.recommendations == ResultsOrEmpty(recs.body.value)
      && t.state.activeTab == DetailsTab
    ensures details.Failed? || recs.Failed? ==> t.state == s.(loading := false)
    ensures details.Parsed? && recs.Parsed? && recs.body.Null? ==>
      t.state == s.(selectedMovie := Selection(details.body), loading := false)
    ensures t.state.(selectedMovie := s.selectedMovie, recommendations := s.recommendations,
                     activeTab := s.activeTab) == s.(loading := false)
  {
    var next := match (details, recs)
      case (Parsed(d), Parsed(Object(page))) =>
        s.(selectedMovie := Selection(d), recommendations := ResultsOrEmpty(page), activeTab := DetailsTab)
      case (Parsed(d), Parsed(Null)) => s.(selectedMovie := Selection(d))
      case _ => s;
    Step(next.(loading := false), [DetailsRequest(movieId), RecommendationsRequest(movieId)])
  }

  /** The user actions the component handles, each with the outcome of the requests
      it issues. */
  datatype Event =
    | TypeQuery(query: string)                                            // line 232
    | ClickTrending(trendingResponse: Response<Page>)                     // lines 19, 253
    | SubmitSearch(searchResponse: Response<Page>)                        // lines 51-55, 239
    | OpenMovie(movieId: int, details: Response<Movie>, recs: Response<Page>)  // lines 91, 196, 303, 315
    | ToggleFavorite(movie: Movie)                                        // lines 102, 177
    | ShowFavorites                                                       // line 216
    | BackToTrending                                                      // line 127

  /** One user action. Only a toggle changes the favorites, only the loaders send
      requests, and every action keeps `Valid`. */
  function Apply(s: State, e: Event): (t: Step)
    ensures !e.ToggleFavorite? ==> t.state.favorites == s.favorites
    ensures !(e.ClickTrending? || e.SubmitSearch? || e.OpenMovie?) ==> t.sent == []
    ensures Valid(s) ==> Valid(t.state)
  {
    match e
    case TypeQuery(q) => Step(s.(searchQuery := q), [])
    case ClickTrending(r) => FetchTrending(s, r)
    case SubmitSearch(r) => SearchMovies(s, r)
    case OpenMovie(id, d, r) => FetchMovieDetails(s, id, d, r)
    case ToggleFavorite(m) => Step(s.(favorites := Favorites.Toggle(s.favorites, m)), [])
    case ShowFavorites => Step(s.(activeTab := FavoritesTab), [])
    case BackToTrending => Step(s.(activeTab := TrendingTab), [])
  }

  /** The state after a sequence of user actions. */
  function Run(s: State, es: seq<Event>): State
    decreases |es|
  {
    if |es| == 0 then s else Run(Apply(s, es[0]).state, es[1..])
  }

  /** Between handlers: no two favorites share an id and no load is outstanding. */
  predicate Valid(s: State) {
    Favorites.UniqueIds(s.favorites) && !s.loading
  }

  /** Every state the component can reach from mount satisfies `Valid`. */
  lemma {:induction false} RunKeepsValid(s: State, es: seq<Event>)
    requires Valid(s)
    ensures Valid(Run(s, es))
    decreases |es|
  {
    if |es| > 0 {
      RunKeepsValid(Apply(s, es[0]).state, es[1..]);
    }
  }

  lemma ReachableIsValid(es: seq<Event>)
    ensures Valid(Run(Initial, es))
  {
    RunKeepsValid(Initial, es);
  }

  /** The details tab is entered only by opening a movie whose two responses both parsed,
      the recommendations to an object. */
  lemma DetailsEnteredOnlyByOpenMovie(s: State, e: Event)
    requires s.activeTab != DetailsTab
    ensures Apply(s, e).state.activeTab == DetailsTab ==> e.OpenMovie? && e.details.Parsed? && Loaded(e.recs)
  {
  }

  /** `fetch` resolves on an HTTP error status and `response.ok` is never read, so an
      error body such as `{ "status_message": ... }` parses to an object without `results`:
      the list is cleared and its tab shown, rather than left as it was. */
  lemma ErrorBodyClearsList(s: State)
    ensures var t := FetchTrending(s, Parsed(Object(Page(None)))).state;
            t.trending == [] && t.activeTab == TrendingTab
    ensures !Query.IsBlank(s.searchQuery) ==>
            var t := SearchMovies(s, Parsed(Object(Page(None)))).state;
            t.movies == [] && t.activeTab == SearchTab
  {
  }

  /** The all-or-nothing update has one exception: with the recommendations body `null`,
      the detail view keeps the previous movie's recommendations beside the new movie. */
  lemma DetailsPartialUpdate()
    ensures var a := Movie(1, "A", None, None);
            var b := Movie(2, "B", None, None);
            var x := Movie(3, "X", None, None);
            var s := Initial.(selectedMovie := Some(a), recommendations := [x], activeTab := DetailsTab);
            var t := FetchMovieDetails(s, 2, Parsed(Object(b)), Parsed(Null)).state;
            t.selectedMovie == Some(b) && t.recommendations == [x] && t.activeTab == DetailsTab
  {
  }

  /** A `null` details body with loaded recommendations shows the details tab with no
      selection (the render then falls back to the movie grid, line 289). */
  lemma DetailsTabWithoutSelection(s: State, movieId: int, page: Page)
    ensures var t := FetchMovieDetails(s, movieId, Parsed(Null), Parsed(Object(page))).state;
            t.activeTab == DetailsTab && t.selectedMovie == None
  {
  }
}
