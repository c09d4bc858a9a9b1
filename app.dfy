/** The component itself: its state cells as fields and its handlers as methods that
    update them step by step (src/mvrec_react_app.js, lines 8-86, 127, 216, 232).
    Each handler is proved to make the transition `ViewState` specifies. */
module App {
  import opened Movies
  import Favorites
  import Query
  import ViewState

  class MvRecApp {
    var searchQuery: string
    var movies: seq<Movie>
    var trending: seq<Movie>
    var selectedMovie: Option<Movie>
    var recommendations: seq<Movie>
    var loading: bool
    var activeTab: ViewState.Tab
    var favorites: seq<Movie>

    /** The fields as one view-state value. */
    function State(): ViewState.State
      reads this
    {
      ViewState.State(searchQuery, movies, trending, selectedMovie, recommendations,
                      loading, activeTab, favorites)
    }

    /** `isFavorite(movieId)` over the current favorites. */
    function IsFavorite(movieId: int): (b: bool)
      reads this
      ensures b <==> exists i :: 0 <= i < |favorites| && favorites[i].id == movieId
    {
      Favorites.IsFavorite(favorites, movieId)
    }

    /** The `useState` initial values (lines 9-16). */
    constructor ()
      ensures State() == ViewState.Initial
    {
      searchQuery := "";
      movies := [];
      trending := [];
      selectedMovie := None;
      recommendations := [];
      loading := false;
      activeTab := ViewState.TrendingTab;
      favorites := [];
    }

    /** The search box's `onChange` (line 232). */
    method SetSearchQuery(query: string)
      modifies this
      ensures State() == ViewState.Apply(old(State()), ViewState.TypeQuery(query)).state
    {
      searchQuery := query;
    }

    /** `fetchTrending`, the response of its request given as `response`. */
    method FetchTrending(response: Response<Page>) returns (sent: seq<Request>)
      modifies this
      ensures ViewState.Step(State(), sent) == ViewState.FetchTrending(old(State()), response)
    {
      loading := true;
      sent := [TrendingRequest];
      if response.Parsed? && response.body.Object? {
        trending := ResultsOrEmpty(response.body.value);
        activeTab := ViewState.TrendingTab;
      }
      loading := false;
    }

    /** `searchMovies`, the response of its request given as `response` (unused when
        the query is blank). */
    method SearchMovies(response: Response<Page>) returns (sent: seq<Request>)
      modifies this
      ensures ViewState.Step(State(), sent) == ViewState.SearchMovies(old(State()), response)
    {
      Query.TrimEmptyIffBlank(searchQuery);
      if Query.Trim(searchQuery) == [] {
        return [];
      }
      loading := true;
      sent := [SearchRequest(searchQuery)];
      if response.Parsed? && response.body.Object? {
        movies := ResultsOrEmpty(response.body.value);
        activeTab := ViewState.SearchTab;
      }
      loading := false;
    }

    /** `fetchMovieDetails(movieId)`, the responses of its two requests given as
        `details` and `recs`. */
    method FetchMovieDetails(movieId: int, details: Response<Movie>, recs: Response<Page>)
      returns (sent: seq<Request>)
      modifies this
      ensures ViewState.Step(State(), sent) == ViewState.FetchMovieDetails(old(State()), movieId, details, recs)
    {
      loading := true;
      sent := [DetailsRequest(movieId), RecommendationsRequest(movieId)];
      if details.Parsed? && recs.Parsed? {
        selectedMovie := ViewState.Selection(details.body);
        if recs.body.Object? {
          recommendations := ResultsOrEmpty(recs.body.value);
          activeTab := ViewState.DetailsTab;
        }
      }
      loading := false;
    }

    /** `toggleFavorite(movie)` (lines 76-84). */
    method ToggleFavorite(movie: Movie)
      modifies this
      ensures State() == ViewState.Apply(old(State()), ViewState.ToggleFavorite(movie)).state
      ensures IsFavorite(movie.id) <==> !old(IsFavorite(movie.id))
    {
      favorites := Favorites.Toggle(favorites, movie);
    }

    /** The Favorites button in the header (line 216). */
    method ShowFavorites()
      modifies this
      ensures State() == ViewState.Apply(old(State()), ViewState.ShowFavorites).state
    {
      activeTab := ViewState.FavoritesTab;
    }

    /** The detail view's back link (line 127): shows the trending tab without fetching. */
    method BackToTrending()
      modifies this
      ensures State() == ViewState.Apply(old(State()), ViewState.BackToTrending).state
    {
      activeTab := ViewState.TrendingTab;
    }
  }
}
