# MvRec view logic in Dafny

A model of the logic inside `MvRecApp`, the single React component of the NextFlix movie
browser. The model covers three parts:

- **Favorites**: a list of movies kept in insertion order and keyed by `id`. `toggleFavorite`
  removes every entry with the movie's id, or appends the movie when the id is absent.
  `isFavorite` tests membership by id.
- **Loaders**: `fetchTrending`, `searchMovies` and `fetchMovieDetails` update the component's
  state cells (`activeTab`, `loading`, `trending`, `movies`, `selectedMovie`,
  `recommendations`). Each `fetch` + `response.json()` becomes an input. The request either
  rejects, or it yields a parsed JSON body that is `null` or an object.
- **Display helpers**: the poster URL (image base plus path, or a placeholder) and the
  release year (the text before the first `-`).

Modules:

- `Movies` (`movies.dfy`): the data exchanged with the movie service.
- `Favorites` (`favorites.dfy`): pure list functions and the lemmas about them.
- `Display` (`display.dfy`): the poster URL and release year helpers.
- `Query` (`query.dfy`): ECMAScript `trim` and the blank-query guard.
- `ViewState` (`view_state.dfy`): the state record, and one transition function per
  handler. Each returns the new state and the requests sent.
- `App` (`app.dfy`): the class `MvRecApp`. Its fields are the state cells. Its handlers
  update them step by step (`loading := true`, the writes, `loading := false`). Each
  handler is proved to make the `ViewState` transition.

The model follows the code, including where it departs from how the component is usually described:

- Toggling a favorite twice does not always restore the list. It restores it when the movie
  was absent. With distinct ids, it also restores it when the movie was present as the last
  entry. Otherwise the same ids come back, but the movie now sits at the end
  (`DoubleTogglePresent`, `DoubleTogglePresentRestores`, `DoubleToggleMovesToEnd`).
- An HTTP error status does not leave the lists alone. `fetch` resolves on 4xx and 5xx, and
  the code never reads `response.ok`. An error body that is a JSON object has no `results`,
  so the trending or search list is cleared and its tab shown (`ErrorBodyClearsList`). Only
  a network error, a body that is not JSON, or a JSON `null` body leaves the lists unchanged.
- `fetchMovieDetails` is all-or-nothing except in one case. If the recommendations body is
  JSON `null`, `setSelectedMovie` has already run when `recs.results` throws. The new movie
  is then shown with the previous movie's recommendations (`DetailsPartialUpdate`).
- A `null` details body with loaded recommendations sets the details tab with no
  selection. So "the details tab always has a selection" is not an invariant of the code
  (`DetailsTabWithoutSelection`).
- The search request carries the query as typed, not trimmed. Only the guard trims.

## Model

| member | source | states |
|---|---|---|
| Movies.ResultsOrEmpty | src/mvrec_react_app.js:28 | the response's results when the field is present, the empty list when it is absent |
| Favorites.IsFavorite | src/mvrec_react_app.js:86 | true exactly when some entry has the given id |
| Favorites.Find | src/mvrec_react_app.js:78 | finds nothing exactly when no entry has the id; otherwise it finds the first entry with that id |
| Favorites.RemoveId | src/mvrec_react_app.js:80 | the result holds exactly the entries whose id differs from the given one, and is no longer than the input |
| Favorites.Toggle | src/mvrec_react_app.js:76-84 | absent id: the movie is appended after the unchanged list; present id: the result is the filtered list, holding exactly the entries with other ids; membership of the id flips; distinct ids stay distinct |
| Favorites.RemoveIdAppend | src/mvrec_react_app.js:80 | filtering distributes over concatenation, so kept entries keep their relative order |
| Favorites.RemoveIdCons | src/mvrec_react_app.js:80 | filtering a list keeps its head exactly when the head's id differs, followed by the filtered tail |
| Favorites.RemoveIdAbsent | src/mvrec_react_app.js:80 | filtering out an id that is not present returns the same list |
| Favorites.RemoveIdKeepsUnique | src/mvrec_react_app.js:80 | filtering a list with distinct ids leaves distinct ids |
| Favorites.TogglesKeepUnique | src/mvrec_react_app.js:76-84 | any sequence of toggles keeps the ids distinct |
| Favorites.TogglesNeverDuplicate | src/mvrec_react_app.js:16-84 | from the initial empty list, no sequence of toggles yields two entries with one id |
| Favorites.DoubleToggleAbsent | src/mvrec_react_app.js:77-83 | toggling an absent movie twice returns exactly the original list |
| Favorites.DoubleTogglePresent | src/mvrec_react_app.js:77-83 | toggling a present movie twice gives the other entries in order followed by the movie, with the same set of ids |
| Favorites.DoubleTogglePresentRestores | src/mvrec_react_app.js:77-83 | with distinct ids, a double toggle of a present movie restores the list if and only if that movie was the last entry |
| Favorites.RemoveIdThenLast | src/mvrec_react_app.js:80-82 | with distinct ids, filtering out the last entry's id and appending that entry gives back the list |
| Favorites.DoubleToggleMovesToEnd | src/mvrec_react_app.js:77-83 | concretely, toggling the first of two favorites twice moves it behind the second |
| Display.PosterUrl | src/mvrec_react_app.js:95 | a non-empty path gives the image base followed by the path; a missing or empty path gives the placeholder |
| Display.CardPosterUrl | src/mvrec_react_app.js:95 | the card's URL gives back the poster path, a missing or empty path gives the card placeholder, and that placeholder is never confused with a real path |
| Display.DetailsPosterUrl | src/mvrec_react_app.js:136 | the same round trip for the detail view's URL and its placeholder |
| Display.PlaceholdersAreNotImages | src/mvrec_react_app.js:95-136 | neither placeholder URL starts with the image base |
| Display.BeforeFirstDash | src/mvrec_react_app.js:114 | the year is a prefix of the date, holds no `-`, and is followed by `-` unless it is the whole date |
| Display.ReleaseYear | src/mvrec_react_app.js:114 | `?.`: no year exactly when the date is missing; otherwise a dash-free prefix of the date, followed by `-` unless it is the whole date |
| Display.BeforeFirstDashUnique | src/mvrec_react_app.js:114 | those three properties determine the year uniquely |
| Display.ReleaseYearOfIsoDate | src/mvrec_react_app.js:114 | a date `YYYY-rest` with a dash-free year shows as that year |
| Query.TrimStart | src/mvrec_react_app.js:37 | removes a whitespace-only prefix and leaves a suffix that does not start with whitespace |
| Query.TrimEnd | src/mvrec_react_app.js:37 | removes a whitespace-only suffix and leaves a prefix that does not end with whitespace |
| Query.Trim | src/mvrec_react_app.js:37 | `trim()`: the part of the query left after dropping a whitespace-only head and a whitespace-only tail, and it neither starts nor ends with whitespace |
| Query.TrimEmptyIffBlank | src/mvrec_react_app.js:37 | the trimmed query is empty if and only if every character is ECMAScript whitespace |
| ViewState.FetchTrending | src/mvrec_react_app.js:22-34 | sends one trending request; on an object body, trending becomes the results (empty if absent) and the tab is trending; on rejection or a null body, only loading changes; loading ends false; nothing else changes |
| ViewState.SearchMovies | src/mvrec_react_app.js:36-49 | a blank query changes nothing and sends nothing; otherwise it sends the query as typed, and behaves as the trending loader does, for `movies` and the search tab |
| ViewState.FetchMovieDetails | src/mvrec_react_app.js:57-74 | sends the details and recommendations requests; if both parse with an object recommendations body, the selection, recommendations and details tab are written together; if either rejects, only loading changes; a null recommendations body writes the selection alone; loading ends false |
| ViewState.Apply | src/mvrec_react_app.js:127-232 | one user action (typing, the loaders, a toggle, the Favorites button, the back link): only a toggle changes the favorites, only the loaders send requests, and distinct favorite ids with loading false are kept |
| ViewState.RunKeepsValid | src/mvrec_react_app.js:16-86 | any sequence of user actions keeps that invariant |
| ViewState.ReachableIsValid | src/mvrec_react_app.js:9-16 | every state reachable from the initial state satisfies the invariant |
| ViewState.DetailsEnteredOnlyByOpenMovie | src/mvrec_react_app.js:67-69 | the details tab is entered only by opening a movie whose two responses parsed, with an object recommendations body |
| ViewState.ErrorBodyClearsList | src/mvrec_react_app.js:25-43 | an error response whose JSON object has no `results` clears the trending list (and, for a non-blank query, the search results) and shows that tab |
| ViewState.DetailsPartialUpdate | src/mvrec_react_app.js:67-68 | with a null recommendations body, the new movie is selected but the old recommendations remain |
| ViewState.DetailsTabWithoutSelection | src/mvrec_react_app.js:64-69 | a null details body with loaded recommendations shows the details tab with no selection |
| App.MvRecApp.constructor | src/mvrec_react_app.js:9-16 | starts with empty lists, no selection, not loading, on the trending tab |
| App.MvRecApp.IsFavorite | src/mvrec_react_app.js:86 | true exactly when some current favorite has the given id |
| App.MvRecApp.SetSearchQuery | src/mvrec_react_app.js:232 | stores the typed query and changes nothing else |
| App.MvRecApp.FetchTrending | src/mvrec_react_app.js:22-34 | the fields and the requests sent are those of `ViewState.FetchTrending` |
| App.MvRecApp.SearchMovies | src/mvrec_react_app.js:36-49 | the fields and the requests sent are those of `ViewState.SearchMovies` |
| App.MvRecApp.FetchMovieDetails | src/mvrec_react_app.js:57-74 | the fields and the requests sent are those of `ViewState.FetchMovieDetails` |
| App.MvRecApp.ToggleFavorite | src/mvrec_react_app.js:76-84 | favorites become `Favorites.Toggle` of the old list, nothing else changes, and `isFavorite` of the movie's id flips |
| App.MvRecApp.ShowFavorites | src/mvrec_react_app.js:216 | switches to the favorites tab and changes nothing else |
| App.MvRecApp.BackToTrending | src/mvrec_react_app.js:127 | switches to the trending tab without fetching and changes nothing else |

## Left out

- JSX rendering, CSS classes, the `MovieCard` and `MovieDetails` layouts and the icons: these are presentation.
- `fetch`, `response.json()`, the API base URL and `console.log`/`console.error`. These are network I/O and logging. Each request is an input outcome, and the requests issued are returned as values.
- The HTTP status itself. An error status with a JSON body is modelled as that parsed body, because the code never checks `response.ok`. A network error and a body that is not JSON both reject, and the code does not tell them apart, so the model has a single failure case for them.
- The contents of a parsed body beyond `results` and the movie fields the logic reads. A non-array `results` or a malformed movie object is not modelled.
- `vote_average?.toFixed(1)` and the detail-only fields (tagline, runtime, overview, genres): floating-point formatting and display text.
- `encodeURIComponent`: the model records the raw query in the search request.
- Asynchronous interleaving: overlapping loads, last-response-wins races and the missing cancellation are not modelled. Each handler runs to completion with its responses given, so `loading` is true only inside a handler.
- The `useEffect` mount trigger and `useState` batching: framework plumbing. The mount fetch is the same transition as clicking Trending.
- `handleSearchKeyPress` (lines 51-55) is modelled only as another way to submit a search; key events are not modelled.
