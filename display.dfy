/** The two display helpers the movie card and the detail view inline: the poster
    image URL and the release year (src/mvrec_react_app.js, lines 5, 95, 114, 136, 154). */
module Display {
  import opened Movies

  const ImageBase: string := "https://image.tmdb.org/t/p/w500"
  const CardPlaceholder: string := "https://via.placeholder.com/500x750?text=No+Poster"
  const DetailsPlaceholder: string := "https://via.placeholder.com/500x750"

  /** `movie.poster_path` is truthy: present and not the empty string. */
  predicate HasPoster(path: Option<string>) {
    path.Some? && path.value != ""
  }

  /** `poster_path ? `${TMDB_IMAGE_BASE}${poster_path}` : placeholder` */
  function PosterUrl(path: Option<string>, placeholder: string): (url: string)
    ensures HasPoster(path) ==> ImageBase <= url && url[|ImageBase|..] == path.value
    ensures !HasPoster(path) ==> url == placeholder
  {
    if HasPoster(path) then ImageBase + path.value else placeholder
  }

  /** The poster URL of a movie card: the poster path can be read back from it, and a
      missing or empty path yields the placeholder, which no real path is confused with. */
  function CardPosterUrl(path: Option<string>): (url: string)
    ensures PosterPathOf(url) == if HasPoster(path) then path else None
    ensures !HasPoster(path) ==> url == CardPlaceholder
  {
    PlaceholdersAreNotImages();
    PosterUrl(path, CardPlaceholder)
  }

  /** The poster URL of the detail view, with the same round trip. */
  function DetailsPosterUrl(path: Option<string>): (url: string)
    ensures PosterPathOf(url) == if HasPoster(path) then path else None
    ensures !HasPoster(path) ==> url == DetailsPlaceholder
  {
    PlaceholdersAreNotImages();
    PosterUrl(path, DetailsPlaceholder)
  }

  /** Reads the poster path back out of an image URL; `None` for any other URL. */
  function PosterPathOf(url: string): Option<string> {
    if ImageBase < url then Some(url[|ImageBase|..]) else None
  }

  /** Neither placeholder can be mistaken for an image-host URL. */
  lemma PlaceholdersAreNotImages()
    ensures !(ImageBase <= CardPlaceholder) && !(ImageBase <= DetailsPlaceholder)
  {
    assert ImageBase[8] == 'i' && CardPlaceholder[8] == 'v' && DetailsPlaceholder[8] == 'v';
  }

  /** `date.split('-')[0]`: the text before the first `-`, or all of it. */
  function BeforeFirstDash(date: string): (year: string)
    ensures year <= date && '-' !in year
    ensures |year| < |date| ==> date[|year|] == '-'
  {
    if |date| == 0 || date[0] == '-' then [] else [date[0]] + BeforeFirstDash(date[1..])
  }

  /** `movie.release_date?.split('-')[0]`: nothing when the date is missing. */
  function ReleaseYear(date: Option<string>): (year: Option<string>)
    ensures year.None? <==> date.None?
    ensures year.Some? ==> year.value <= date.value && '-' !in year.value
    ensures year.Some? && |year.value| < |date.value| ==> date.value[|year.value|] == '-'
  {
    match date
    case None => None
    case Some(d) => Some(BeforeFirstDash(d))
  }

  /** The three properties of `BeforeFirstDash` single out its result. */
  lemma BeforeFirstDashUnique(date: string, year: string)
    requires year <= date && '-' !in year
    requires |year| < |date| ==> date[|year|] == '-'
    ensures BeforeFirstDash(date) == year
  {
  }

  /** An ISO date `YYYY-MM-DD` shows as its year. */
  lemma ReleaseYearOfIsoDate(year: string, rest: string)
    requires '-' !in year
    ensures ReleaseYear(Some(year + "-" + rest)) == Some(year)
  {
    var date := year + "-" + rest;
    assert date[|year|] == '-';
    BeforeFirstDashUnique(date, year);
  }
}
