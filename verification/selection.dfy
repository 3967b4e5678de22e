/**
 * The two closed vocabularies of the ticket store: movie genres and theater
 * types, their display names, and the store's exact (case-sensitive) lookup
 * of a name into an index of its tables.
 */
module Selection {
  import opened Wrappers

  datatype Genre = Action | Comedy | Drama
  datatype Theater = Cinema | IMAX

  /** The genres in the order of the store's first table dimension. */
  const Genres: seq<Genre> := [Action, Comedy, Drama]
  /** The theater types in the order of the store's second table dimension. */
  const Theaters: seq<Theater> := [Cinema, IMAX]

  function GenreName(g: Genre): string
  {
    match g
    case Action => "Action"
    case Comedy => "Comedy"
    case Drama => "Drama"
  }

  function TheaterName(t: Theater): string
  {
    match t
    case Cinema => "Cinema"
    case IMAX => "IMAX"
  }

  /** The `switch (genre)` of `getGenreIndex`: a name matches only when spelled exactly. */
  function ParseGenre(s: string): Option<Genre>
  {
    if s == "Action" then Some(Action)
    else if s == "Comedy" then Some(Comedy)
    else if s == "Drama" then Some(Drama)
    else None
  }

  /** The `switch (theater)` of `getTheaterIndex`. */
  function ParseTheater(s: string): Option<Theater>
  {
    if s == "Cinema" then Some(Cinema)
    else if s == "IMAX" then Some(IMAX)
    else None
  }

  /** The position of a genre in the store's tables. */
  function GenreIndex(g: Genre): (i: nat)
    ensures i < |Genres| && Genres[i] == g
  {
    match g
    case Action => 0
    case Comedy => 1
    case Drama => 2
  }

  /** The position of a theater type in the store's tables. */
  function TheaterIndex(t: Theater): (i: nat)
    ensures i < |Theaters| && Theaters[i] == t
  {
    match t
    case Cinema => 0
    case IMAX => 1
  }

  /** `getGenreIndex`: the table index of the named genre, or -1 when no genre has that name. */
  function GetGenreIndex(genre: string): (r: int)
    ensures -1 <= r < |Genres|
    ensures r != -1 ==> GenreName(Genres[r]) == genre
    ensures r == -1 <==> forall g :: GenreName(g) != genre
  {
    match ParseGenre(genre)
    case Some(g) => GenreIndex(g)
    case None => -1
  }

  /** `getTheaterIndex`: the table index of the named theater type, or -1 when no type has that name. */
  function GetTheaterIndex(theater: string): (r: int)
    ensures -1 <= r < |Theaters|
    ensures r != -1 ==> TheaterName(Theaters[r]) == theater
    ensures r == -1 <==> forall t :: TheaterName(t) != theater
  {
    match ParseTheater(theater)
    case Some(t) => TheaterIndex(t)
    case None => -1
  }

  /** A genre is recognised exactly when the string is its name, spelled exactly. */
  lemma ParseGenreExact(s: string, g: Genre)
    ensures ParseGenre(s) == Some(g) <==> s == GenreName(g)
  {
  }

  /** A theater type is recognised exactly when the string is its name, spelled exactly. */
  lemma ParseTheaterExact(s: string, t: Theater)
    ensures ParseTheater(s) == Some(t) <==> s == TheaterName(t)
  {
  }

  /**
   * `getGenreIndex` returns -1 for every string but the three names, and for
   * those the position of that genre in the store's tables.
   */
  lemma GenreIndexLookup(genre: string)
    ensures var r := GetGenreIndex(genre);
      && -1 <= r < |Genres|
      && (r == -1 <==> genre !in {"Action", "Comedy", "Drama"})
      && (r != -1 ==> GenreName(Genres[r]) == genre)
  {
  }

  /**
   * `getTheaterIndex` returns -1 for every string but the two names, and for
   * those the position of that theater type in the store's tables.
   */
  lemma TheaterIndexLookup(theater: string)
    ensures var r := GetTheaterIndex(theater);
      && -1 <= r < |Theaters|
      && (r == -1 <==> theater !in {"Cinema", "IMAX"})
      && (r != -1 ==> TheaterName(Theaters[r]) == theater)
  {
  }
}
