/**
 * `MovieFactory.createMovie`: a genre name, compared without regard to case,
 * chooses one of three movie kinds; any other name gives null.
 */
module MovieFactory {
  import opened Wrappers
  import opened JavaText
  import Selection

  /** The three `Movie` subclasses the factory can return. */
  datatype Movie = ActionMovie | ComedyMovie | DramaMovie

  /** `createMovie`: `None` stands for the null result. */
  function CreateMovie(genre: string): (r: Option<Movie>)
    ensures r == Some(ActionMovie) <==> IsCaseVariant(genre, "Action")
    ensures r == Some(ComedyMovie) <==> IsCaseVariant(genre, "Comedy")
    ensures r == Some(DramaMovie) <==> IsCaseVariant(genre, "Drama")
    ensures r == None <==>
      !IsCaseVariant(genre, "Action") && !IsCaseVariant(genre, "Comedy") && !IsCaseVariant(genre, "Drama")
  {
    EqualsIgnoreCaseIsCaseVariant(genre, "Action");
    EqualsIgnoreCaseIsCaseVariant(genre, "Comedy");
    EqualsIgnoreCaseIsCaseVariant(genre, "Drama");
    if EqualsIgnoreCase(genre, "Action") then Some(ActionMovie)
    else if EqualsIgnoreCase(genre, "Comedy") then Some(ComedyMovie)
    else if EqualsIgnoreCase(genre, "Drama") then Some(DramaMovie)
    else None
  }

  /** The movie kind of each genre of the ticket store. */
  function MovieOf(g: Selection.Genre): Movie
  {
    match g
    case Action => ActionMovie
    case Comedy => ComedyMovie
    case Drama => DramaMovie
  }

  /**
   * The factory accepts every genre name the store recognises, as the same
   * genre; the converse fails, since the store's lookup is case-sensitive
   * ("action" is a movie but not a store genre).
   */
  lemma StoreGenresAreFactoryGenres(genre: string)
    ensures Selection.ParseGenre(genre).Some? ==>
      CreateMovie(genre) == Some(MovieOf(Selection.ParseGenre(genre).value))
  {
    if Selection.ParseGenre(genre).Some? {
      CaseVariantOfItself(genre);
    }
  }

  /** "action" is accepted by the factory but is not a name the store recognises. */
  lemma FactoryAloneIgnoresCase()
    ensures CreateMovie("action") == Some(ActionMovie) && Selection.ParseGenre("action") == None
  {
    assert IsCaseVariant("action", "Action");
  }
}
