/**
 * `TheaterFactory.createTheater`: a theater type, compared without regard to
 * case, chooses one of two theater kinds; any other name gives null.
 */
module TheaterFactory {
  import opened Wrappers
  import opened JavaText
  import Selection

  /** The two `Theater` subclasses the factory can return. */
  datatype TheaterKind = CinemaHall | IMAXTheater

  /** `createTheater`: `None` stands for the null result. */
  function CreateTheater(theaterType: string): (r: Option<TheaterKind>)
    ensures r == Some(CinemaHall) <==> IsCaseVariant(theaterType, "Cinema")
    ensures r == Some(IMAXTheater) <==> IsCaseVariant(theaterType, "IMAX")
    ensures r == None <==> !IsCaseVariant(theaterType, "Cinema") && !IsCaseVariant(theaterType, "IMAX")
  {
    EqualsIgnoreCaseIsCaseVariant(theaterType, "Cinema");
    EqualsIgnoreCaseIsCaseVariant(theaterType, "IMAX");
    if EqualsIgnoreCase(theaterType, "Cinema") then Some(CinemaHall)
    else if EqualsIgnoreCase(theaterType, "IMAX") then Some(IMAXTheater)
    else None
  }

  /** The theater kind of each theater type of the ticket store. */
  function TheaterKindOf(t: Selection.Theater): TheaterKind
  {
    match t
    case Cinema => CinemaHall
    case IMAX => IMAXTheater
  }

  /**
   * The factory accepts every theater type the store recognises, as the same
   * type; the converse fails, since the store's lookup is case-sensitive
   * ("imax" is a theater but not a store theater type).
   */
  lemma StoreTheatersAreFactoryTheaters(theaterType: string)
    ensures Selection.ParseTheater(theaterType).Some? ==>
      CreateTheater(theaterType) == Some(TheaterKindOf(Selection.ParseTheater(theaterType).value))
  {
    if Selection.ParseTheater(theaterType).Some? {
      CaseVariantOfItself(theaterType);
    }
  }

  /** "imax" is accepted by the factory but is not a name the store recognises. */
  lemma FactoryAloneIgnoresCase()
    ensures CreateTheater("imax") == Some(IMAXTheater) && Selection.ParseTheater("imax") == None
  {
    assert IsCaseVariant("imax", "IMAX");
  }
}
