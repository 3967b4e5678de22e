/**
 * `MovieTicket`: an immutable ticket (genre, theater type, ticket number)
 * with a clone operation and a fixed text form.
 */
module Prototype {
  import opened Wrappers
  import opened JavaText

  const Prefix: string := "Ticket [Genre: "

  /** The characters after the last space of `s` (all of `s` when it has none). */
  function AfterLastSpace(s: string): (r: string)
    ensures ' ' !in r
  {
    if |s| == 0 || s[|s| - 1] == ' ' then ""
    else AfterLastSpace(s[..|s| - 1]) + [s[|s| - 1]]
  }

  lemma {:induction false} AfterLastSpaceOf(a: string, b: string)
    requires ' ' !in b
    ensures AfterLastSpace(a + " " + b) == b
    decreases |b|
  {
    var s := a + " " + b;
    if |b| == 0 {
      assert s[|s| - 1] == ' ';
    } else {
      var b' := b[..|b| - 1];
      assert s[..|s| - 1] == a + " " + b';
      assert b[|b| - 1] in b;
      AfterLastSpaceOf(a, b');
      assert b' + [b[|b| - 1]] == b;
    }
  }

  /** Reads the ticket number back from the text form: the number between the last space and the closing bracket. */
  function TicketNumberOf(text: string): Option<int>
  {
    if |text| > 0 && text[|text| - 1] == ']' then ParseDecimal(AfterLastSpace(text[..|text| - 1]))
    else None
  }

  const TheaterLabel: string := ", Theater: "
  /** The number label without its trailing space, which is split off so the number can be read back after the last space. */
  const NumberLabel: string := ", Ticket Number:"

  /**
   * In the text of a ticket, the genre text `g`, the theater text `t`, the
   * number label with its space and the number text each stand at their place.
   */
  lemma FieldsAtPlace(g: string, t: string, number: string)
    ensures var r := Prefix + g + TheaterLabel + t + NumberLabel + " " + number + "]";
      var i := |Prefix| + |g| + |TheaterLabel|;
      var j := i + |t| + |NumberLabel| + 1;
      && |r| == j + |number| + 1
      && r[..|Prefix|] == Prefix
      && r[|Prefix|..|Prefix| + |g|] == g
      && r[|Prefix| + |g|..i] == TheaterLabel
      && r[i..i + |t|] == t
      && r[i + |t|..j] == NumberLabel + " "
      && r[j..|r| - 1] == number
  {
    var fields := Prefix + g + TheaterLabel + t;
    var r := fields + NumberLabel + " " + number + "]";
    var i := |Prefix| + |g| + |TheaterLabel|;
    var j := i + |t| + |NumberLabel| + 1;
    assert r[..|fields|] == fields;
    assert r[|fields|..j] == NumberLabel + " ";
    assert r[j..|r| - 1] == number;
    assert fields[..|Prefix|] == Prefix;
    assert fields[|Prefix|..|Prefix| + |g|] == g;
    assert fields[|Prefix| + |g|..i] == TheaterLabel;
    assert fields[i..i + |t|] == t;
  }

  /** A text ending in a space, a number and a closing bracket gives that number back. */
  lemma NumberReadBack(head: string, n: int)
    ensures var r := head + " " + DecimalString(n) + "]";
      r[|r| - 1] == ']' && TicketNumberOf(r) == Some(n)
  {
    var number := DecimalString(n);
    var r := head + " " + number + "]";
    assert r[..|r| - 1] == head + " " + number;
    AfterLastSpaceOf(head, number);
    DecimalStringRoundTrip(n);
  }

  /**
   * The text of a ticket with genre text `g`, theater text `t` and number `n`
   * holds the prefix, then `g`, then the theater label, then `t`; it ends in
   * a closing bracket, and its number can be read back.
   */
  lemma TicketTextShape(g: string, t: string, n: int)
    ensures var r := Prefix + g + TheaterLabel + t + NumberLabel + " " + DecimalString(n) + "]";
      var i := |Prefix| + |g| + |TheaterLabel|;
      var j := i + |t| + |NumberLabel| + 1;
      && |r| == j + |DecimalString(n)| + 1
      && r[..|Prefix|] == Prefix
      && r[|Prefix|..|Prefix| + |g|] == g
      && r[|Prefix| + |g|..i] == TheaterLabel
      && r[i..i + |t|] == t
      && r[i + |t|..j] == NumberLabel + " "
      && r[j..|r| - 1] == DecimalString(n)
      && r[|r| - 1] == ']'
      && TicketNumberOf(r) == Some(n)
  {
    FieldsAtPlace(g, t, DecimalString(n));
    NumberReadBack(Prefix + g + TheaterLabel + t + NumberLabel, n);
  }

  class MovieTicket {
    const genre: JString
    const theaterType: JString
    const ticketNumber: int32

    /** Stores exactly the given fields; as constants, no method can change them. */
    constructor (genre: JString, theaterType: JString, ticketNumber: int32)
      ensures this.genre == genre && this.theaterType == theaterType && this.ticketNumber == ticketNumber
    {
      this.genre := genre;
      this.theaterType := theaterType;
      this.ticketNumber := ticketNumber;
    }

    /** `cloneTicket`: a new object, not this one, with the same three fields and so the same text. */
    method CloneTicket() returns (c: MovieTicket)
      ensures fresh(c) && c != this
      ensures c.genre == genre && c.theaterType == theaterType && c.ticketNumber == ticketNumber
      ensures c.ToString() == ToString()
    {
      c := new MovieTicket(genre, theaterType, ticketNumber);
    }

    /**
     * `toString`: "Ticket [Genre: <genre>, Theater: <theater type>, Ticket
     * Number: <number>]", null fields written as "null": each part stands
     * at its place, and the number can be read back from the end of the text.
     */
    function ToString(): (r: string)
      ensures var g, t := Show(genre), Show(theaterType);
        var i := |Prefix| + |g| + |TheaterLabel|;
        var j := i + |t| + |NumberLabel| + 1;
        && |r| == j + |DecimalString(ticketNumber as int)| + 1
        && r[..|Prefix|] == Prefix
        && r[|Prefix|..|Prefix| + |g|] == g
        && r[|Prefix| + |g|..i] == TheaterLabel
        && r[i..i + |t|] == t
        && r[i + |t|..j] == NumberLabel + " "
        && r[j..|r| - 1] == DecimalString(ticketNumber as int)
        && r[|r| - 1] == ']'
      ensures TicketNumberOf(r) == Some(ticketNumber as int)
    {
      TicketTextShape(Show(genre), Show(theaterType), ticketNumber as int);
      Prefix + Show(genre) + TheaterLabel + Show(theaterType) + NumberLabel + " " + DecimalString(ticketNumber as int) + "]"
    }
  }
}
