/**
 * `MovieTicketBuilder`: three fields set by fluent setters, and `build`,
 * which makes a ticket of their current values.
 */
module Builder {
  import opened JavaText
  import opened Prototype

  class MovieTicketBuilder {
    var genre: JString
    var theaterType: JString
    var ticketNumber: int32

    /** The implicit constructor: Java's field defaults, null and 0. */
    constructor ()
      ensures genre == Null && theaterType == Null && ticketNumber == 0
    {
      genre := Null;
      theaterType := Null;
      ticketNumber := 0;
    }

    /** `setGenre`: changes only the genre and returns this builder. */
    method SetGenre(genre: JString) returns (self: MovieTicketBuilder)
      modifies this
      ensures self == this
      ensures this.genre == genre && theaterType == old(theaterType) && ticketNumber == old(ticketNumber)
    {
      this.genre := genre;
      return this;
    }

    /** `setTheaterType`: changes only the theater type and returns this builder. */
    method SetTheaterType(theaterType: JString) returns (self: MovieTicketBuilder)
      modifies this
      ensures self == this
      ensures this.theaterType == theaterType && genre == old(genre) && ticketNumber == old(ticketNumber)
    {
      this.theaterType := theaterType;
      return this;
    }

    /** `setTicketNumber`: changes only the ticket number and returns this builder. */
    method SetTicketNumber(ticketNumber: int32) returns (self: MovieTicketBuilder)
      modifies this
      ensures self == this
      ensures this.ticketNumber == ticketNumber && genre == old(genre) && theaterType == old(theaterType)
    {
      this.ticketNumber := ticketNumber;
      return this;
    }

    /** `build`: a new ticket holding the current fields; the builder is not changed. */
    method Build() returns (ticket: MovieTicket)
      ensures fresh(ticket)
      ensures ticket.genre == genre && ticket.theaterType == theaterType && ticket.ticketNumber == ticketNumber
    {
      ticket := new MovieTicket(genre, theaterType, ticketNumber);
    }
  }

  /**
   * A chain of setters: the last value set wins, and two builds give
   * distinct tickets with equal fields and text.
   */
  method BuildTwice(genre: JString, theaterType: JString, first: int32, last: int32)
    returns (a: MovieTicket, b: MovieTicket)
    ensures fresh(a) && fresh(b) && a != b
    ensures a.genre == b.genre == genre && a.theaterType == b.theaterType == theaterType
    ensures a.ticketNumber == b.ticketNumber == last
    ensures a.ToString() == b.ToString()
  {
    var builder := new MovieTicketBuilder();
    var self := builder.SetTicketNumber(first);
    self := self.SetGenre(genre);
    self := self.SetTheaterType(theaterType);
    self := self.SetTicketNumber(last);
    a := builder.Build();
    b := builder.Build();
  }
}
