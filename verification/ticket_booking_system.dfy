/**
 * The ticket store as the object it is: a 3 x 2 table of remaining-ticket
 * counters and a 3 x 2 x 50 table of booked flags, updated in place. Each
 * operation is proved to follow the booking decision and the queries of
 * module Inventory, whose lemmas state what they promise.
 */
module TicketBooking {
  import opened JavaText
  import opened Selection
  import opened Inventory

  class TicketBookingSystem {
    /** Remaining tickets, indexed by genre and theater type. */
    var availableTickets: array2<int>
    /** Booked flags, indexed by genre, theater type and ticket number - 1. */
    var bookedTicketNumbers: array3<bool>

    ghost predicate Shaped()
      reads this
    {
      availableTickets.Length0 == |Genres| && availableTickets.Length1 == |Theaters|
      && bookedTicketNumbers.Length0 == |Genres| && bookedTicketNumbers.Length1 == |Theaters|
      && bookedTicketNumbers.Length2 == Capacity
    }

    /** The inventory the two tables hold. */
    ghost var inventory: Store

    /** The tables hold slot `sl` of `inventory`: its counter and each of its flags. */
    ghost predicate Mirrors(sl: Slot)
      reads this, availableTickets, bookedTicketNumbers
      requires Shaped() && sl in inventory && |inventory[sl].seats| == Capacity
    {
      var gi, ti := GenreIndex(sl.genre), TheaterIndex(sl.theater);
      inventory[sl].remaining == availableTickets[gi, ti]
      && forall k :: 0 <= k < Capacity ==> inventory[sl].seats[k] == bookedTicketNumbers[gi, ti, k]
    }

    ghost predicate Valid()
      reads this, availableTickets, bookedTicketNumbers
    {
      Shaped() && Consistent(inventory) && forall sl {:trigger Mirrors(sl)} :: sl in inventory ==> Mirrors(sl)
    }

    constructor ()
      ensures Valid() && inventory == Initial()
      ensures fresh(availableTickets) && fresh(bookedTicketNumbers)
    {
      availableTickets := new int[3, 2]((_, _) => 0);
      bookedTicketNumbers := new bool[3, 2, 50]((_, _, _) => false);
      inventory := Initial();
      new;
      InitializeTickets();
    }

    /** `initializeTickets`: every counter becomes 50; the flags are left alone. */
    method InitializeTickets()
      requires Shaped()
      modifies availableTickets
      ensures forall i, j :: 0 <= i < |Genres| && 0 <= j < |Theaters| ==> availableTickets[i, j] == Capacity
    {
      var i := 0;
      while i < 3
        invariant 0 <= i <= 3
        invariant forall a, b :: 0 <= a < i && 0 <= b < 2 ==> availableTickets[a, b] == Capacity
      {
        var j := 0;
        while j < 2
          invariant 0 <= j <= 2
          invariant forall a, b :: 0 <= a < i && 0 <= b < 2 ==> availableTickets[a, b] == Capacity
          invariant forall b :: 0 <= b < j ==> availableTickets[i, b] == Capacity
        {
          availableTickets[i, j] := 50;
          j := j + 1;
        }
        i := i + 1;
      }
    }

    /** `bookTicket`: the message of the booking outcome; the inventory follows `Book`. */
    method BookTicket(genre: string, theaterType: string, ticketNumber: int32) returns (message: string)
      requires Valid()
      modifies this, availableTickets, bookedTicketNumbers
      ensures Valid()
      ensures availableTickets == old(availableTickets) && bookedTicketNumbers == old(bookedTicketNumbers)
      ensures message == Book(old(inventory), genre, theaterType, ticketNumber).outcome.Message()
      ensures inventory == Book(old(inventory), genre, theaterType, ticketNumber).store
    {
      var genreIndex := GetGenreIndex(genre);
      var theaterIndex := GetTheaterIndex(theaterType);
      if genreIndex == -1 || theaterIndex == -1 {
        InvalidSelectionFirst(inventory, genre, theaterType, ticketNumber);
        return InvalidSelection.Message();
      }
      if ticketNumber < 1 || ticketNumber > 50 {
        TicketNumberOutOfRange(inventory, genre, theaterType, ticketNumber);
        return InvalidTicketNumber.Message();
      }
      var k := (ticketNumber - 1) as int;
      ghost var sl := Slot(ParseGenre(genre).value, ParseTheater(theaterType).value);
      AllSlotsComplete(sl);
      assert Mirrors(sl);
      if bookedTicketNumbers[genreIndex, theaterIndex, k] {
        AlreadyBookedRejected(inventory, genre, theaterType, ticketNumber);
        return AlreadyBooked.Message();
      }
      BookingFreeTicket(inventory, genre, theaterType, ticketNumber);
      if availableTickets[genreIndex, theaterIndex] > 0 {
        BookKeepsConsistency(inventory, genre, theaterType, ticketNumber);
        Reserve(sl, genreIndex, theaterIndex, k);
        return Booked.Message();
      } else {
        return NoRemainingTickets.Message();
      }
    }

    /**
     * The two table updates of a successful booking: the flag of ticket
     * `k + 1` is set and the counter goes down by one, in slot `sl` only.
     */
    method Reserve(ghost sl: Slot, genreIndex: int, theaterIndex: int, k: int)
      requires Valid() && sl in inventory
      requires genreIndex == GenreIndex(sl.genre) && theaterIndex == TheaterIndex(sl.theater) && 0 <= k < Capacity
      modifies this, availableTickets, bookedTicketNumbers
      ensures Shaped() && WellFormed(inventory) && forall other {:trigger Mirrors(other)} :: other in inventory ==> Mirrors(other)
      ensures availableTickets == old(availableTickets) && bookedTicketNumbers == old(bookedTicketNumbers)
      ensures inventory == old(inventory)[sl := SlotState(old(inventory)[sl].remaining - 1, old(inventory)[sl].seats[k := true])]
    {
      assert Mirrors(sl);
      inventory := inventory[sl := SlotState(inventory[sl].remaining - 1, inventory[sl].seats[k := true])];
      bookedTicketNumbers[genreIndex, theaterIndex, k] := true;
      availableTickets[genreIndex, theaterIndex] := availableTickets[genreIndex, theaterIndex] - 1;
      forall other | other in inventory
        ensures Mirrors(other)
      {
        if other != sl {
          assert GenreIndex(other.genre) != genreIndex || TheaterIndex(other.theater) != theaterIndex;
          assert old(Mirrors(other));
        }
      }
    }

    /** `getAvailableTickets`: the slot's counter, or 0 for an unrecognised selection. */
    method GetAvailableTickets(genre: string, theaterType: string) returns (count: int)
      requires Valid()
      ensures count == Available(inventory, genre, theaterType)
      ensures 0 <= count <= Capacity
    {
      QueriesAgree(inventory, genre, theaterType);
      var genreIndex := GetGenreIndex(genre);
      var theaterIndex := GetTheaterIndex(theaterType);
      if genreIndex == -1 || theaterIndex == -1 {
        return 0;
      }
      ghost var sl := Slot(ParseGenre(genre).value, ParseTheater(theaterType).value);
      AllSlotsComplete(sl);
      assert Mirrors(sl);
      return availableTickets[genreIndex, theaterIndex];
    }

    /**
     * `getBookedTickets`: counts the slot's set flags; 0 for an unrecognised
     * selection, and otherwise 50 minus the slot's counter.
     */
    method GetBookedTickets(genre: string, theaterType: string) returns (count: int)
      requires Valid()
      ensures count == BookedCount(inventory, genre, theaterType)
      ensures ValidSelection(genre, theaterType) ==> count == Capacity - Available(inventory, genre, theaterType)
    {
      QueriesAgree(inventory, genre, theaterType);
      var genreIndex := GetGenreIndex(genre);
      var theaterIndex := GetTheaterIndex(theaterType);
      if genreIndex == -1 || theaterIndex == -1 {
        return 0;
      }
      ghost var sl := Slot(ParseGenre(genre).value, ParseTheater(theaterType).value);
      AllSlotsComplete(sl);
      assert Mirrors(sl);
      ghost var seats := inventory[sl].seats;
      var bookedCount := 0;
      for i := 0 to 50
        invariant bookedCount == CountSet(seats[..i])
      {
        assert seats[..i + 1][..i] == seats[..i];
        if bookedTicketNumbers[genreIndex, theaterIndex, i] {
          bookedCount := bookedCount + 1;
        }
      }
      assert seats[..50] == seats;
      return bookedCount;
    }
  }

  /**
   * `TicketBookingAdapter`: the `MovieBooking` interface over a store it is
   * given; booking is delegated unchanged.
   */
  class TicketBookingAdapter {
    const ticketBookingSystem: TicketBookingSystem

    constructor (system: TicketBookingSystem)
      ensures ticketBookingSystem == system
    {
      ticketBookingSystem := system;
    }

    method BookTicket(genre: string, theaterType: string, ticketNumber: int32) returns (message: string)
      requires ticketBookingSystem.Valid()
      modifies ticketBookingSystem, ticketBookingSystem.availableTickets, ticketBookingSystem.bookedTicketNumbers
      ensures ticketBookingSystem.Valid()
      ensures ticketBookingSystem.availableTickets == old(ticketBookingSystem.availableTickets)
      ensures ticketBookingSystem.bookedTicketNumbers == old(ticketBookingSystem.bookedTicketNumbers)
      ensures message == Book(old(ticketBookingSystem.inventory), genre, theaterType, ticketNumber).outcome.Message()
      ensures ticketBookingSystem.inventory == Book(old(ticketBookingSystem.inventory), genre, theaterType, ticketNumber).store
    {
      message := ticketBookingSystem.BookTicket(genre, theaterType, ticketNumber);
    }
  }
}
