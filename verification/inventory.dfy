/**
 * The ticket inventory as a value: for each (genre, theater type) slot, the
 * remaining-ticket counter and the booked flag of each of its 50 ticket
 * numbers. `Book` is the booking decision of the store, and the lemmas below
 * state what it promises; the store class is proved to follow it.
 */
module Inventory {
  import opened Wrappers
  import opened JavaText
  import opened Selection

  /** Tickets per slot; ticket numbers run from 1 to Capacity. */
  const Capacity: nat := 50

  datatype Slot = Slot(genre: Genre, theater: Theater)

  const AllSlots: set<Slot> :=
    {Slot(Action, Cinema), Slot(Action, IMAX), Slot(Comedy, Cinema),
     Slot(Comedy, IMAX), Slot(Drama, Cinema), Slot(Drama, IMAX)}

  /** `seats[k]` tells whether ticket number k + 1 is booked. */
  datatype SlotState = SlotState(remaining: int, seats: seq<bool>)

  type Store = map<Slot, SlotState>

  /** The result of a booking request, each with the message the store returns for it. */
  datatype Outcome = InvalidSelection | InvalidTicketNumber | AlreadyBooked | Booked | NoRemainingTickets
  {
    function Message(): string
    {
      match this
      case InvalidSelection => "Invalid selection."
      case InvalidTicketNumber => "Ticket number must be between 1 and 50."
      case AlreadyBooked => "This ticket number is already booked."
      case Booked => "Ticket booked successfully!"
      case NoRemainingTickets => "No remaining tickets for this selection."
    }
  }

  datatype BookResult = BookResult(outcome: Outcome, store: Store)

  lemma AllSlotsComplete(sl: Slot)
    ensures sl in AllSlots
  {
    match sl
    case Slot(g, t) =>
      match g
      case Action => assert t == Cinema || t == IMAX;
      case Comedy => assert t == Cinema || t == IMAX;
      case Drama => assert t == Cinema || t == IMAX;
  }

  /** Distinct outcomes have distinct messages, so the returned string determines the outcome. */
  lemma MessagesDistinct(a: Outcome, b: Outcome)
    ensures a.Message() == b.Message() ==> a == b
  {
  }

  // ---------------------------------------------------------------------------
  // Counting booked flags

  /** The number of set flags. */
  function CountSet(s: seq<bool>): (n: nat)
    ensures n <= |s|
  {
    if |s| == 0 then 0
    else CountSet(s[..|s| - 1]) + (if s[|s| - 1] then 1 else 0)
  }

  lemma {:induction false} CountSetNone(s: seq<bool>)
    requires forall k :: 0 <= k < |s| ==> !s[k]
    ensures CountSet(s) == 0
  {
    if |s| > 0 {
      CountSetNone(s[..|s| - 1]);
    }
  }

  /** All flags are set exactly when the count reaches the length. */
  lemma {:induction false} CountSetFull(s: seq<bool>)
    ensures CountSet(s) == |s| <==> forall k :: 0 <= k < |s| ==> s[k]
  {
    if |s| > 0 {
      var p := s[..|s| - 1];
      CountSetFull(p);
      assert forall k :: 0 <= k < |p| ==> p[k] == s[k];
    }
  }

  /** Setting one clear flag raises the count by exactly one. */
  lemma {:induction false} CountSetRaise(s: seq<bool>, k: nat)
    requires k < |s| && !s[k]
    ensures CountSet(s[k := true]) == CountSet(s) + 1
  {
    var t := s[k := true];
    var p := s[..|s| - 1];
    assert t[..|t| - 1] == if k < |s| - 1 then p[k := true] else p;
    if k < |s| - 1 {
      CountSetRaise(p, k);
    }
  }

  // ---------------------------------------------------------------------------
  // Well-formed and consistent stores

  /** Every slot is present and has one flag per ticket number. */
  predicate WellFormed(st: Store)
  {
    st.Keys == AllSlots && forall sl :: sl in st ==> |st[sl].seats| == Capacity
  }

  /** The store invariant: per slot, remaining + booked == Capacity and 0 <= remaining <= Capacity. */
  predicate Consistent(st: Store)
  {
    WellFormed(st)
    && forall sl :: sl in st ==>
         0 <= st[sl].remaining <= Capacity
         && st[sl].remaining + CountSet(st[sl].seats) == Capacity
  }

  /** The inventory after construction: 50 remaining and no flag set, in every slot. */
  function Initial(): (st: Store)
    ensures Consistent(st)
    ensures forall sl :: sl in st ==> st[sl].remaining == Capacity && CountSet(st[sl].seats) == 0
    ensures forall sl, k :: sl in st && 0 <= k < Capacity ==> !st[sl].seats[k]
  {
    var empty := seq(Capacity, _ => false);
    CountSetNone(empty);
    map sl | sl in AllSlots :: SlotState(Capacity, empty)
  }

  // ---------------------------------------------------------------------------
  // Booking and the two queries

  /** The booking decision of `bookTicket`, with its four checks in order. */
  function Book(st: Store, genre: string, theaterType: string, ticketNumber: int32): (res: BookResult)
    requires WellFormed(st)
    ensures WellFormed(res.store)
  {
    match (ParseGenre(genre), ParseTheater(theaterType))
    case (Some(g), Some(t)) =>
      if ticketNumber < 1 || ticketNumber > Capacity as int32 then BookResult(InvalidTicketNumber, st)
      else
        var sl, k := Slot(g, t), (ticketNumber - 1) as int;
        AllSlotsComplete(sl);
        if st[sl].seats[k] then BookResult(AlreadyBooked, st)
        else if st[sl].remaining > 0 then
          BookResult(Booked, st[sl := SlotState(st[sl].remaining - 1, st[sl].seats[k := true])])
        else BookResult(NoRemainingTickets, st)
    case _ => BookResult(InvalidSelection, st)
  }

  /** `getAvailableTickets`: the slot's counter, or 0 for an unrecognised selection. */
  function Available(st: Store, genre: string, theaterType: string): int
    requires WellFormed(st)
  {
    match (ParseGenre(genre), ParseTheater(theaterType))
    case (Some(g), Some(t)) => AllSlotsComplete(Slot(g, t)); st[Slot(g, t)].remaining
    case _ => 0
  }

  /** `getBookedTickets`: the number of the slot's set flags, or 0 for an unrecognised selection. */
  function BookedCount(st: Store, genre: string, theaterType: string): nat
    requires WellFormed(st)
  {
    match (ParseGenre(genre), ParseTheater(theaterType))
    case (Some(g), Some(t)) => AllSlotsComplete(Slot(g, t)); CountSet(st[Slot(g, t)].seats)
    case _ => 0
  }

  predicate ValidSelection(genre: string, theaterType: string)
  {
    ParseGenre(genre).Some? && ParseTheater(theaterType).Some?
  }

  // ---------------------------------------------------------------------------
  // What booking promises

  /** Every booking request keeps the store invariant. */
  lemma BookKeepsConsistency(st: Store, genre: string, theaterType: string, ticketNumber: int32)
    requires Consistent(st)
    ensures Consistent(Book(st, genre, theaterType, ticketNumber).store)
  {
    var res := Book(st, genre, theaterType, ticketNumber);
    if res.outcome == Booked {
      var sl := Slot(ParseGenre(genre).value, ParseTheater(theaterType).value);
      CountSetRaise(st[sl].seats, (ticketNumber - 1) as int);
    }
  }

  /**
   * An unrecognised genre or theater type is reported first, whatever the
   * ticket number, and changes nothing.
   */
  lemma InvalidSelectionFirst(st: Store, genre: string, theaterType: string, ticketNumber: int32)
    requires WellFormed(st)
    requires !ValidSelection(genre, theaterType)
    ensures Book(st, genre, theaterType, ticketNumber) == BookResult(InvalidSelection, st)
  {
  }

  /** For a valid selection, a ticket number outside 1..50 is rejected and changes nothing. */
  lemma TicketNumberOutOfRange(st: Store, genre: string, theaterType: string, ticketNumber: int32)
    requires WellFormed(st)
    requires ValidSelection(genre, theaterType)
    requires ticketNumber < 1 || ticketNumber > 50
    ensures Book(st, genre, theaterType, ticketNumber) == BookResult(InvalidTicketNumber, st)
  {
  }

  /** A booked ticket number is rejected, whatever the counter, and changes nothing. */
  lemma AlreadyBookedRejected(st: Store, genre: string, theaterType: string, ticketNumber: int32)
    requires WellFormed(st)
    requires ValidSelection(genre, theaterType)
    requires 1 <= ticketNumber <= 50
    requires st[Slot(ParseGenre(genre).value, ParseTheater(theaterType).value)].seats[ticketNumber - 1]
    ensures Book(st, genre, theaterType, ticketNumber) == BookResult(AlreadyBooked, st)
  {
  }

  /**
   * In a consistent store a free ticket number always leaves a positive
   * counter, so "No remaining tickets for this selection." is never returned.
   */
  lemma NoRemainingTicketsUnreachable(st: Store, genre: string, theaterType: string, ticketNumber: int32)
    requires Consistent(st)
    ensures Book(st, genre, theaterType, ticketNumber).outcome != NoRemainingTickets
  {
    if ValidSelection(genre, theaterType) && 1 <= ticketNumber <= 50 {
      var sl := Slot(ParseGenre(genre).value, ParseTheater(theaterType).value);
      var k := (ticketNumber - 1) as int;
      AllSlotsComplete(sl);
      if !st[sl].seats[k] {
        CountSetFull(st[sl].seats);
      }
    }
  }

  /**
   * Booking a free ticket number of a valid selection in a consistent store
   * succeeds, sets exactly that flag, takes exactly one ticket from that
   * slot's counter and leaves every other slot as it was.
   */
  lemma BookingFreeTicket(st: Store, genre: string, theaterType: string, ticketNumber: int32)
    requires Consistent(st)
    requires ValidSelection(genre, theaterType)
    requires 1 <= ticketNumber <= 50
    requires !st[Slot(ParseGenre(genre).value, ParseTheater(theaterType).value)].seats[ticketNumber - 1]
    ensures var res := Book(st, genre, theaterType, ticketNumber);
      var sl := Slot(ParseGenre(genre).value, ParseTheater(theaterType).value);
      var k := (ticketNumber - 1) as int;
      && res.outcome == Booked
      && res.store == st[sl := SlotState(st[sl].remaining - 1, st[sl].seats[k := true])]
      && res.store[sl].remaining == st[sl].remaining - 1
      && res.store[sl].seats[k]
      && (forall j :: 0 <= j < Capacity && j != k ==> res.store[sl].seats[j] == st[sl].seats[j])
      && CountSet(res.store[sl].seats) == CountSet(st[sl].seats) + 1
      && (forall other :: other in st && other != sl ==> res.store[other] == st[other])
  {
    var sl := Slot(ParseGenre(genre).value, ParseTheater(theaterType).value);
    var k := (ticketNumber - 1) as int;
    NoRemainingTicketsUnreachable(st, genre, theaterType, ticketNumber);
    CountSetRaise(st[sl].seats, k);
  }

  /** A second booking of the same ticket number is rejected, whatever the counter. */
  lemma RebookingRejected(st: Store, genre: string, theaterType: string, ticketNumber: int32)
    requires Consistent(st)
    requires Book(st, genre, theaterType, ticketNumber).outcome == Booked
    ensures var after := Book(st, genre, theaterType, ticketNumber).store;
      Book(after, genre, theaterType, ticketNumber) == BookResult(AlreadyBooked, after)
  {
  }

  /**
   * Once a slot's counter is 0, every ticket number in 1..50 is reported as
   * already booked: the store never answers "No remaining tickets".
   */
  lemma FullSlotRejectsEveryNumber(st: Store, genre: string, theaterType: string, ticketNumber: int32)
    requires Consistent(st)
    requires ValidSelection(genre, theaterType) && Available(st, genre, theaterType) == 0
    requires 1 <= ticketNumber <= 50
    ensures Book(st, genre, theaterType, ticketNumber) == BookResult(AlreadyBooked, st)
  {
    QueriesAgree(st, genre, theaterType);
  }

  /**
   * The two queries agree with the invariant: 0 for an unrecognised
   * selection, and otherwise booked == 50 - available, with available 0
   * exactly when every ticket number of the slot is booked.
   */
  lemma QueriesAgree(st: Store, genre: string, theaterType: string)
    requires Consistent(st)
    ensures 0 <= Available(st, genre, theaterType) <= Capacity
    ensures !ValidSelection(genre, theaterType) ==>
      Available(st, genre, theaterType) == 0 && BookedCount(st, genre, theaterType) == 0
    ensures ValidSelection(genre, theaterType) ==>
      BookedCount(st, genre, theaterType) == Capacity - Available(st, genre, theaterType)
    ensures ValidSelection(genre, theaterType) ==>
      (Available(st, genre, theaterType) == 0 <==>
       forall k :: 0 <= k < Capacity ==>
         st[Slot(ParseGenre(genre).value, ParseTheater(theaterType).value)].seats[k])
  {
    if ValidSelection(genre, theaterType) {
      var sl := Slot(ParseGenre(genre).value, ParseTheater(theaterType).value);
      AllSlotsComplete(sl);
      CountSetFull(st[sl].seats);
    }
  }
}
