# Movie ticket booking: a verified model of the booking core

This project models the core of a small Java movie-ticket booking application.

- **The ticket store** (`TicketBookingSystem`) keeps two tables and updates them in place:
  - a 3 x 2 table of remaining-ticket counters, indexed by genre (Action, Comedy, Drama) and theater type (Cinema, IMAX);
  - a 3 x 2 x 50 table of booked flags, one per ticket number.

  `bookTicket` checks four things in a fixed order before it sets one flag and lowers one counter:
  1. the genre and theater type are recognised;
  2. the ticket number is in 1..50;
  3. the ticket number is not already booked;
  4. the counter is positive.

  Two queries read the tables back.
- **The adapter** (`TicketBookingAdapter`) forwards booking requests to the store.
- **The session guard** (`SessionManager`) keeps at most one logged-in user name. It accepts two fixed credential pairs and answers a role check.
- **The two factories** (`MovieFactory`, `TheaterFactory`) map a name to a movie or theater kind, ignoring case.
- **The builder and the ticket** (`MovieTicketBuilder`, `MovieTicket`): a mutable builder with fluent setters, and an immutable ticket with a clone operation and a fixed text form.

Modules:

| module | file | contents |
|---|---|---|
| `Wrappers` | `wrappers.dfy` | `Option` |
| `JavaText` | `java_text.dfy` | Java strings that may be null, `int`, `String.equalsIgnoreCase`, and the decimal text of an `int` |
| `Selection` | `selection.dfy` | genres, theater types, the exact (case-sensitive) name lookups, and their table indices |
| `Inventory` | `inventory.dfy` | the store's contents as a value (`Store`), the booking decision `Book`, the two queries, the store invariant and the lemmas about booking |
| `TicketBooking` | `ticket_booking_system.dfy` | the store and the adapter as classes over `array2<int>` and `array3<bool>`; the constructor and every public method are proved to follow `Inventory` (the private `InitializeTickets` states only the counters it sets) |
| `Session` | `session_manager.dfy` | the session guard class |
| `MovieFactory`, `TheaterFactory` | `movie_factory.dfy`, `theater_factory.dfy` | the factories |
| `Prototype`, `Builder` | `movie_ticket.dfy`, `movie_ticket_builder.dfy` | the ticket and the builder classes |

The store invariant (`Inventory.Consistent`) holds for every slot:
- the counter is in 0..50;
- the counter plus the number of set flags is 50.

The store class ties its arrays to a ghost `inventory` value, slot by slot (`Mirrors`). The postconditions of `BookTicket`, `GetAvailableTickets`, `GetBookedTickets` and the adapter's `BookTicket` state the new `inventory` and the returned value in terms of `Inventory.Book`, `Available` and `BookedCount`. The constructor states that the store starts as `Inventory.Initial()`.

One consequence of the invariant is proved: the "No remaining tickets for this selection." branch can never be reached.

`bookTicket` checks the selection before the ticket number (`TicketBookingSystem.java:71-78`), so an unrecognised selection with a bad number gets "Invalid selection."; `Inventory.InvalidSelectionFirst` states this order.

## Model

| member | source | states |
|---|---|---|
| `Inventory.Initial` | src/singleton_pattern/TicketBookingSystem.java:15-29 | the starting inventory is consistent: every slot has 50 remaining tickets, no flag is set and the count of set flags is 0 |
| `TicketBooking.TicketBookingSystem.constructor` | src/singleton_pattern/TicketBookingSystem.java:27-29 | a new store satisfies the invariant and holds exactly `Initial()`; both tables are new |
| `TicketBooking.TicketBookingSystem.InitializeTickets` | src/singleton_pattern/TicketBookingSystem.java:48-54 | after the nested loops, every one of the 3 x 2 counters is 50 |
| `Inventory.Book` | src/singleton_pattern/TicketBookingSystem.java:65-93 | the booking decision keeps all six slots and 50 flags per slot; its outcomes are stated by the lemmas below |
| `Inventory.MessagesDistinct` | src/singleton_pattern/TicketBookingSystem.java:72-91 | the five outcome messages are pairwise different, so the returned text identifies the outcome |
| `TicketBooking.TicketBookingSystem.BookTicket` | src/singleton_pattern/TicketBookingSystem.java:65-93 | returns the message of `Book`'s outcome on the old inventory; the tables afterwards hold `Book`'s new inventory and still satisfy the invariant; the table references are unchanged |
| `TicketBooking.TicketBookingSystem.Reserve` | src/singleton_pattern/TicketBookingSystem.java:86-89 | the two in-place writes set exactly one flag and lower exactly one counter; every other slot's tables still mirror the inventory |
| `Inventory.BookKeepsConsistency` | src/singleton_pattern/TicketBookingSystem.java:86-89 | every booking request, whatever its outcome, keeps counter + set flags = 50 and the counter in 0..50 in every slot |
| `Inventory.InvalidSelectionFirst` | src/singleton_pattern/TicketBookingSystem.java:67-73 | an unrecognised genre or theater type gives "Invalid selection." with no change, whatever the ticket number |
| `Inventory.TicketNumberOutOfRange` | src/singleton_pattern/TicketBookingSystem.java:76-78 | for a recognised selection, a number outside 1..50 gives the range message with no change |
| `Inventory.AlreadyBookedRejected` | src/singleton_pattern/TicketBookingSystem.java:81-83 | a number whose flag is set gives "This ticket number is already booked." with no change, whatever the counter |
| `Inventory.NoRemainingTicketsUnreachable` | src/singleton_pattern/TicketBookingSystem.java:81-92 | in a consistent store no request ever gets "No remaining tickets for this selection.", because a free number implies a positive counter |
| `Inventory.BookingFreeTicket` | src/singleton_pattern/TicketBookingSystem.java:85-89 | a free number of a recognised selection is booked. Exactly that flag is set, that slot's counter drops by one, its flag count rises by one, and every other flag and slot is unchanged |
| `Inventory.RebookingRejected` | src/singleton_pattern/TicketBookingSystem.java:81-89 | booking the same number again right after a successful booking is rejected as already booked |
| `Inventory.FullSlotRejectsEveryNumber` | src/singleton_pattern/TicketBookingSystem.java:81-92 | once a slot's counter is 0, every number in 1..50 is rejected as already booked, with no change |
| `Inventory.CountSet` | src/singleton_pattern/TicketBookingSystem.java:123-128 | the number of set flags in a sequence is at most its length |
| `Inventory.CountSetNone` | src/singleton_pattern/TicketBookingSystem.java:21 | a sequence with no flag set counts 0 |
| `Inventory.CountSetFull` | src/singleton_pattern/TicketBookingSystem.java:123-128 | the count equals the length exactly when every flag is set |
| `Inventory.CountSetRaise` | src/singleton_pattern/TicketBookingSystem.java:87 | setting one clear flag raises the count by exactly one |
| `Inventory.QueriesAgree` | src/singleton_pattern/TicketBookingSystem.java:102-130 | both queries give 0 for an unrecognised selection. Otherwise booked = 50 - available, available is in 0..50, and available is 0 exactly when all 50 flags are set |
| `TicketBooking.TicketBookingSystem.GetAvailableTickets` | src/singleton_pattern/TicketBookingSystem.java:102-107 | returns the slot's counter (`Available`), or 0 for an unrecognised selection; the result is in 0..50 |
| `TicketBooking.TicketBookingSystem.GetBookedTickets` | src/singleton_pattern/TicketBookingSystem.java:116-130 | the counting loop returns the number of the slot's set flags (`BookedCount`); for a recognised selection that is 50 minus the available count |
| `Selection.GenreIndex` | src/singleton_pattern/TicketBookingSystem.java:138-149 | each genre's index is in 0..2 and points back to that genre |
| `Selection.TheaterIndex` | src/singleton_pattern/TicketBookingSystem.java:157-166 | each theater type's index is in 0..1 and points back to that theater type |
| `Selection.GetGenreIndex` | src/singleton_pattern/TicketBookingSystem.java:138-149 | the result is -1 or a table index in 0..2; an index names exactly the given string, and -1 is returned exactly when no genre has that name |
| `Selection.GetTheaterIndex` | src/singleton_pattern/TicketBookingSystem.java:157-166 | the result is -1 or a table index in 0..1; an index names exactly the given string, and -1 is returned exactly when no theater type has that name |
| `Selection.ParseGenreExact` | src/singleton_pattern/TicketBookingSystem.java:139-148 | a string is recognised as a genre exactly when it equals that genre's name, character for character |
| `Selection.ParseTheaterExact` | src/singleton_pattern/TicketBookingSystem.java:158-165 | a string is recognised as a theater type exactly when it equals that type's name, character for character |
| `Selection.GenreIndexLookup` | src/singleton_pattern/TicketBookingSystem.java:138-149 | `getGenreIndex` is -1 exactly for strings other than "Action", "Comedy" and "Drama"; otherwise it is the index whose genre has that name |
| `Selection.TheaterIndexLookup` | src/singleton_pattern/TicketBookingSystem.java:157-166 | `getTheaterIndex` is -1 exactly for strings other than "Cinema" and "IMAX"; otherwise it is the index whose theater type has that name |
| `TicketBooking.TicketBookingAdapter.constructor` | src/adapter_pattern/TicketBookingAdapter.java:20-22 | the adapter holds the given store |
| `TicketBooking.TicketBookingAdapter.BookTicket` | src/adapter_pattern/TicketBookingAdapter.java:34-37 | same message and same new inventory as the store's own `bookTicket` |
| `Session.SessionManager.constructor` | src/singleton_pattern/SessionManager.java:13-20 | a new session has no user: `isLoggedIn()` is false and `getLoggedInUser()` is null |
| `Session.SessionManager.Login` | src/singleton_pattern/SessionManager.java:43-51 | true exactly for ("admin", "admin123") and ("user", "user123"). On success the user becomes the given name, replacing any earlier one, and `isLoggedIn()` is true; on failure the user is unchanged |
| `Session.SessionManager.GetLoggedInUser` | src/singleton_pattern/SessionManager.java:67-69 | in a valid session, the user is null or one of the two names that a password logs in with |
| `Session.SessionManager.IsLoggedIn` | src/singleton_pattern/SessionManager.java:58-60 | true exactly when the stored user is not null |
| `Session.SessionManager.IsAdmin` | src/singleton_pattern/SessionManager.java:77-79 | true exactly for the non-null name "admin"; it reads no field, so it depends on no session state |
| `Session.SessionManager.Logout` | src/singleton_pattern/SessionManager.java:85-87 | afterwards the user is null and `isLoggedIn()` is false, whatever the state before, so a second logout changes nothing |
| `Session.AdminRoleOfAcceptedUsers` | src/singleton_pattern/SessionManager.java:43-79 | of the two accepted credential pairs, only the one with password "admin123" has the admin role |
| `JavaText.EqualsIgnoreCase` | src/movie_factory_pattern/MovieFactory.java:14 | Java's test: equal lengths, and the characters at each position are equal, or equal after upper-casing, or equal after upper- then lower-casing |
| `JavaText.CharEqualsIgnoreCaseLetter` | src/movie_factory_pattern/MovieFactory.java:14 | against an ASCII letter, Java's character test accepts exactly that letter's case variants |
| `JavaText.EqualsIgnoreCaseIsCaseVariant` | src/movie_factory_pattern/MovieFactory.java:14-24 | against an ASCII word, `equalsIgnoreCase` holds exactly for the word's case variants |
| `JavaText.CaseVariantOfItself` | src/theatre_factory_pattern/TheaterFactory.java:14-20 | every ASCII word is a case variant of itself |
| `MovieFactory.CreateMovie` | src/movie_factory_pattern/MovieFactory.java:12-27 | any case variant of "Action", "Comedy" or "Drama" gives that movie kind, and each kind is given only for its variants; every other string gives none (null) |
| `MovieFactory.StoreGenresAreFactoryGenres` | src/movie_factory_pattern/MovieFactory.java:14-24 | every genre name the store's case-sensitive lookup accepts gives the same genre's movie kind |
| `MovieFactory.FactoryAloneIgnoresCase` | src/movie_factory_pattern/MovieFactory.java:14-16 | the converse fails: "action" gives an action movie but is not a genre the store recognises |
| `TheaterFactory.CreateTheater` | src/theatre_factory_pattern/TheaterFactory.java:12-23 | any case variant of "Cinema" or "IMAX" gives that theater kind, and each kind is given only for its variants; every other string gives none (null) |
| `TheaterFactory.StoreTheatersAreFactoryTheaters` | src/theatre_factory_pattern/TheaterFactory.java:14-20 | every theater type name the store's lookup accepts gives the same type's theater kind |
| `TheaterFactory.FactoryAloneIgnoresCase` | src/theatre_factory_pattern/TheaterFactory.java:18-20 | the converse fails: "imax" gives an IMAX theater but is not a theater type the store recognises |
| `JavaText.NatDigits` | src/prototype_pattern/MovieTicket.java:39 | the decimal digits of a natural number: at least one digit, exactly one below 10, and no leading zero |
| `JavaText.DecimalString` | src/prototype_pattern/MovieTicket.java:39 | the text of an `int` is not empty and contains no space |
| `JavaText.NatDigitsValue` | src/prototype_pattern/MovieTicket.java:39 | the digits of a natural number have that number as their value |
| `JavaText.DecimalStringRoundTrip` | src/prototype_pattern/MovieTicket.java:39 | the decimal text of any `int`, negative ones included, parses back to that `int` |
| `Prototype.AfterLastSpace` | src/prototype_pattern/MovieTicket.java:39 | the text after the last space contains no space |
| `Prototype.AfterLastSpaceOf` | src/prototype_pattern/MovieTicket.java:39 | in `a + " " + b`, where `b` has no space, the text after the last space is `b` |
| `Prototype.FieldsAtPlace` | src/prototype_pattern/MovieTicket.java:39 | in the ticket's text, the genre text follows the prefix, then ", Theater: ", the theater text, ", Ticket Number: " and the number text, before the closing "]" |
| `Prototype.NumberReadBack` | src/prototype_pattern/MovieTicket.java:39 | a text ending in a space, a number and "]" gives that number back |
| `Prototype.TicketTextShape` | src/prototype_pattern/MovieTicket.java:39 | a text of the ticket's shape starts with "Ticket [Genre: ", holds the genre text, ", Theater: ", the theater text, ", Ticket Number: " and the decimal text of the number at their places, ends with "]", and gives its number back |
| `Prototype.MovieTicket.constructor` | src/prototype_pattern/MovieTicket.java:16-20 | the ticket holds exactly the given genre, theater type and number; they are constants, so nothing changes them later |
| `Prototype.MovieTicket.CloneTicket` | src/prototype_pattern/MovieTicket.java:28-30 | a fresh object, not the original, with all three fields equal to the original's and the same text |
| `Prototype.MovieTicket.ToString` | src/prototype_pattern/MovieTicket.java:38-40 | the text is "Ticket [Genre: ", the genre text (or "null"), ", Theater: ", the theater text (or "null"), ", Ticket Number: ", the decimal text of the number and "]", each part at its place; the number can be read back from it |
| `Builder.MovieTicketBuilder.constructor` | src/builder_pattern/MovieTicketBuilder.java:12-14 | before any setter: null genre, null theater type, ticket number 0 |
| `Builder.MovieTicketBuilder.SetGenre` | src/builder_pattern/MovieTicketBuilder.java:23-26 | sets only the genre and returns the same builder |
| `Builder.MovieTicketBuilder.SetTheaterType` | src/builder_pattern/MovieTicketBuilder.java:35-38 | sets only the theater type and returns the same builder |
| `Builder.MovieTicketBuilder.SetTicketNumber` | src/builder_pattern/MovieTicketBuilder.java:47-50 | sets only the ticket number and returns the same builder |
| `Builder.MovieTicketBuilder.Build` | src/builder_pattern/MovieTicketBuilder.java:58-60 | a new ticket whose three fields are the builder's current ones; the builder is not changed |
| `Builder.BuildTwice` | src/builder_pattern/MovieTicketBuilder.java:23-60 | in a chain of setters the last value wins, and two builds give two distinct tickets with equal fields and equal text |

## Left out

- The lazy `getInstance` singletons (`TicketBookingSystem.java:37-42`, `SessionManager.java:28-33`) are global static state. The model constructs each object explicitly, and the adapter is given its store instead of fetching the singleton.
- A null genre or theater type passed to `bookTicket`, the queries, `createMovie` or `createTheater` throws a `NullPointerException` in Java. Those parameters are non-null strings in the model. The session and the ticket fields, where null is a legal value, use a nullable string type.
- Java strings are sequences of UTF-16 code units; the model uses Unicode scalar values. Every name compared here is ASCII, so the outcomes are the same.
- JavaText.EqualsIgnoreCase: the case mappings are modelled only where they can produce an ASCII letter. That covers the ASCII letters and the four other characters whose mapping is one: U+0130, U+0131, U+017F and U+212A. Other characters keep their case. This is exact whenever one side of the comparison is an ASCII letter, which holds for every call in the core.
- The movie and theater classes (`ActionMovie`, `ComedyMovie`, `DramaMovie`, `CinemaHall`, `IMAXTheater`) are represented by enum variants. Their `showDetails` methods only print to the console. The abstract `Movie` and `Theater` classes and the `TicketPrototype` interface are type declarations with no logic.
- src/gui/MovieTicketBookingGUI.java is not part of this model: it is presentation. Its `Integer.parseInt` input check pre-filters the same 1..50 range that the store checks again.
- Object identity is stated only through `fresh` and reference (in)equality. The Java `Object` methods other than `toString` are not modelled.
