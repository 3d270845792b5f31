# Movie-ticket chaincode, modelled in Dafny

This project models the business logic of the `movie-ticket` Hyperledger
Fabric chaincode. Theatres register themselves, and each theatre gets a
cafeteria. Shows are registered for every day of a date range in one hall at
one time. Tickets are sold against the theatre's seats per show. A ticket
with an even lucky number can be exchanged once for a soda bottle from the
theatre's cafeteria.

The ledger is a `class Ledger` whose one field, `state: map<Key, Record>`, is
the key-value world state. Each transaction is a method of that class. A
transaction reads only the state committed before the call and collects its
writes. It then commits them all, or returns a typed `Error` and leaves
`state` unchanged. Every method that changes the ledger is proved against a
pure specification function of `Transactions` that returns `Result<State>`:
the error, or the map of writes. `Transactions.Commit` applies that outcome.
The properties of the transactions are proved about these functions. The
query methods change nothing and are proved against other functions:
`SeatAvailability` against `Seats.Availability`, `GetSeatAvailability`
against `Transactions.SeatAvailabilityAnswer`, and `GetShows` and
`CollectShows` against `ShowSearch.ShowMatches` and `ShowSearch.SelectedKeys`.

Modules, one per file:

- `Defs` (defs.dfy): the stored records and the queries (`chaincode/defs.go`).
  - Tags: show 1, ticket 2, theatre 3.
  - Keys: a plain string key, or the composite show key `ShowKey(theatre,
    date, time, hall)`. The composite key is injective by construction.
  - The derived keys `"cafeteria_" + id` and `"replace_" + id`.
  - How a stored JSON record decodes when it is read as another kind:
    `AsTheatre`, `AsTicket`, `AsCafeteria`. Go matches JSON names without
    regard to case, so a theatre's `RecordType` fills a ticket's
    `recordType`.
- `Dates` (dates.dfy): calendar days for `time.Parse`, `Format`, `Before`,
  `After` and `AddDate(0, 0, 1)` with the layout `2006-01-02`. It covers the
  proleptic Gregorian calendar, day numbers and the four-digit year layout.
- `Seats` (seats.dfy): the seat reconciler `GetSeatAvailability`. The sold
  seats are a sum over the set of keys the ticket query returns. That sum
  does not depend on the order the results come in.
- `ShowSearch` (showsearch.dfy):
  - `CreateShowSearchQuery`, character by character;
  - a reader for the selectors it writes;
  - what a selector selects.
- `Transactions` (contract.dfy): the specification function of every
  transaction, their properties, and the ledger invariant with its
  preservation lemmas.
- `Chaincode` (ledger.dfy): `class Ledger` and its transaction methods.
  - Register_show's day loop is its own method, `ShowDays`.
  - Get_shows' result loop is `CollectShows`.
  - The reconciler loop is `SeatAvailability`.
- `ShowCapacity` (showcapacity.dfy): seats per show slot, where a slot is a
  theatre, a day, a time and a hall. It holds the oversell described under
  "## Findings", and the booking gate that prevents it.

The ledger invariant `Transactions.Invariant` holds in the empty ledger and is
kept by every transaction. It states four things:

- every record carries its own kind's tag;
- every stored ticket sells at least one seat;
- every stored ticket names a theatre id that is a key;
- for each theatre, show id, day, time and hall, the tickets sold have no
  more seats than the theatre's `ticketsPerShow` (zero when that is
  negative). The bound holds per show id, not per slot: one slot can sell
  its seats once for every show id a booking names (see "## Findings").

CouchDB selectors compare field names with case, and only show records carry
tag 1. So under this invariant the show query selects exactly the show
records, and the ticket query selects exactly the ticket records.

The code makes choices a reader might not expect. The model keeps them:

- `Book_ticket` writes at `ticketId` without checking that the key is free.
  It can overwrite an earlier ticket, a theatre or a cafeteria.
  `BookingTakesSeats` therefore assumes a fresh ticket id. The invariant
  still holds when a record is overwritten.
- `Add_cafeteria_inventory` accepts a negative quantity, which can take the
  stock below zero.
- The availability is not clamped and can be negative.
- `CreateCompositeKey` fails on an attribute holding U+0000 or U+10FFFF.
  The error is ignored at functions.go:110 and utils.go:59, and the empty key
  is used instead. `KeyAttribute` names the attributes that build a key. For
  any other theatre id or show time, Register_show fails with `Storage`,
  because the empty key cannot be written. The reconciler then finds no show
  under the empty key and answers `ShowNotFound`.

## Model

| member | source | states |
|---|---|---|
| Defs.KeyAttribute | chaincode/utils.go:14-20 | the attributes from which a composite key can be built: those without U+0000 and U+10FFFF |
| Defs.AsTheatre | chaincode/functions.go:82 | how a stored record decodes into a theatre: a theatre is itself; a show or a ticket keeps its theatre id and tag and has 0 halls and 0 seats per show; a cafeteria or a replacement marker decodes to zero values (partner: DecodingOtherKinds) |
| Defs.AsTicket | chaincode/functions.go:286 | how a stored record decodes into a ticket: a ticket is itself; a show keeps the fields it shares with a ticket; a theatre keeps its id and tag; a replacement marker keeps its ticket id; every other field is zero (partner: DecodingOtherKinds) |
| Defs.AsCafeteria | chaincode/functions.go:311 | how a stored record decodes into a cafeteria: a cafeteria is itself, anything else has 0 bottles (partner: DecodingOtherKinds) |
| Defs.DerivedKeysDistinct | chaincode/functions.go:298-308 | "cafeteria_" and "replace_" keys determine their id, never coincide with each other or with the id itself, and are never the empty key |
| Defs.DecodingOtherKinds | chaincode/functions.go:286-292 | a record read as a theatre has halls or seats only if it is a theatre; read as a ticket it has tag 2 only if it is a ticket (given its own tag); read as a cafeteria it has stock only if it is one; a non-ticket read as a ticket has 0 seats and lucky number 0 |
| Dates.Next | chaincode/functions.go:108 | AddDate(0, 0, 1) on a valid day: the next day of the month, else the first of the next month, else the first of January of the next year (partner: NextIsFollowingDay) |
| Dates.Before | chaincode/functions.go:102 | Before on two parsed days: a smaller day number |
| Dates.Format | chaincode/functions.go:110 | Format("2006-01-02"): the year in at least four digits, a dash, the month in two digits, a dash, the day in two digits (partners: ParseFormat, FormatParse) |
| Dates.NextIsFollowingDay | chaincode/functions.go:108 | AddDate(0, 0, 1) keeps a day valid and advances its day number by exactly one |
| Dates.DayAfter | chaincode/functions.go:108 | the n-th day after a valid day is valid and n day numbers later |
| Dates.YearMonotone | chaincode/functions.go:102-108 | a later day never lies in an earlier year |
| Dates.Parse | chaincode/functions.go:89-100 | a string that parses names an existing day of a year of at most four digits |
| Dates.ParseFormat | chaincode/functions.go:110 | parsing a formatted day gives that day back |
| Dates.FormatParse | chaincode/functions.go:120 | a string that parses is the formatted form of its day |
| Dates.FormatInjective | chaincode/functions.go:110 | two days with years up to 9999 and the same formatted form are the same day |
| Seats.InstanceFound | chaincode/utils.go:59-64 | the reconciler finds the show: its key can be built and is stored |
| Seats.Availability | chaincode/utils.go:54-98 | ShowNotFound when the show key is missing, TheatreNotFound when the theatre is missing, else ticketsPerShow minus the seats of the sold tickets; the answer is Ok exactly when both exist |
| Seats.SoldTicketKeys | chaincode/utils.go:78-80 | the sold-ticket query returns exactly the ledger keys holding a tag-2 ticket for the same theatre, show, day, time and hall |
| Seats.SumSeatsRemove | chaincode/utils.go:85-95 | the sum of sold seats does not depend on the order of the results: any result can be taken first |
| Seats.SumSeatsFrame | chaincode/utils.go:92-94 | the sum reads only the records at the keys summed over |
| Seats.SumSeatsSubset | chaincode/utils.go:85-95 | with no negative seat counts, a smaller result set sums to no more |
| Seats.SumSeatsAtLeastCount | chaincode/utils.go:85-95 | when every ticket sells at least one seat, the sum is at least the number of results |
| Seats.SoldSeatsAfterWrite | chaincode/utils.go:78-97 | writing one record changes an instance's sold seats by what the new record sells minus what the overwritten one sold |
| Seats.WritesWithoutTickets | chaincode/utils.go:78-97 | writes without a sold ticket for an instance only remove sold tickets, and the sold seats do not grow |
| Seats.AvailabilityAtMostCapacity | chaincode/utils.go:66-97 | with every ticket selling at least one seat, the seats left never exceed ticketsPerShow, and equal it exactly when nothing is sold |
| Seats.AvailabilityNotClamped | chaincode/utils.go:97 | there is a ledger in which the seats left are -1 |
| ShowSearch.CreateShowSearchQuery | chaincode/utils.go:25-49 | the selector always starts with the head that asks for record type 1 and ends with "}}" |
| ShowSearch.CreateShowSearchQueryClauses | chaincode/utils.go:28-46 | between head and tail there is exactly one `,"field":"value"` clause per non-empty field, in the order theatreId, showId, showName, showTime, showDate; empty fields add nothing |
| ShowSearch.ActiveFiltersUnrolled | chaincode/utils.go:28-46 | the non-empty fields, in builder order, are the five fields each kept when set |
| ShowSearch.RenderKeepIfSet | chaincode/utils.go:28-30 | one field contributes its clause when set and nothing when empty |
| ShowSearch.EmptyFilterSelectsAllShows | chaincode/utils.go:26-48 | with every field empty the selector is exactly `{"selector":{"recordType": 1}}` |
| ShowSearch.ShowSearchQueryRoundTrip | chaincode/utils.go:25-49 | when no value contains a double quote, reading the selector back gives exactly the filter it was built from |
| ShowSearch.SelectorMeaning | chaincode/functions.go:174-179 | the built selector selects a record if and only if it is a tag-1 show equal to the filter on every non-empty field |
| ShowSearch.SelectedKeys | chaincode/functions.go:179 | the rich query returns exactly the keys whose record the clauses select |
| ShowSearch.SelectedAreMatching | chaincode/functions.go:174-195 | the keys the built selector returns are exactly those holding a show the filter describes |
| Transactions.Commit | chaincode/functions.go:22-335 | on an error the ledger is unchanged; on success it holds exactly the old keys and the written keys, each written key with its new record and every other key with its old one |
| Transactions.TheatreRegistration | chaincode/functions.go:22-58 | undecodable input gives InvalidInput; an existing id gives AlreadyRegistered; a new empty id gives Storage; success exactly when decodable, new and non-empty, and then only two keys are written: the theatre with tag 3 at its id and a cafeteria with 0 bottles at "cafeteria_" + id |
| Transactions.TheatreRegisteredOnce | chaincode/functions.go:31-37 | registering the same id again fails with AlreadyRegistered and leaves the ledger unchanged |
| Transactions.ShowRegistration | chaincode/functions.go:63-132 | undecodable input gives InvalidInput; a missing theatre gives TheatreNotFound; a hall outside 1..movieHallNos gives InvalidHall; then a date that does not parse or an end before the start gives InvalidDate; then a theatre id or show time that cannot form a key gives Storage; past all these gates, a day of the range already taken gives DuplicateShow, and otherwise the result is Ok with the shows of every day of the range; success writes only show keys that were free |
| Transactions.ShowRegistrationDays | chaincode/functions.go:89-128 | a successful registration parsed both dates, the end is not before the start, the theatre id and show time can form a key, no day of the range was taken, and the writes are the shows of the days of the range |
| Transactions.ShowWritesDays | chaincode/functions.go:119-126 | the writes for a list of days hold, at each day's key, the show dated that day with tag 1, and no other key |
| Transactions.ShowWritesAreShows | chaincode/functions.go:119-126 | every write is a tag-1 show under a show key, dated with that key's date |
| Transactions.ShowWritesCount | chaincode/functions.go:108-128 | distinct days give as many writes as days |
| Transactions.DayLabelAt | chaincode/functions.go:108-110 | the j-th day of the loop is written as the start day plus j days, formatted |
| Transactions.DayLabelsDistinct | chaincode/functions.go:108-110 | the days of a range ending by the year 9999 are written differently |
| Transactions.FreeDaysWrites | chaincode/functions.go:112-126 | when no day is taken, each day's key was free and now holds that day's show, and nothing else is written |
| Transactions.RangeWritesEachDay | chaincode/functions.go:108-128 | for the range start..end: exactly end - start + 1 writes, one per day, at that day's key, which was free, holding the show dated that day with tag 1 |
| Transactions.ShowRegistrationAllOrNothing | chaincode/functions.go:110-117 | a show already on any one day of the range fails the whole registration and leaves the ledger unchanged: DuplicateShow when the theatre id and show time can form a key, else Storage |
| Transactions.InventoryAddition | chaincode/functions.go:137-161 | succeeds exactly when "cafeteria_" + id is a key, else CafeteriaNotFound; writes only that key, a cafeteria record whose stock is the old stock plus exactly the quantity |
| Transactions.NegativeInventoryAccepted | chaincode/functions.go:151 | a negative quantity is accepted and can take the stock below zero |
| Transactions.SeatAvailabilityAnswer | chaincode/functions.go:211-232 | undecodable input or an empty field or a hall below 1 gives InvalidInput; otherwise the reconciler's answer |
| Transactions.TicketBooking | chaincode/functions.go:237-269 | an invalid ticket gives InvalidInput; a reconciler error is passed on; fewer seats left than noOfSeats gives SeatsNotAvailable; an empty ticket id gives Storage; success exactly when valid, the show and theatre exist, the seats left cover noOfSeats and the id is not empty; then only the ticket with tag 2 at its id is written |
| Transactions.BookingTakesSeats | chaincode/functions.go:251-263 | booking under a fresh ticket id lowers the instance's seats left by exactly noOfSeats and leaves them at zero or above |
| Transactions.SodaRedemption | chaincode/functions.go:274-335 | succeeds exactly when the id holds a tag-2 ticket with an even lucky number, no replacement marker exists and the cafeteria has at least one bottle; then it writes only the marker and the cafeteria, a cafeteria record whose stock is exactly one less and stays at zero or above |
| Transactions.SodaRedemptionErrors | chaincode/functions.go:280-317 | the gates fail in order: InvalidTicket, NotEligible, AlreadyReplaced, CafeteriaNotFound, OutOfStock |
| Transactions.SodaRedeemedOnce | chaincode/functions.go:298-303 | right after a redemption the same request fails with AlreadyReplaced, so two calls take one bottle in total |
| Transactions.SeatsLeftWithinCapacity | chaincode/defs.go:20 | in a ledger keeping the invariant, when the reconciler answers and the theatre id holds a theatre record with ticketsPerShow of zero or more, the seats left for a show lie between zero and that ticketsPerShow |
| Transactions.OtherWritesKeepInvariant | chaincode/defs.go:20 | writes that store no theatre and no ticket, each record carrying its own kind's tag, keep the ledger invariant |
| Transactions.TheatreRegistrationKeepsInvariant | chaincode/functions.go:38-54 | theatre registration keeps the ledger invariant |
| Transactions.ShowRegistrationKeepsInvariant | chaincode/functions.go:108-128 | show registration keeps the ledger invariant |
| Transactions.InventoryAdditionKeepsInvariant | chaincode/functions.go:148-156 | adding inventory keeps the ledger invariant |
| Transactions.TicketBookingKeepsInvariant | chaincode/functions.go:250-266 | booking keeps the ledger invariant: no show id of a slot is oversold |
| Transactions.SodaRedemptionKeepsInvariant | chaincode/functions.go:319-332 | redemption keeps the ledger invariant |
| Chaincode.Ledger.RegisterTheatre | chaincode/functions.go:22-58 | returns the specification's error, commits its writes, and keeps the invariant |
| Chaincode.Ledger.RegisterShow | chaincode/functions.go:63-132 | returns the specification's error, commits its writes, and keeps the invariant (show times HH:MM from 00:00 to 23:59 are required of the caller) |
| Chaincode.Ledger.ShowDays | chaincode/functions.go:108-128 | the day loop returns DuplicateShow when a day of the range is taken, else the shows of all the days |
| Chaincode.Ledger.AddCafeteriaInventory | chaincode/functions.go:137-161 | returns the specification's error, commits its writes, and keeps the invariant |
| Chaincode.Ledger.SeatAvailability | chaincode/utils.go:54-98 | the accumulation loop computes the reconciler's answer and changes nothing |
| Chaincode.Ledger.GetSeatAvailability | chaincode/functions.go:211-232 | computes Get_seat_availability's answer and changes nothing; in a ledger keeping the invariant a successful answer lies between 0 and the theatre's ticketsPerShow |
| Chaincode.Ledger.GetShows | chaincode/functions.go:166-206 | undecodable input gives InvalidInput; otherwise the list holds one show per matching key: a ghost list of keys, pairwise distinct and exactly the keys whose record the filter describes, gives for each position the key whose stored show is there |
| Chaincode.Ledger.CollectShows | chaincode/functions.go:185-195 | the result loop returns one show per selected key: a ghost list of the selected keys, each once, gives for each position the key whose stored show is appended there |
| Chaincode.Ledger.BookTicket | chaincode/functions.go:237-269 | returns the specification's error, commits its writes, and keeps the invariant (the booking as written, without the gate of "## Findings") |
| Chaincode.Ledger.ReplaceWithSodaBottle | chaincode/functions.go:274-335 | returns true exactly on success and the specification's error otherwise, commits its writes, and keeps the invariant |
| ShowCapacity.TicketsAtSlot | chaincode/utils.go:59-78 | the keys of the tag-2 tickets sold for a slot, whatever show id they name: exactly the ledger keys holding one |
| ShowCapacity.OversoldAcrossShowIds | chaincode/utils.go:59-78 | from a ledger keeping the invariant, two bookings of one seat for the same slot of a one-seat theatre, naming different show ids, both succeed and the slot has sold more seats than the theatre has |
| ShowCapacity.CheckedTicketBooking | chaincode/functions.go:237-269 | the booking with the intended gate: it succeeds exactly when the booking as written succeeds and the ticket names the show id stored at its slot, and then writes the same; every error of the booking as written is kept |
| ShowCapacity.SlotInvariantBoundsSlots | chaincode/defs.go:20 | when every show key holds a show and every ticket names the show at its slot, no slot of a stored theatre has sold more seats than the theatre has |
| ShowCapacity.OtherWritesKeepSlots | chaincode/functions.go:119-126 | writes of no ticket, whose show keys were free and receive shows, keep every show key holding a show and every ticket naming its show |
| ShowCapacity.CheckedTicketBookingKeepsSlotInvariant | chaincode/functions.go:250-266 | the gated booking keeps the slot invariant, so no slot is oversold |
| ShowCapacity.TheatreRegistrationKeepsSlotInvariant | chaincode/functions.go:38-54 | theatre registration keeps the slot invariant |
| ShowCapacity.ShowRegistrationKeepsSlotInvariant | chaincode/functions.go:108-128 | show registration keeps the slot invariant |
| ShowCapacity.InventoryAdditionKeepsSlotInvariant | chaincode/functions.go:148-156 | adding inventory keeps the slot invariant |
| ShowCapacity.SodaRedemptionKeepsSlotInvariant | chaincode/functions.go:319-332 | redemption keeps the slot invariant |

## Left out

- `Init`, `main.go` and all logging are not modelled. Error message texts become the `Error` enum.
- JSON encoding and decoding are not modelled: a request is `Parsed(value)` or `Malformed`. How stored records of one kind decode as another is modelled.
- Ledger reads, writes and queries that fail for platform reasons are not modelled. Only the refusal of a write under the empty key is modelled; it gives `Storage`. Plain keys beginning with the composite-key namespace byte are not modelled either.
- `CreateCompositeKey` is an injective constructor. Its failure on an attribute holding U+0000 or U+10FFFF is modelled, through the empty key. Its failure on other invalid UTF-8 is not modelled: strings here are sequences of characters.
- The CouchDB engine is modelled by what the two selectors mean: field equality on the fields they name, over the kind with that tag. The ticket selector text at utils.go:78 is not built character by character.
- Go's `int` is 64 bits. Overflow of stock, capacity or seat sums is not modelled.
- Conflict detection between concurrent transactions and endorsement are not modelled. Each method is one atomic step.
- The value Get_seat_availability returns alongside an error (always 0) is not modelled. Book_ticket returns only an error.
- Chaincode.Ledger.GetShows: the selector is spliced from the raw filter values. A value holding a double quote, a backslash or a control character (below U+0020) makes the selector invalid JSON, or changes what it selects. When it is invalid the rich query fails, and Get_shows returns that error (functions.go:179-183). The model matches every value literally and never returns the query's error.
- Seats.SoldTicketKeys: the ticket selector at utils.go:78 is spliced the same way from the theatre id, show id, date and time. A double quote, a backslash or a control character in one of them makes the query fail, and then Get_seat_availability and Book_ticket fail too (utils.go:80-83); or it changes what is counted. The model counts the tickets whose fields equal the values literally.
- Transactions.TicketBooking: inherits the Seats.SoldTicketKeys gap above.
- ShowSearch.ShowSearchQueryRoundTrip: holds only for values without a double quote. A quote in a filter value changes the selector's structure.
- Transactions.BookingTakesSeats: assumes a ticket id that is not yet a key. Booking overwrites whatever record is stored there.
- Dates.Parse: time zones and times of day are not modelled; the layout `2006-01-02` has neither.
- Transactions.DayLabelsDistinct: needs a last day no later than the year 9999. `Format` writes every digit of a longer year, as Go does. Only `Parse` is limited to four digits, so every range parsed from input ends by 9999 and meets this requirement.
- Chaincode.Ledger.RegisterShow: requires show times HH:MM from 00:00 to 23:59, which the contract's callers guarantee. The code does not check this.

## Findings

| source | as written | input that shows it | evidently intended | confidence | as-written member | corrected member |
|---|---|---|---|---|---|---|
| chaincode/utils.go:59-78 | the reconciler looks the show up by theatre, date, time and hall, without the show id, but counts only the tickets of the requested show id; Book_ticket stores whatever show id the ticket names | theatre T1 with 1 seat per show and one show S1 on 2024-02-01 at 18:00 in hall 1; book K1 (1 seat, show S1), then K2 (1 seat, same slot, show OTHER): both succeed and the slot has sold 2 seats | a booking must name the show stored at its slot, so no slot sells more seats than the theatre has | not executed | ShowCapacity.OversoldAcrossShowIds | ShowCapacity.CheckedTicketBookingKeepsSlotInvariant |

The corrected booking is `ShowCapacity.CheckedTicketBooking`. The slot
invariant is kept by it and by every other transaction, and by
`SlotInvariantBoundsSlots` it leaves no slot oversold. `Chaincode.Ledger.BookTicket`
keeps the booking as written.
