/**
 * What each transaction of the movie-ticket contract does to the ledger, as a
 * function of the state committed before the call.
 *
 * A transaction reads only the state committed before it and collects its
 * writes; when it returns an error none of them is committed. Each function
 * below returns either the error or the map of writes, and `Commit` applies
 * that outcome to the ledger.
 */
module Transactions {
  import opened Wrappers
  import opened Dates
  import opened Defs
  import opened Seats

  /** The ledger after a transaction: its writes on success, unchanged on error. */
  function Commit(m: State, r: Result<State>): (m': State)
    ensures r.Err? ==> m' == m
    ensures r.Ok? ==> m'.Keys == m.Keys + r.value.Keys
    ensures r.Ok? ==> forall k | k in m' :: m'[k] == if k in r.value then r.value[k] else m[k]
  {
    if r.Ok? then m + r.value else m
  }

  // ---------------------------------------------------------------------------
  // Register_theatre

  /** The theatre as stored: its record type set to 3. */
  function StoredTheatre(t: Theatre): Record {
    TheatreRecord(t.(recordType := TheatreRecordType))
  }

  /**
   * Register_theatre: refuses an undecodable request and an id that is already
   * a key; otherwise stores the theatre at its id and an empty cafeteria at
   * "cafeteria_" + id, and nothing else. An empty id is refused by the ledger.
   */
  function TheatreRegistration(m: State, input: Input<Theatre>): (r: Result<State>)
    ensures input.Malformed? ==> r == Err(InvalidInput)
    ensures input.Parsed? && Plain(input.value.theatreId) in m ==> r == Err(AlreadyRegistered)
    ensures input.Parsed? && input.value.theatreId == "" && Plain("") !in m ==> r == Err(Storage)
    ensures r.Ok? <==> input.Parsed? && Plain(input.value.theatreId) !in m && input.value.theatreId != ""
    ensures r.Ok? ==>
      var id := input.value.theatreId;
      r.value.Keys == {Plain(id), CafeteriaKey(id)}
      && r.value[Plain(id)] == StoredTheatre(input.value)
      && r.value[CafeteriaKey(id)] == CafeteriaRecord(Cafeteria(0))
  {
    match input
    case Malformed => Err(InvalidInput)
    case Parsed(t) =>
      if Plain(t.theatreId) in m then Err(AlreadyRegistered)
      else if !Writable(Plain(t.theatreId)) then Err(Storage)
      else
        DerivedKeysDistinct(t.theatreId, t.theatreId);
        Ok(map[Plain(t.theatreId) := StoredTheatre(t), CafeteriaKey(t.theatreId) := CafeteriaRecord(Cafeteria(0))])
  }

  /** Registering the same theatre id a second time fails and changes nothing. */
  lemma TheatreRegisteredOnce(m: State, t: Theatre, t': Theatre)
    requires TheatreRegistration(m, Parsed(t)).Ok?
    requires t'.theatreId == t.theatreId
    ensures var m' := Commit(m, TheatreRegistration(m, Parsed(t)));
      TheatreRegistration(m', Parsed(t')) == Err(AlreadyRegistered)
      && Commit(m', TheatreRegistration(m', Parsed(t'))) == m'
      && m'[Plain(t.theatreId)] == StoredTheatre(t)
  {
  }

  // ---------------------------------------------------------------------------
  // Register_show

  /** The show key of a show on the day written `date`. */
  function ShowDateKey(s: Show, date: string): Key {
    ShowKey(s.theatreId, date, s.showTime, s.movieHallNo)
  }

  /** The show as stored for the day written `date`: that date, record type 1. */
  function ShowOnDate(s: Show, date: string): Record {
    ShowRecord(s.(showDate := date, recordType := ShowRecordType))
  }

  /** The labels `name(0)`, ..., `name(n - 1)`. */
  function Labels(name: nat -> string, n: nat): (labels: seq<string>)
    ensures |labels| == n
  {
    if n == 0 then [] else Labels(name, n - 1) + [name(n - 1)]
  }

  lemma {:induction false} LabelAt(name: nat -> string, n: nat, j: nat)
    requires j < n
    ensures Labels(name, n)[j] == name(j)
  {
    if j < n - 1 {
      LabelAt(name, n - 1, j);
    }
  }

  /** The days `start`, `start` + 1, ..., `start` + n - 1, each in the layout 2006-01-02. */
  function DayLabels(start: Date, n: nat): (dates: seq<string>)
    requires ValidDate(start)
    ensures |dates| == n
  {
    Labels((j: nat) => Format(DayAfter(start, j)), n)
  }

  /** The `j`-th label is the `j`-th day after `start`, formatted. */
  lemma DayLabelAt(start: Date, n: nat, j: nat)
    requires ValidDate(start) && j < n
    ensures DayLabels(start, n)[j] == Format(DayAfter(start, j))
  {
    LabelAt((j: nat) => Format(DayAfter(start, j)), n, j);
  }

  /** The writes for the given days: one show per day, at that day's key. */
  function ShowWrites(s: Show, dates: seq<string>): State {
    if dates == [] then map[]
    else
      var date := dates[|dates| - 1];
      ShowWrites(s, dates[..|dates| - 1])[ShowDateKey(s, date) := ShowOnDate(s, date)]
  }

  /** The label list grows by the next day's formatted date. */
  lemma NextDayLabel(start: Date, n: nat, i: nat)
    requires ValidDate(start) && i < n
    ensures DayLabels(start, n)[..i + 1] == DayLabels(start, n)[..i] + [Format(DayAfter(start, i))]
  {
    var dates := DayLabels(start, n);
    DayLabelAt(start, n, i);
    PrefixGrows(dates, i);
  }

  lemma PrefixGrows<T>(xs: seq<T>, i: nat)
    requires i < |xs|
    ensures xs[..i + 1] == xs[..i] + [xs[i]]
  {
  }

  /** Adding a day to the list adds that day's show. */
  lemma ShowWritesSnoc(s: Show, dates: seq<string>, date: string)
    ensures ShowWrites(s, dates + [date]) == ShowWrites(s, dates)[ShowDateKey(s, date) := ShowOnDate(s, date)]
  {
    assert (dates + [date])[..|dates|] == dates;
  }

  /**
   * The writes for a list of days hold, at each day's key, the show dated that
   * day, and write no other key.
   */
  lemma {:induction false} ShowWritesDays(s: Show, dates: seq<string>)
    ensures ShowWrites(s, dates).Keys == set date | date in dates :: ShowDateKey(s, date)
    ensures forall date | date in dates :: ShowWrites(s, dates)[ShowDateKey(s, date)] == ShowOnDate(s, date)
  {
    if dates != [] {
      var init := dates[..|dates| - 1];
      ShowWritesDays(s, init);
      assert dates == init + [dates[|dates| - 1]];
    }
  }

  /** Every show write is a show record of record type 1 under a show key. */
  lemma ShowWritesAreShows(s: Show, dates: seq<string>)
    ensures forall k | k in ShowWrites(s, dates) ::
      k.ShowKey? && ShowWrites(s, dates)[k] == ShowOnDate(s, k.showDate)
  {
    ShowWritesDays(s, dates);
  }

  /** Distinct days give as many writes as there are days. */
  lemma {:induction false} ShowWritesCount(s: Show, dates: seq<string>)
    requires forall i, j | 0 <= i < j < |dates| :: dates[i] != dates[j]
    ensures |ShowWrites(s, dates)| == |dates|
  {
    if dates != [] {
      var init, date := dates[..|dates| - 1], dates[|dates| - 1];
      ShowWritesCount(s, init);
      ShowWritesDays(s, init);
      assert date !in init;
      assert ShowWrites(s, dates).Keys == ShowWrites(s, init).Keys + {ShowDateKey(s, date)};
    }
  }

  /** Days up to the year 9999 are written differently. */
  lemma DayLabelsDistinct(start: Date, n: nat, last: Date)
    requires ValidDate(start) && ValidDate(last) && last.year <= 9999
    requires DayNumber(start) + n <= DayNumber(last) + 1
    ensures forall i, j | 0 <= i < j < n :: DayLabels(start, n)[i] != DayLabels(start, n)[j]
  {
    var dates := DayLabels(start, n);
    forall i, j | 0 <= i < j < n ensures dates[i] != dates[j] {
      var a, b := DayAfter(start, i), DayAfter(start, j);
      DayLabelAt(start, n, i);
      DayLabelAt(start, n, j);
      YearMonotone(a, last);
      YearMonotone(b, last);
      if dates[i] == dates[j] {
        FormatInjective(a, b);
      }
    }
  }

  /** The number of days from `start` to `end`, both included. */
  function DaysInRange(start: Date, end: Date): nat
    requires ValidDate(start) && ValidDate(end)
    requires !Before(end, start)
  {
    DayNumber(end) - DayNumber(start) + 1
  }

  /** Some day of the list already has a show at that time and hall. */
  predicate DayTaken(m: State, s: Show, dates: seq<string>) {
    exists date | date in dates :: ShowDateKey(s, date) in m
  }

  /** The show's theatre is stored and has the show's hall. */
  predicate HallFound(m: State, s: Show) {
    Plain(s.theatreId) in m && 1 <= s.movieHallNo <= AsTheatre(m[Plain(s.theatreId)]).movieHallNos
  }

  /** Both dates of the show parse, and the end is not before the start. */
  predicate DatesInOrder(s: Show) {
    var start, end := Parse(s.showStartDate), Parse(s.showEndDate);
    start.Some? && end.Some? && !Before(end.value, start.value)
  }

  /**
   * Register_show: the theatre must exist and have the hall; both dates must
   * parse and the end must not be before the start. When the theatre id or the
   * time cannot be a composite-key attribute, the day's key is the empty key,
   * which the ledger refuses to write. No day of the range may already have a
   * show at that time and hall. Then one show per day is written.
   */
  function ShowRegistration(m: State, input: Input<Show>): (r: Result<State>)
    ensures input.Malformed? ==> r == Err(InvalidInput)
    ensures input.Parsed? && Plain(input.value.theatreId) !in m ==> r == Err(TheatreNotFound)
    ensures input.Parsed? && Plain(input.value.theatreId) in m
      && !(1 <= input.value.movieHallNo <= AsTheatre(m[Plain(input.value.theatreId)]).movieHallNos)
      ==> r == Err(InvalidHall)
    ensures input.Parsed? && HallFound(m, input.value) && !DatesInOrder(input.value) ==> r == Err(InvalidDate)
    ensures input.Parsed? && HallFound(m, input.value) && DatesInOrder(input.value)
      && !(KeyAttribute(input.value.theatreId) && KeyAttribute(input.value.showTime))
      ==> r == Err(Storage)
    ensures input.Parsed? && HallFound(m, input.value) && DatesInOrder(input.value)
      && KeyAttribute(input.value.theatreId) && KeyAttribute(input.value.showTime)
      ==> var start, end := Parse(input.value.showStartDate).value, Parse(input.value.showEndDate).value;
        var dates := DayLabels(start, DaysInRange(start, end));
        r == if DayTaken(m, input.value, dates) then Err(DuplicateShow) else Ok(ShowWrites(input.value, dates))
    ensures r.Ok? ==> forall k | k in r.value :: k.ShowKey? && k !in m
  {
    match input
    case Malformed => Err(InvalidInput)
    case Parsed(s) =>
      if Plain(s.theatreId) !in m then Err(TheatreNotFound)
      else if s.movieHallNo < 1 || s.movieHallNo > AsTheatre(m[Plain(s.theatreId)]).movieHallNos then Err(InvalidHall)
      else
        var start, end := Parse(s.showStartDate), Parse(s.showEndDate);
        if start.None? || end.None? then Err(InvalidDate)
        else if Before(end.value, start.value) then Err(InvalidDate)
        else if !KeyAttribute(s.theatreId) || !KeyAttribute(s.showTime) then Err(Storage)
        else
          var dates := DayLabels(start.value, DaysInRange(start.value, end.value));
          if DayTaken(m, s, dates) then Err(DuplicateShow)
          else
            ShowWritesDays(s, dates);
            Ok(ShowWrites(s, dates))
  }

  /**
   * A successful show registration parsed both dates, the end is not before
   * the start, no day of the range was taken, and it writes the shows of the
   * days of the range (described by RangeWritesEachDay).
   */
  lemma ShowRegistrationDays(m: State, s: Show)
    requires ShowRegistration(m, Parsed(s)).Ok?
    ensures Parse(s.showStartDate).Some? && Parse(s.showEndDate).Some?
    ensures KeyAttribute(s.theatreId) && KeyAttribute(s.showTime)
    ensures var start, end := Parse(s.showStartDate).value, Parse(s.showEndDate).value;
      !Before(end, start)
      && ShowRegistration(m, Parsed(s)).value == ShowWrites(s, DayLabels(start, DaysInRange(start, end)))
      && !DayTaken(m, s, DayLabels(start, DaysInRange(start, end)))
  {
  }

  /**
   * The writes for a list of days none of which is taken: at each day's key,
   * which was free, the show dated that day; no other key.
   */
  lemma FreeDaysWrites(m: State, s: Show, dates: seq<string>)
    requires !DayTaken(m, s, dates)
    ensures var w := ShowWrites(s, dates);
      (forall j | 0 <= j < |dates| ::
         ShowDateKey(s, dates[j]) in w && ShowDateKey(s, dates[j]) !in m
         && w[ShowDateKey(s, dates[j])] == ShowOnDate(s, dates[j]))
      && (forall k | k in w :: exists j :: 0 <= j < |dates| && k == ShowDateKey(s, dates[j]))
  {
    var w := ShowWrites(s, dates);
    ShowWritesDays(s, dates);
    forall j | 0 <= j < |dates|
      ensures ShowDateKey(s, dates[j]) in w && ShowDateKey(s, dates[j]) !in m
      ensures w[ShowDateKey(s, dates[j])] == ShowOnDate(s, dates[j])
    {
      assert dates[j] in dates;
    }
    forall k | k in w ensures exists j :: 0 <= j < |dates| && k == ShowDateKey(s, dates[j]) {
      var date :| date in dates && k == ShowDateKey(s, date);
      var j :| 0 <= j < |dates| && dates[j] == date;
    }
  }

  /**
   * The writes for the days from `start` to `end`, none of which is taken:
   * exactly one show per day, under that day's key, dated that day, of record
   * type 1, and nothing else. (`DayLabels(start, n)[j]` is the `j`-th day
   * after `start`, formatted.)
   */
  lemma RangeWritesEachDay(m: State, s: Show, start: Date, end: Date)
    requires ValidDate(start) && ValidDate(end) && end.year <= 9999 && !Before(end, start)
    requires !DayTaken(m, s, DayLabels(start, DaysInRange(start, end)))
    ensures var n := DaysInRange(start, end);
      var dates := DayLabels(start, n);
      var w := ShowWrites(s, dates);
      |w| == n
      && (forall j | 0 <= j < n ::
            ShowDateKey(s, dates[j]) in w && ShowDateKey(s, dates[j]) !in m
            && w[ShowDateKey(s, dates[j])] == ShowOnDate(s, dates[j]))
      && (forall k | k in w :: exists j :: 0 <= j < n && k == ShowDateKey(s, dates[j]))
  {
    var n := DaysInRange(start, end);
    var dates := DayLabels(start, n);
    DayLabelsDistinct(start, n, end);
    ShowWritesCount(s, dates);
    FreeDaysWrites(m, s, dates);
  }

  /**
   * A show already on any one day of the range fails the whole registration
   * with DuplicateShow (or, when no composite key can be built, with the
   * refused write), so that no day of the range is written.
   */
  lemma ShowRegistrationAllOrNothing(m: State, s: Show, j: nat)
    requires Plain(s.theatreId) in m
    requires 1 <= s.movieHallNo <= AsTheatre(m[Plain(s.theatreId)]).movieHallNos
    requires Parse(s.showStartDate).Some? && Parse(s.showEndDate).Some?
    requires var start, end := Parse(s.showStartDate).value, Parse(s.showEndDate).value;
      DayNumber(start) + j <= DayNumber(end)
      && ShowKey(s.theatreId, Format(DayAfter(start, j)), s.showTime, s.movieHallNo) in m
    ensures ShowRegistration(m, Parsed(s))
         == if KeyAttribute(s.theatreId) && KeyAttribute(s.showTime) then Err(DuplicateShow) else Err(Storage)
    ensures Commit(m, ShowRegistration(m, Parsed(s))) == m
  {
    var start, end := Parse(s.showStartDate).value, Parse(s.showEndDate).value;
    var n := DaysInRange(start, end);
    var dates := DayLabels(start, n);
    DayLabelAt(start, n, j);
    assert dates[j] in dates && ShowDateKey(s, dates[j]) in m;
    assert DayTaken(m, s, dates);
  }

  // ---------------------------------------------------------------------------
  // Add_cafeteria_inventory

  /** The soda bottles the record at `k` holds, read as a cafeteria. */
  function Stock(m: State, k: Key): int
    requires k in m
  {
    AsCafeteria(m[k]).sodaBottleQuantity
  }

  /**
   * Add_cafeteria_inventory: the cafeteria must exist; its quantity grows by
   * exactly `quantity`, which may be negative.
   */
  function InventoryAddition(m: State, theatreId: string, quantity: int): (r: Result<State>)
    ensures r.Ok? <==> CafeteriaKey(theatreId) in m
    ensures r.Err? ==> r.error == CafeteriaNotFound
    ensures r.Ok? ==> r.value.Keys == {CafeteriaKey(theatreId)}
    ensures r.Ok? ==> r.value[CafeteriaKey(theatreId)] == CafeteriaRecord(Cafeteria(Stock(m, CafeteriaKey(theatreId)) + quantity))
    ensures r.Ok? ==> Stock(Commit(m, r), CafeteriaKey(theatreId)) == Stock(m, CafeteriaKey(theatreId)) + quantity
  {
    var key := CafeteriaKey(theatreId);
    if key !in m then Err(CafeteriaNotFound)
    else Ok(map[key := CafeteriaRecord(Cafeteria(Stock(m, key) + quantity))])
  }

  /** A negative quantity is accepted and can take the stock below zero. */
  lemma NegativeInventoryAccepted()
    ensures exists m: State, id: string, q: int ::
      InventoryAddition(m, id, q).Ok? && Stock(Commit(m, InventoryAddition(m, id, q)), CafeteriaKey(id)) < 0
  {
    var m: State := map[CafeteriaKey("T1") := CafeteriaRecord(Cafeteria(0))];
    assert InventoryAddition(m, "T1", -1).Ok?;
  }

  // ---------------------------------------------------------------------------
  // Get_seat_availability

  /** The fields a seat query must set. */
  predicate QueryFieldsValid(q: SeatAvailabilityQuery) {
    q.theatreId != "" && q.showId != "" && q.showDate != "" && q.showTime != "" && q.movieHallNo >= 1
  }

  /** Get_seat_availability: a decodable query with every field set, then the reconciler. */
  ghost function SeatAvailabilityAnswer(m: State, input: Input<SeatAvailabilityQuery>): (r: Result<int>)
    ensures input.Malformed? || !QueryFieldsValid(input.value) ==> r == Err(InvalidInput)
    ensures input.Parsed? && QueryFieldsValid(input.value) ==> r == Availability(m, input.value)
  {
    match input
    case Malformed => Err(InvalidInput)
    case Parsed(q) => if !QueryFieldsValid(q) then Err(InvalidInput) else Availability(m, q)
  }

  // ---------------------------------------------------------------------------
  // Book_ticket

  /** The ticket as stored: its record type set to 2. */
  function StoredTicket(t: Ticket): Record {
    TicketRecord(t.(recordType := TicketRecordType))
  }

  /**
   * Book_ticket: the ticket's fields must be set, the show instance must have
   * at least as many seats left as the ticket asks for; then the ticket is
   * written at its id, and nothing else.
   */
  ghost function TicketBooking(m: State, input: Input<Ticket>): (r: Result<State>)
    ensures input.Malformed? || !TicketFieldsValid(input.value) ==> r == Err(InvalidInput)
    ensures input.Parsed? && TicketFieldsValid(input.value) && Availability(m, InstanceOf(input.value)).Err?
      ==> r == Err(Availability(m, InstanceOf(input.value)).error)
    ensures input.Parsed? && TicketFieldsValid(input.value) && Availability(m, InstanceOf(input.value)).Ok?
      && Availability(m, InstanceOf(input.value)).value < input.value.noOfSeats
      ==> r == Err(SeatsNotAvailable)
    ensures input.Parsed? && TicketFieldsValid(input.value) && Availability(m, InstanceOf(input.value)).Ok?
      && Availability(m, InstanceOf(input.value)).value >= input.value.noOfSeats
      && input.value.ticketId == ""
      ==> r == Err(Storage)
    ensures r.Ok? <==> (input.Parsed? && TicketFieldsValid(input.value)
      && Availability(m, InstanceOf(input.value)).Ok?
      && Availability(m, InstanceOf(input.value)).value >= input.value.noOfSeats
      && input.value.ticketId != "")
    ensures r.Ok? ==> r.value == map[Plain(input.value.ticketId) := StoredTicket(input.value)]
  {
    match input
    case Malformed => Err(InvalidInput)
    case Parsed(t) =>
      if !TicketFieldsValid(t) then Err(InvalidInput)
      else
        var available := Availability(m, InstanceOf(t));
        if available.Err? then Err(available.error)
        else if available.value < t.noOfSeats then Err(SeatsNotAvailable)
        else if !Writable(Plain(t.ticketId)) then Err(Storage)
        else Ok(map[Plain(t.ticketId) := StoredTicket(t)])
  }

  /**
   * Booking under a fresh ticket id takes exactly the ticket's seats off the
   * seats left for its show, which stay at zero or above.
   */
  lemma BookingTakesSeats(m: State, t: Ticket)
    requires Plain(t.ticketId) !in m
    requires TicketBooking(m, Parsed(t)).Ok?
    ensures var m' := Commit(m, TicketBooking(m, Parsed(t)));
      Availability(m', InstanceOf(t)).Ok?
      && Availability(m', InstanceOf(t)).value == Availability(m, InstanceOf(t)).value - t.noOfSeats
      && Availability(m', InstanceOf(t)).value >= 0
  {
    var q, k, r := InstanceOf(t), Plain(t.ticketId), StoredTicket(t);
    var m' := Commit(m, TicketBooking(m, Parsed(t)));
    assert m' == m[k := r];
    SoldSeatsAfterWrite(m, k, r, q);
    assert IsSoldFor(q, r);
  }

  // ---------------------------------------------------------------------------
  // Replace_with_soda_bottle

  /** Whether the record at the ticket id passes the ticket and eligibility gates. */
  predicate EligibleTicket(m: State, ticketId: string) {
    Plain(ticketId) in m
    && AsTicket(m[Plain(ticketId)]).recordType == TicketRecordType
    && AsTicket(m[Plain(ticketId)]).luckyNo % 2 == 0
  }

  /**
   * Replace_with_soda_bottle: the id must hold a ticket (record type 2) with an
   * even lucky number, whose bottle was not replaced yet, and whose theatre's
   * cafeteria has a bottle in stock. Then the replacement is marked and the
   * stock goes down by one.
   */
  function SodaRedemption(m: State, ticketId: string): (r: Result<State>)
    ensures r.Ok? <==>
      EligibleTicket(m, ticketId) && ReplaceKey(ticketId) !in m
      && CafeteriaKey(AsTicket(m[Plain(ticketId)]).theatreId) in m
      && Stock(m, CafeteriaKey(AsTicket(m[Plain(ticketId)]).theatreId)) >= 1
    ensures r.Ok? ==>
      var cafeteria := CafeteriaKey(AsTicket(m[Plain(ticketId)]).theatreId);
      r.value.Keys == {ReplaceKey(ticketId), cafeteria}
      && r.value[ReplaceKey(ticketId)] == ReplacementRecord(SodaBottleReplacement(ticketId))
      && r.value[cafeteria] == CafeteriaRecord(Cafeteria(Stock(m, cafeteria) - 1))
      && Stock(Commit(m, r), cafeteria) == Stock(m, cafeteria) - 1 >= 0
  {
    var key := Plain(ticketId);
    if key !in m then Err(InvalidTicket)
    else
      var ticket := AsTicket(m[key]);
      if ticket.recordType != TicketRecordType then Err(InvalidTicket)
      else if ticket.luckyNo % 2 != 0 then Err(NotEligible)
      else if ReplaceKey(ticketId) in m then Err(AlreadyReplaced)
      else
        var cafeteria := CafeteriaKey(ticket.theatreId);
        if cafeteria !in m then Err(CafeteriaNotFound)
        else if Stock(m, cafeteria) < 1 then Err(OutOfStock)
        else
          DerivedKeysDistinct(ticketId, ticket.theatreId);
          Ok(map[ReplaceKey(ticketId) := ReplacementRecord(SodaBottleReplacement(ticketId)),
                 cafeteria := CafeteriaRecord(Cafeteria(Stock(m, cafeteria) - 1))])
  }

  /** The gates fail in order: ticket, eligibility, marker, cafeteria, stock. */
  lemma SodaRedemptionErrors(m: State, ticketId: string)
    ensures Plain(ticketId) !in m ==> SodaRedemption(m, ticketId) == Err(InvalidTicket)
    ensures Plain(ticketId) in m && AsTicket(m[Plain(ticketId)]).recordType != TicketRecordType
      ==> SodaRedemption(m, ticketId) == Err(InvalidTicket)
    ensures Plain(ticketId) in m && AsTicket(m[Plain(ticketId)]).recordType == TicketRecordType
      && AsTicket(m[Plain(ticketId)]).luckyNo % 2 != 0
      ==> SodaRedemption(m, ticketId) == Err(NotEligible)
    ensures EligibleTicket(m, ticketId) && ReplaceKey(ticketId) in m
      ==> SodaRedemption(m, ticketId) == Err(AlreadyReplaced)
    ensures EligibleTicket(m, ticketId) && ReplaceKey(ticketId) !in m
      && CafeteriaKey(AsTicket(m[Plain(ticketId)]).theatreId) !in m
      ==> SodaRedemption(m, ticketId) == Err(CafeteriaNotFound)
    ensures EligibleTicket(m, ticketId) && ReplaceKey(ticketId) !in m
      && CafeteriaKey(AsTicket(m[Plain(ticketId)]).theatreId) in m
      && Stock(m, CafeteriaKey(AsTicket(m[Plain(ticketId)]).theatreId)) < 1
      ==> SodaRedemption(m, ticketId) == Err(OutOfStock)
  {
  }

  /**
   * A bottle is handed out once per ticket: right after a successful
   * replacement the same request fails with AlreadyReplaced, so the two calls
   * together take one bottle off the stock.
   */
  lemma SodaRedeemedOnce(m: State, ticketId: string)
    requires SodaRedemption(m, ticketId).Ok?
    ensures var m' := Commit(m, SodaRedemption(m, ticketId));
      var cafeteria := CafeteriaKey(AsTicket(m[Plain(ticketId)]).theatreId);
      SodaRedemption(m', ticketId) == Err(AlreadyReplaced)
      && Stock(Commit(m', SodaRedemption(m', ticketId)), cafeteria) == Stock(m, cafeteria) - 1
  {
    var m' := Commit(m, SodaRedemption(m, ticketId));
    var key := Plain(ticketId);
    var cafeteria := CafeteriaKey(AsTicket(m[key]).theatreId);
    DerivedKeysDistinct(ticketId, AsTicket(m[key]).theatreId);
    // The cafeteria key holds a cafeteria and the ticket id a ticket, so the two differ.
    assert m[cafeteria].CafeteriaRecord?;
    assert m'[key] == m[key];
  }

  // ---------------------------------------------------------------------------
  // The ledger invariant.

  /** Every record carries the record type of its kind. */
  ghost predicate TagsCorrect(m: State) {
    forall k | k in m :: HasOwnTag(m[k])
  }

  /** Every stored ticket names a theatre id that is a key. */
  ghost predicate TicketsHaveTheatre(m: State) {
    forall k | k in m && m[k].TicketRecord? :: Plain(m[k].ticket.theatreId) in m
  }

  /** A capacity below zero counts as zero. */
  function Capacity(theatre: Theatre): int {
    if theatre.ticketsPerShow < 0 then 0 else theatre.ticketsPerShow
  }

  /**
   * No show instance of a stored theatre has sold more seats than the
   * theatre's capacity. An instance names a show id, so the bound is per show
   * id; ShowCapacity bounds a whole slot.
   */
  ghost predicate NoOversell(m: State) {
    forall q: SeatAvailabilityQuery | Plain(q.theatreId) in m && m[Plain(q.theatreId)].TheatreRecord? ::
      SoldSeats(m, q) <= Capacity(m[Plain(q.theatreId)].theatre)
  }

  ghost predicate Invariant(m: State) {
    TagsCorrect(m) && SeatsAtLeast(m, 1) && TicketsHaveTheatre(m) && NoOversell(m)
  }

  /**
   * In a ledger keeping the invariant the seats left for a show of a theatre
   * with a capacity of zero or more lie between zero and that capacity.
   */
  lemma SeatsLeftWithinCapacity(m: State, q: SeatAvailabilityQuery)
    requires Invariant(m)
    requires Availability(m, q).Ok?
    requires m[Plain(q.theatreId)].TheatreRecord? && m[Plain(q.theatreId)].theatre.ticketsPerShow >= 0
    ensures 0 <= Availability(m, q).value <= m[Plain(q.theatreId)].theatre.ticketsPerShow
  {
    AvailabilityAtMostCapacity(m, q);
  }

  /**
   * Writes that store no theatre and no ticket keep the invariant: the seats
   * sold can only go down and every theatre left is one that was there.
   */
  lemma OtherWritesKeepInvariant(m: State, w: State)
    requires Invariant(m)
    requires forall k | k in w :: !w[k].TheatreRecord? && !w[k].TicketRecord? && HasOwnTag(w[k])
    ensures Invariant(m + w)
  {
    var m' := m + w;
    forall q: SeatAvailabilityQuery | Plain(q.theatreId) in m' && m'[Plain(q.theatreId)].TheatreRecord?
      ensures SoldSeats(m', q) <= Capacity(m'[Plain(q.theatreId)].theatre)
    {
      WritesWithoutTickets(m, w, q);
    }
  }

  lemma TheatreRegistrationKeepsInvariant(m: State, input: Input<Theatre>)
    requires Invariant(m)
    ensures Invariant(Commit(m, TheatreRegistration(m, input)))
  {
    var r := TheatreRegistration(m, input);
    if r.Ok? {
      var id := input.value.theatreId;
      var m' := m + r.value;
      forall q: SeatAvailabilityQuery | Plain(q.theatreId) in m' && m'[Plain(q.theatreId)].TheatreRecord?
        ensures SoldSeats(m', q) <= Capacity(m'[Plain(q.theatreId)].theatre)
      {
        WritesWithoutTickets(m, r.value, q);
        if q.theatreId == id {
          // A sold ticket for the new theatre would have made its id a key.
          assert SoldTicketKeys(m, q) == {};
        }
      }
    }
  }

  lemma ShowRegistrationKeepsInvariant(m: State, input: Input<Show>)
    requires Invariant(m)
    ensures Invariant(Commit(m, ShowRegistration(m, input)))
  {
    var r := ShowRegistration(m, input);
    if r.Ok? {
      var s := input.value;
      var start, end := Parse(s.showStartDate).value, Parse(s.showEndDate).value;
      ShowWritesAreShows(s, DayLabels(start, DaysInRange(start, end)));
      OtherWritesKeepInvariant(m, r.value);
    }
  }

  lemma InventoryAdditionKeepsInvariant(m: State, theatreId: string, quantity: int)
    requires Invariant(m)
    ensures Invariant(Commit(m, InventoryAddition(m, theatreId, quantity)))
  {
    var r := InventoryAddition(m, theatreId, quantity);
    if r.Ok? {
      OtherWritesKeepInvariant(m, r.value);
    }
  }

  lemma SodaRedemptionKeepsInvariant(m: State, ticketId: string)
    requires Invariant(m)
    ensures Invariant(Commit(m, SodaRedemption(m, ticketId)))
  {
    var r := SodaRedemption(m, ticketId);
    if r.Ok? {
      OtherWritesKeepInvariant(m, r.value);
    }
  }

  /**
   * Booking keeps the invariant: the new ticket's show had at least its seats
   * left, and a ticket it overwrites only gives its seats back.
   */
  lemma TicketBookingKeepsInvariant(m: State, input: Input<Ticket>)
    requires Invariant(m)
    ensures Invariant(Commit(m, TicketBooking(m, input)))
  {
    var r := TicketBooking(m, input);
    if r.Ok? {
      var t := input.value;
      var k, rec := Plain(t.ticketId), StoredTicket(t);
      var m' := m[k := rec];
      assert Commit(m, r) == m';
      forall q: SeatAvailabilityQuery | Plain(q.theatreId) in m' && m'[Plain(q.theatreId)].TheatreRecord?
        ensures SoldSeats(m', q) <= Capacity(m'[Plain(q.theatreId)].theatre)
      {
        SoldSeatsAfterWrite(m, k, rec, q);
      }
    }
  }
}
