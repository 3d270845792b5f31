/**
 * The movie-ticket contract over its ledger. The ledger is one map from keys
 * to records; each transaction reads the state committed before it, checks its
 * gates in the order the contract does, collects its writes and commits them
 * only when it succeeds.
 */
module Chaincode {
  import opened Wrappers
  import opened Dates
  import opened Defs
  import opened Seats
  import opened ShowSearch
  import opened Transactions

  /** What a transaction with no result value returns: nothing on success, else its error. */
  function ErrorOf<T>(r: Result<T>): (e: Option<Error>)
    ensures e.None? <==> r.Ok?
    ensures r.Err? ==> e == Some(r.error)
  {
    if r.Ok? then None else Some(r.error)
  }

  /** `shows` lists, in order, the shows stored under `keys`. */
  predicate ShowsUnder(m: State, keys: seq<Key>, shows: seq<Show>) {
    |keys| == |shows|
    && forall i | 0 <= i < |keys| :: keys[i] in m && m[keys[i]].ShowRecord? && shows[i] == m[keys[i]].show
  }

  /** Appending a key and the show stored under it keeps the listing. */
  lemma ShowsUnderAppend(m: State, keys: seq<Key>, shows: seq<Show>, k: Key)
    requires ShowsUnder(m, keys, shows) && k in m && m[k].ShowRecord?
    ensures ShowsUnder(m, keys + [k], shows + [m[k].show])
  {
  }

  /** Shows listed key by key are exactly the shows stored under those keys. */
  lemma ShowsOfKeys(m: State, selected: set<Key>, shows: seq<Show>, keys: seq<Key>)
    requires |keys| == |shows|
    requires forall k :: k in keys <==> k in selected
    requires forall i | 0 <= i < |keys| :: keys[i] in m && m[keys[i]].ShowRecord? && shows[i] == m[keys[i]].show
    ensures forall x :: x in shows <==> exists k | k in selected :: m[k].show == x
  {
    forall x ensures x in shows <==> exists k | k in selected :: m[k].show == x {
      if x in shows {
        var i :| 0 <= i < |shows| && shows[i] == x;
        assert keys[i] in selected;
      }
      if exists k | k in selected :: m[k].show == x {
        var k :| k in selected && m[k].show == x;
        var i :| 0 <= i < |keys| && keys[i] == k;
        assert shows[i] == x;
      }
    }
  }

  class Ledger {
    var state: State

    ghost predicate Valid()
      reads this
    {
      Invariant(state)
    }

    constructor ()
      ensures Valid()
      ensures state == map[]
    {
      state := map[];
    }

    /** Register_theatre. */
    method RegisterTheatre(input: Input<Theatre>) returns (err: Option<Error>)
      requires Valid()
      modifies this
      ensures Valid()
      ensures err == ErrorOf(TheatreRegistration(old(state), input))
      ensures state == Commit(old(state), TheatreRegistration(old(state), input))
    {
      TheatreRegistrationKeepsInvariant(state, input);
      if input.Malformed? {
        return Some(InvalidInput);
      }
      var theatre := input.value;
      if Plain(theatre.theatreId) in state {
        return Some(AlreadyRegistered);
      }
      theatre := theatre.(recordType := TheatreRecordType);
      var writes: State := map[];
      if !Writable(Plain(theatre.theatreId)) {
        return Some(Storage);
      }
      writes := writes[Plain(theatre.theatreId) := TheatreRecord(theatre)];
      writes := writes[CafeteriaKey(theatre.theatreId) := CafeteriaRecord(Cafeteria(0))];
      state := state + writes;
      return None;
    }

    /**
     * Register_show. Show times are HH:MM between 00:00 and 23:59; the
     * contract relies on its callers for that, and no proof here depends on it.
     */
    method RegisterShow(input: Input<Show>) returns (err: Option<Error>)
      requires Valid()
      requires input.Parsed? ==> IsShowTime(input.value.showTime)
      modifies this
      ensures Valid()
      ensures err == ErrorOf(ShowRegistration(old(state), input))
      ensures state == Commit(old(state), ShowRegistration(old(state), input))
    {
      ShowRegistrationKeepsInvariant(state, input);
      if input.Malformed? {
        return Some(InvalidInput);
      }
      var show := input.value;
      if Plain(show.theatreId) !in state {
        return Some(TheatreNotFound);
      }
      var theatre := AsTheatre(state[Plain(show.theatreId)]);
      if show.movieHallNo < 1 || show.movieHallNo > theatre.movieHallNos {
        return Some(InvalidHall);
      }
      var start := Parse(show.showStartDate);
      if start.None? {
        return Some(InvalidDate);
      }
      var end := Parse(show.showEndDate);
      if end.None? {
        return Some(InvalidDate);
      }
      if Before(end.value, start.value) {
        return Some(InvalidDate);
      }
      if !KeyAttribute(show.theatreId) || !KeyAttribute(show.showTime) {
        return Some(Storage);
      }
      var writes := ShowDays(show, start.value, end.value);
      if writes.Err? {
        return Some(writes.error);
      }
      state := state + writes.value;
      return None;
    }

    /**
     * The day loop of Register_show: from the start day to the end day, one
     * day at a time, the show key of each day must be free; the writes for all
     * days are returned, or DuplicateShow at the first taken day.
     */
    method ShowDays(show: Show, start: Date, end: Date) returns (r: Result<State>)
      requires ValidDate(start) && ValidDate(end) && !Before(end, start)
      ensures var dates := DayLabels(start, DaysInRange(start, end));
        r == if DayTaken(state, show, dates) then Err(DuplicateShow) else Ok(ShowWrites(show, dates))
    {
      ghost var n := DaysInRange(start, end);
      ghost var dates := DayLabels(start, n);
      ghost var i := 0;
      var writes: State := map[];
      var d := start;
      while !After(d, end)
        invariant 0 <= i <= n
        invariant ValidDate(d) && d == DayAfter(start, i)
        invariant writes == ShowWrites(show, dates[..i])
        invariant forall date | date in dates[..i] :: ShowDateKey(show, date) !in state
        decreases DayNumber(end) - DayNumber(d)
      {
        var date := Format(d);
        var key := ShowDateKey(show, date);
        DayLabelAt(start, n, i);
        NextDayLabel(start, n, i);
        if key in state {
          assert date in dates;
          return Err(DuplicateShow);
        }
        ShowWritesSnoc(show, dates[..i], date);
        writes := writes[key := ShowOnDate(show, date)];
        NextIsFollowingDay(d);
        d := Next(d);
        i := i + 1;
      }
      assert dates[..i] == dates;
      return Ok(writes);
    }

    /** Add_cafeteria_inventory. */
    method AddCafeteriaInventory(theatreId: string, quantity: int) returns (err: Option<Error>)
      requires Valid()
      modifies this
      ensures Valid()
      ensures err == ErrorOf(InventoryAddition(old(state), theatreId, quantity))
      ensures state == Commit(old(state), InventoryAddition(old(state), theatreId, quantity))
    {
      InventoryAdditionKeepsInvariant(state, theatreId, quantity);
      var key := CafeteriaKey(theatreId);
      if key !in state {
        return Some(CafeteriaNotFound);
      }
      var cafeteria := AsCafeteria(state[key]);
      cafeteria := cafeteria.(sodaBottleQuantity := cafeteria.sodaBottleQuantity + quantity);
      state := state + map[key := CafeteriaRecord(cafeteria)];
      return None;
    }

    /**
     * The seat reconciler (GetSeatAvailability): the show and theatre lookups,
     * then the theatre's capacity minus the seats of every sold ticket, taken
     * from the query results in whatever order they come.
     */
    method SeatAvailability(q: SeatAvailabilityQuery) returns (r: Result<int>)
      requires Valid()
      ensures r == Availability(state, q)
    {
      if !KeyAttribute(q.theatreId) || !KeyAttribute(q.showDate) || !KeyAttribute(q.showTime) {
        return Err(ShowNotFound);
      }
      if InstanceKey(q) !in state {
        return Err(ShowNotFound);
      }
      if Plain(q.theatreId) !in state {
        return Err(TheatreNotFound);
      }
      var totalTicketsAvailable := AsTheatre(state[Plain(q.theatreId)]).ticketsPerShow;
      var results := SoldTicketKeys(state, q);
      var soldTickets := 0;
      while results != {}
        invariant results <= SoldTicketKeys(state, q)
        invariant soldTickets + SumSeats(state, results) == SoldSeats(state, q)
        decreases results
      {
        var k :| k in results;
        SumSeatsRemove(state, results, k);
        soldTickets := soldTickets + AsTicket(state[k]).noOfSeats;
        results := results - {k};
      }
      return Ok(totalTicketsAvailable - soldTickets);
    }

    /**
     * Get_seat_availability. The seats left for a show of a theatre whose
     * capacity is not negative lie between zero and that capacity.
     */
    method GetSeatAvailability(input: Input<SeatAvailabilityQuery>) returns (r: Result<int>)
      requires Valid()
      ensures r == SeatAvailabilityAnswer(state, input)
      ensures r.Ok? ==> var theatre := state[Plain(input.value.theatreId)];
        theatre.TheatreRecord? && theatre.theatre.ticketsPerShow >= 0
        ==> 0 <= r.value <= theatre.theatre.ticketsPerShow
    {
      if input.Malformed? || !QueryFieldsValid(input.value) {
        return Err(InvalidInput);
      }
      r := SeatAvailability(input.value);
      if r.Ok? {
        var theatre := state[Plain(input.value.theatreId)];
        if theatre.TheatreRecord? && theatre.theatre.ticketsPerShow >= 0 {
          SeatsLeftWithinCapacity(state, input.value);
        }
      }
    }

    /**
     * Get_shows: every show the filter describes, once each, in no particular
     * order. `keys` are the ledger keys of the query results, one per show.
     */
    method GetShows(input: Input<ShowSearchQuery>) returns (r: Result<seq<Show>>, ghost keys: seq<Key>)
      requires Valid()
      ensures input.Malformed? ==> r == Err(InvalidInput)
      ensures input.Parsed? ==> r.Ok?
      ensures r.Ok? ==> |keys| == |r.value|
      ensures r.Ok? ==> forall i, j | 0 <= i < j < |keys| :: keys[i] != keys[j]
      ensures r.Ok? ==> forall k :: k in keys <==> k in state && ShowMatches(input.value, state[k])
      ensures r.Ok? ==> forall i | 0 <= i < |keys| :: keys[i] in state && state[keys[i]].ShowRecord? && r.value[i] == state[keys[i]].show
      ensures r.Ok? ==> forall x ::
        x in r.value <==> exists k | k in state :: ShowMatches(input.value, state[k]) && state[k].show == x
      ensures r.Ok? ==> |r.value| == |set k | k in state && ShowMatches(input.value, state[k])|
    {
      if input.Malformed? {
        return Err(InvalidInput), [];
      }
      var q := input.value;
      var selected := SelectedKeys(state, NonEmpty(Filters(q)));
      SelectedAreMatching(state, q);
      var shows;
      shows, keys := CollectShows(selected);
      return Ok(shows), keys;
    }

    /**
     * The loop of Get_shows: the show of every query result, once each.
     * `keys` lists the results in the order their shows are appended.
     */
    method CollectShows(selected: set<Key>) returns (shows: seq<Show>, ghost keys: seq<Key>)
      requires selected <= state.Keys
      requires forall k | k in selected :: state[k].ShowRecord?
      ensures |keys| == |shows| == |selected|
      ensures forall i, j | 0 <= i < j < |keys| :: keys[i] != keys[j]
      ensures forall k :: k in keys <==> k in selected
      ensures forall i | 0 <= i < |keys| :: keys[i] in state && state[keys[i]].ShowRecord? && shows[i] == state[keys[i]].show
      ensures forall x :: x in shows <==> exists k | k in selected :: state[k].show == x
    {
      var results := selected;
      shows, keys := [], [];
      ghost var seen: set<Key> := {};
      while results != {}
        invariant results <= selected && seen == selected - results
        invariant |keys| == |seen|
        invariant forall i, j | 0 <= i < j < |keys| :: keys[i] != keys[j]
        invariant forall k :: k in keys <==> k in seen
        invariant ShowsUnder(state, keys, shows)
        decreases results
      {
        var k :| k in results;
        assert k !in keys && k !in seen;
        ShowsUnderAppend(state, keys, shows, k);
        shows, keys := shows + [state[k].show], keys + [k];
        results := results - {k};
        seen := seen + {k};
      }
      ShowsOfKeys(state, selected, shows, keys);
    }

    /** Book_ticket. */
    method BookTicket(input: Input<Ticket>) returns (err: Option<Error>)
      requires Valid()
      modifies this
      ensures Valid()
      ensures err == ErrorOf(TicketBooking(old(state), input))
      ensures state == Commit(old(state), TicketBooking(old(state), input))
    {
      TicketBookingKeepsInvariant(state, input);
      if input.Malformed? || !TicketFieldsValid(input.value) {
        return Some(InvalidInput);
      }
      var ticket := input.value;
      var availableSeats := SeatAvailability(InstanceOf(ticket));
      if availableSeats.Err? {
        return Some(availableSeats.error);
      }
      if availableSeats.value < ticket.noOfSeats {
        return Some(SeatsNotAvailable);
      }
      ticket := ticket.(recordType := TicketRecordType);
      if !Writable(Plain(ticket.ticketId)) {
        return Some(Storage);
      }
      state := state + map[Plain(ticket.ticketId) := TicketRecord(ticket)];
      return None;
    }

    /** Replace_with_soda_bottle: true when the bottle was handed out. */
    method ReplaceWithSodaBottle(ticketId: string) returns (replaced: bool, err: Option<Error>)
      requires Valid()
      modifies this
      ensures Valid()
      ensures replaced <==> SodaRedemption(old(state), ticketId).Ok?
      ensures err == ErrorOf(SodaRedemption(old(state), ticketId))
      ensures state == Commit(old(state), SodaRedemption(old(state), ticketId))
    {
      SodaRedemptionKeepsInvariant(state, ticketId);
      SodaRedemptionErrors(state, ticketId);
      if Plain(ticketId) !in state {
        return false, Some(InvalidTicket);
      }
      var ticket := AsTicket(state[Plain(ticketId)]);
      if ticket.recordType != TicketRecordType {
        return false, Some(InvalidTicket);
      }
      if ticket.luckyNo % 2 != 0 {
        return false, Some(NotEligible);
      }
      if ReplaceKey(ticketId) in state {
        return false, Some(AlreadyReplaced);
      }
      var cafeteriaKey := CafeteriaKey(ticket.theatreId);
      if cafeteriaKey !in state {
        return false, Some(CafeteriaNotFound);
      }
      var cafeteria := AsCafeteria(state[cafeteriaKey]);
      if cafeteria.sodaBottleQuantity < 1 {
        return false, Some(OutOfStock);
      }
      var writes: State := map[ReplaceKey(ticketId) := ReplacementRecord(SodaBottleReplacement(ticketId))];
      cafeteria := cafeteria.(sodaBottleQuantity := cafeteria.sodaBottleQuantity - 1);
      writes := writes[cafeteriaKey := CafeteriaRecord(cafeteria)];
      assert SodaRedemption(state, ticketId) == Ok(writes);
      state := state + writes;
      return true, None;
    }
  }
}
