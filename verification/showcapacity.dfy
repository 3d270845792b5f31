/**
 * Seats per show slot. A show slot is a show key: a theatre, a day, a time and
 * a hall. The reconciler finds the show by its slot, which leaves out the show
 * id, but counts the sold tickets of one show id only. As written, one slot
 * can therefore sell its capacity once for every show id a booking names.
 * With the intended gate — a booking must name the show stored at its slot —
 * no slot sells more than its theatre's seats per show.
 */
module ShowCapacity {
  import opened Wrappers
  import opened Dates
  import opened Defs
  import opened Seats
  import opened Transactions

  /** The slot a ticket is for: the show key of its instance. */
  function SlotOf(t: Ticket): Key {
    InstanceKey(InstanceOf(t))
  }

  /** A record is a ticket of record type 2 sold for the slot, whatever show id it names. */
  predicate IsSoldAt(slot: Key, r: Record) {
    r.TicketRecord? && r.ticket.recordType == TicketRecordType && SlotOf(r.ticket) == slot
  }

  /** The keys of the tickets sold for a slot. */
  function TicketsAtSlot(m: State, slot: Key): (ks: set<Key>)
    ensures ks <= m.Keys
    ensures forall k | k in m :: k in ks <==> IsSoldAt(slot, m[k])
  {
    set k | k in m && IsSoldAt(slot, m[k])
  }

  /** The seats sold for a slot, over every show id. */
  ghost function SeatsAtSlot(m: State, slot: Key): int {
    SumSeats(m, TicketsAtSlot(m, slot))
  }

  /** Slot `slot` of a stored theatre has sold more seats than the theatre has. */
  ghost predicate Oversold(m: State, slot: Key) {
    slot.ShowKey? && Plain(slot.theatreId) in m && m[Plain(slot.theatreId)].TheatreRecord?
    && SeatsAtSlot(m, slot) > Capacity(m[Plain(slot.theatreId)].theatre)
  }

  // ---------------------------------------------------------------------------
  // As written.

  /**
   * From a ledger keeping the invariant, `t1` and then `t2` are both booked
   * and their common slot ends up oversold.
   */
  ghost predicate BookedTwiceOversold(m: State, t1: Ticket, t2: Ticket) {
    Invariant(m) && TicketBooking(m, Parsed(t1)).Ok?
    && var m1 := Commit(m, TicketBooking(m, Parsed(t1)));
    TicketBooking(m1, Parsed(t2)).Ok?
    && Oversold(Commit(m1, TicketBooking(m1, Parsed(t2))), SlotOf(t1))
  }

  // Theatre T1 sells one seat per show and has one show, S1, at 18:00 in
  // hall 1 on 2024-02-01. K1 is a one-seat ticket for S1; K2 is a one-seat
  // ticket for the same slot naming show OTHER.

  const Slot := ShowKey("T1", "2024-02-01", "18:00", 1)
  const Ticket1 := Ticket("K1", "T1", "S1", "2024-02-01", "18:00", 1, 1, 2, 0)
  const Ticket2 := Ticket("K2", "T1", "OTHER", "2024-02-01", "18:00", 1, 1, 2, 0)

  function OneShowLedger(): (m: State)
    ensures Slot in m && Plain("T1") in m
  {
    map[Plain("T1") := TheatreRecord(Theatre("T1", 1, 1, 1, TheatreRecordType)),
        Slot := ShowRecord(Show("T1", 1, "S1", "Film", "2024-02-01", "2024-02-01", "2024-02-01", "18:00", ShowRecordType))]
  }

  lemma OneShowLedgerKeepsInvariant()
    ensures Invariant(OneShowLedger())
  {
    var m := OneShowLedger();
    forall q: SeatAvailabilityQuery ensures SoldTicketKeys(m, q) == {} {
    }
  }

  /** The one-show ledger after K1 is booked. */
  function AfterFirst(): State {
    OneShowLedger()[Plain("K1") := StoredTicket(Ticket1)]
  }

  /** The one-show ledger after K1 and then K2 are booked. */
  function AfterSecond(): State {
    AfterFirst()[Plain("K2") := StoredTicket(Ticket2)]
  }

  lemma FirstBooking()
    ensures TicketBooking(OneShowLedger(), Parsed(Ticket1)).Ok?
    ensures Commit(OneShowLedger(), TicketBooking(OneShowLedger(), Parsed(Ticket1))) == AfterFirst()
  {
    var m := OneShowLedger();
    assert SoldTicketKeys(m, InstanceOf(Ticket1)) == {};
    assert Availability(m, InstanceOf(Ticket1)) == Ok(1);
    assert TicketBooking(m, Parsed(Ticket1)) == Ok(map[Plain("K1") := StoredTicket(Ticket1)]);
  }

  lemma SecondBooking()
    ensures TicketBooking(AfterFirst(), Parsed(Ticket2)).Ok?
    ensures Commit(AfterFirst(), TicketBooking(AfterFirst(), Parsed(Ticket2))) == AfterSecond()
  {
    var m1 := AfterFirst();
    assert SoldTicketKeys(m1, InstanceOf(Ticket2)) == {};
    assert Availability(m1, InstanceOf(Ticket2)) == Ok(1);
    assert TicketBooking(m1, Parsed(Ticket2)) == Ok(map[Plain("K2") := StoredTicket(Ticket2)]);
  }

  lemma BothSold()
    ensures SlotOf(Ticket1) == Slot
    ensures Oversold(AfterSecond(), Slot)
  {
    var m2 := AfterSecond();
    var both := {Plain("K1"), Plain("K2")};
    assert TicketsAtSlot(m2, Slot) == both;
    SumSeatsRemove(m2, both, Plain("K1"));
    assert both - {Plain("K1")} == {Plain("K2")};
    SumSeatsRemove(m2, {Plain("K2")}, Plain("K2"));
    assert m2[Plain("T1")] == OneShowLedger()[Plain("T1")];
  }

  /**
   * Book_ticket as written oversells a slot: from the one-show ledger, which
   * keeps the invariant, K1 and then K2 are both booked, and the slot of the
   * one-seat theatre has sold two seats.
   */
  lemma OversoldAcrossShowIds()
    ensures exists m: State, t1: Ticket, t2: Ticket :: BookedTwiceOversold(m, t1, t2)
  {
    OneShowLedgerKeepsInvariant();
    FirstBooking();
    SecondBooking();
    BothSold();
    assert BookedTwiceOversold(OneShowLedger(), Ticket1, Ticket2);
  }

  // ---------------------------------------------------------------------------
  // As intended.

  /** The ticket names the show stored at its slot. */
  predicate NamesStoredShow(m: State, t: Ticket) {
    SlotOf(t) in m && m[SlotOf(t)].ShowRecord? && m[SlotOf(t)].show.showId == t.showId
  }

  /**
   * Book_ticket with the intended gate: a ticket that passes every check of
   * Book_ticket but names another show id than the one stored at its slot is
   * refused as INVALID_SHOW_INFO; everything else is as Book_ticket.
   */
  ghost function CheckedTicketBooking(m: State, input: Input<Ticket>): (r: Result<State>)
    ensures r.Ok? <==> TicketBooking(m, input).Ok? && NamesStoredShow(m, input.value)
    ensures r.Ok? ==> r == TicketBooking(m, input)
    ensures TicketBooking(m, input).Err? ==> r == TicketBooking(m, input)
  {
    match input
    case Malformed => Err(InvalidInput)
    case Parsed(t) =>
      if !TicketFieldsValid(t) then Err(InvalidInput)
      else
        var available := Availability(m, InstanceOf(t));
        if available.Err? then Err(available.error)
        else if available.value < t.noOfSeats then Err(SeatsNotAvailable)
        else if !Writable(Plain(t.ticketId)) then Err(Storage)
        else if !NamesStoredShow(m, t) then Err(ShowNotFound)
        else Ok(map[Plain(t.ticketId) := StoredTicket(t)])
  }

  /** Every show key holds a show. */
  ghost predicate ShowKeysHoldShows(m: State) {
    forall k | k in m && k.ShowKey? :: m[k].ShowRecord?
  }

  /** Every stored ticket names the show stored at its slot. */
  ghost predicate TicketsNameTheirShow(m: State) {
    forall k | k in m && m[k].TicketRecord? :: NamesStoredShow(m, m[k].ticket)
  }

  /** The ledger invariant, with every show key holding a show and every ticket naming it. */
  ghost predicate SlotInvariant(m: State) {
    Invariant(m) && ShowKeysHoldShows(m) && TicketsNameTheirShow(m)
  }

  /** No slot of a stored theatre has sold more seats than the theatre has. */
  ghost predicate NoSlotOversold(m: State) {
    forall slot | slot in m :: !Oversold(m, slot)
  }

  /**
   * Under the slot invariant the tickets of a slot are those of the show
   * stored there, so the per-show bound of the ledger invariant bounds the
   * whole slot.
   */
  lemma SlotInvariantBoundsSlots(m: State)
    requires SlotInvariant(m)
    ensures NoSlotOversold(m)
  {
    forall slot | slot in m && slot.ShowKey? && Plain(slot.theatreId) in m && m[Plain(slot.theatreId)].TheatreRecord?
      ensures SeatsAtSlot(m, slot) <= Capacity(m[Plain(slot.theatreId)].theatre)
    {
      var q := SeatAvailabilityQuery(slot.theatreId, m[slot].show.showId, slot.showDate, slot.showTime, slot.movieHallNo);
      forall k | k in m ensures IsSoldAt(slot, m[k]) <==> IsSoldFor(q, m[k]) {
        if IsSoldAt(slot, m[k]) {
          assert NamesStoredShow(m, m[k].ticket);
        }
      }
      assert TicketsAtSlot(m, slot) == SoldTicketKeys(m, q);
    }
  }

  /**
   * Writes of no ticket, whose show keys were free and get shows, keep every
   * show key holding a show and every ticket naming its show.
   */
  lemma OtherWritesKeepSlots(m: State, w: State)
    requires ShowKeysHoldShows(m) && TicketsNameTheirShow(m)
    requires forall k | k in w :: !w[k].TicketRecord? && (k.ShowKey? ==> k !in m && w[k].ShowRecord?)
    ensures ShowKeysHoldShows(m + w) && TicketsNameTheirShow(m + w)
  {
    var m' := m + w;
    forall k | k in m' && m'[k].TicketRecord? ensures NamesStoredShow(m', m'[k].ticket) {
      assert k !in w;
      var slot := SlotOf(m[k].ticket);
      assert NamesStoredShow(m, m[k].ticket);
      assert slot !in w;
    }
  }

  lemma CheckedTicketBookingKeepsSlotInvariant(m: State, input: Input<Ticket>)
    requires SlotInvariant(m)
    ensures SlotInvariant(Commit(m, CheckedTicketBooking(m, input)))
  {
    TicketBookingKeepsInvariant(m, input);
    var r := CheckedTicketBooking(m, input);
    if r.Ok? {
      var t := input.value;
      var k := Plain(t.ticketId);
      var m' := m[k := StoredTicket(t)];
      assert Commit(m, r) == m';
      forall j | j in m' && m'[j].TicketRecord? ensures NamesStoredShow(m', m'[j].ticket) {
        if j != k {
          assert NamesStoredShow(m, m[j].ticket);
        }
      }
    }
  }

  lemma TheatreRegistrationKeepsSlotInvariant(m: State, input: Input<Theatre>)
    requires SlotInvariant(m)
    ensures SlotInvariant(Commit(m, TheatreRegistration(m, input)))
  {
    TheatreRegistrationKeepsInvariant(m, input);
    var r := TheatreRegistration(m, input);
    if r.Ok? {
      OtherWritesKeepSlots(m, r.value);
    }
  }

  lemma ShowRegistrationKeepsSlotInvariant(m: State, input: Input<Show>)
    requires SlotInvariant(m)
    ensures SlotInvariant(Commit(m, ShowRegistration(m, input)))
  {
    ShowRegistrationKeepsInvariant(m, input);
    var r := ShowRegistration(m, input);
    if r.Ok? {
      var s := input.value;
      var start, end := Parse(s.showStartDate).value, Parse(s.showEndDate).value;
      ShowRegistrationDays(m, s);
      ShowWritesAreShows(s, DayLabels(start, DaysInRange(start, end)));
      OtherWritesKeepSlots(m, r.value);
    }
  }

  lemma InventoryAdditionKeepsSlotInvariant(m: State, theatreId: string, quantity: int)
    requires SlotInvariant(m)
    ensures SlotInvariant(Commit(m, InventoryAddition(m, theatreId, quantity)))
  {
    InventoryAdditionKeepsInvariant(m, theatreId, quantity);
    var r := InventoryAddition(m, theatreId, quantity);
    if r.Ok? {
      OtherWritesKeepSlots(m, r.value);
    }
  }

  lemma SodaRedemptionKeepsSlotInvariant(m: State, ticketId: string)
    requires SlotInvariant(m)
    ensures SlotInvariant(Commit(m, SodaRedemption(m, ticketId)))
  {
    SodaRedemptionKeepsInvariant(m, ticketId);
    var r := SodaRedemption(m, ticketId);
    if r.Ok? {
      OtherWritesKeepSlots(m, r.value);
    }
  }
}
