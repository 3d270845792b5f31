/**
 * The seat reconciler: the seats left for a show instance are the theatre's
 * capacity minus the seats of every ticket already sold for that instance.
 * Tickets are found by a rich query on five fields and the record type; the
 * seats are added up over the query's results, in whatever order they come.
 */
module Seats {
  import opened Defs

  /**
   * The sold-ticket selector: record type 2 and the same theatre, show, day,
   * time and hall. Only tickets carry record type 2 (an invariant of the
   * ledger), so the selector picks ticket records.
   */
  predicate IsSoldFor(q: SeatAvailabilityQuery, r: Record) {
    r.TicketRecord? && r.ticket.recordType == TicketRecordType && InstanceOf(r.ticket) == q
  }

  /** The keys the sold-ticket query returns. */
  function SoldTicketKeys(m: State, q: SeatAvailabilityQuery): (ks: set<Key>)
    ensures ks <= m.Keys
    ensures forall k | k in m :: k in ks <==> IsSoldFor(q, m[k])
  {
    set k | k in m && IsSoldFor(q, m[k])
  }

  ghost function Pick(ks: set<Key>): Key
    requires ks != {}
  {
    var k :| k in ks; k
  }

  /** The seats of the tickets at keys `ks`, each record read as a ticket. */
  ghost function SumSeats(m: State, ks: set<Key>): int
    requires ks <= m.Keys
    decreases ks
  {
    if ks == {} then 0
    else
      var k := Pick(ks);
      AsTicket(m[k]).noOfSeats + SumSeats(m, ks - {k})
  }

  /** The seats sold for an instance. */
  ghost function SoldSeats(m: State, q: SeatAvailabilityQuery): int {
    SumSeats(m, SoldTicketKeys(m, q))
  }

  /**
   * The sum does not depend on the order of the query results: any result can
   * be taken first.
   */
  lemma {:induction false} SumSeatsRemove(m: State, ks: set<Key>, k: Key)
    requires ks <= m.Keys && k in ks
    ensures SumSeats(m, ks) == AsTicket(m[k]).noOfSeats + SumSeats(m, ks - {k})
    decreases ks
  {
    var j := Pick(ks);
    if j != k {
      SumSeatsRemove(m, ks - {j}, k);
      SumSeatsRemove(m, ks - {k}, j);
      assert ks - {j} - {k} == ks - {k} - {j};
    }
  }

  /** The sum reads only the records at the keys summed over. */
  lemma {:induction false} SumSeatsFrame(m: State, m': State, ks: set<Key>)
    requires ks <= m.Keys && ks <= m'.Keys
    requires forall k | k in ks :: m[k] == m'[k]
    ensures SumSeats(m, ks) == SumSeats(m', ks)
    decreases ks
  {
    if ks != {} {
      var k := Pick(ks);
      SumSeatsFrame(m, m', ks - {k});
    }
  }

  /** Every stored ticket's seat count is at least `lo`. */
  ghost predicate SeatsAtLeast(m: State, lo: int) {
    forall k | k in m && m[k].TicketRecord? :: m[k].ticket.noOfSeats >= lo
  }

  /** Every key of `ks` holds a ticket. */
  ghost predicate AllTickets(m: State, ks: set<Key>)
    requires ks <= m.Keys
  {
    forall k | k in ks :: m[k].TicketRecord?
  }

  /** With no negative seat counts, summing over fewer keys gives no more. */
  lemma {:induction false} SumSeatsSubset(m: State, small: set<Key>, big: set<Key>)
    requires small <= big <= m.Keys
    requires SeatsAtLeast(m, 0)
    ensures 0 <= SumSeats(m, small) <= SumSeats(m, big)
    decreases big
  {
    if big != {} {
      var k := Pick(big);
      if k in small {
        SumSeatsRemove(m, small, k);
        SumSeatsSubset(m, small - {k}, big - {k});
      } else {
        SumSeatsSubset(m, small, big - {k});
      }
    }
  }

  /** With every seat count at least one, the sum is at least the number of keys. */
  lemma {:induction false} SumSeatsAtLeastCount(m: State, ks: set<Key>)
    requires ks <= m.Keys && AllTickets(m, ks)
    requires SeatsAtLeast(m, 1)
    ensures SumSeats(m, ks) >= |ks|
    decreases ks
  {
    if ks != {} {
      SumSeatsAtLeastCount(m, ks - {Pick(ks)});
    }
  }

  /**
   * Writing record `r` at key `k` changes the seats sold for an instance by
   * what `r` sells for it minus what the record it replaces sold.
   */
  lemma SoldSeatsAfterWrite(m: State, k: Key, r: Record, q: SeatAvailabilityQuery)
    ensures SoldSeats(m[k := r], q)
         == SoldSeats(m, q)
            - (if k in m && IsSoldFor(q, m[k]) then AsTicket(m[k]).noOfSeats else 0)
            + (if IsSoldFor(q, r) then AsTicket(r).noOfSeats else 0)
  {
    var m' := m[k := r];
    var before, after := SoldTicketKeys(m, q), SoldTicketKeys(m', q);
    var rest := before - {k};
    SumSeatsFrame(m, m', rest);
    if k in before {
      SumSeatsRemove(m, before, k);
    } else {
      assert rest == before;
    }
    if IsSoldFor(q, r) {
      assert after == rest + {k};
      SumSeatsRemove(m', after, k);
      assert after - {k} == rest;
    } else {
      assert after == rest;
    }
  }

  /**
   * Writing records none of which is a sold ticket for `q` can only take sold
   * tickets away: the seats sold afterwards are those of the tickets left.
   */
  lemma WritesWithoutTickets(m: State, w: State, q: SeatAvailabilityQuery)
    requires forall k | k in w :: !IsSoldFor(q, w[k])
    requires SeatsAtLeast(m, 0)
    ensures SoldTicketKeys(m + w, q) == SoldTicketKeys(m, q) - w.Keys
    ensures 0 <= SoldSeats(m + w, q) <= SoldSeats(m, q)
  {
    var m' := m + w;
    var keep := SoldTicketKeys(m, q) - w.Keys;
    assert SoldTicketKeys(m', q) == keep;
    SumSeatsFrame(m, m', keep);
    SumSeatsSubset(m, keep, SoldTicketKeys(m, q));
  }

  /**
   * GetSeatAvailability: INVALID_SHOW_INFO when no show is stored at the
   * instance's show key (checked first; a key that cannot be built is the
   * empty key, under which nothing is stored), INVALID_THEATRE_ID when nothing
   * is stored at the theatre id, and otherwise the theatre's tickets per show
   * minus the seats sold, not clamped at zero.
   */
  ghost function Availability(m: State, q: SeatAvailabilityQuery): (r: Result<int>)
    ensures r.Ok? <==> InstanceFound(m, q) && Plain(q.theatreId) in m
    ensures !InstanceFound(m, q) ==> r == Err(ShowNotFound)
    ensures InstanceFound(m, q) && Plain(q.theatreId) !in m ==> r == Err(TheatreNotFound)
  {
    if !InstanceFound(m, q) then Err(ShowNotFound)
    else if Plain(q.theatreId) !in m then Err(TheatreNotFound)
    else Ok(AsTheatre(m[Plain(q.theatreId)]).ticketsPerShow - SoldSeats(m, q))
  }

  /** The show lookup of the reconciler finds a record. */
  predicate InstanceFound(m: State, q: SeatAvailabilityQuery) {
    KeyAttribute(q.theatreId) && KeyAttribute(q.showDate) && KeyAttribute(q.showTime)
    && InstanceKey(q) in m
  }

  /**
   * When every ticket sells at least one seat, the seats left never exceed the
   * theatre's capacity, and equal it exactly when nothing is sold yet.
   */
  lemma AvailabilityAtMostCapacity(m: State, q: SeatAvailabilityQuery)
    requires SeatsAtLeast(m, 1)
    requires Availability(m, q).Ok?
    ensures Availability(m, q).value <= AsTheatre(m[Plain(q.theatreId)]).ticketsPerShow
    ensures Availability(m, q).value == AsTheatre(m[Plain(q.theatreId)]).ticketsPerShow
            <==> SoldTicketKeys(m, q) == {}
  {
    SumSeatsAtLeastCount(m, SoldTicketKeys(m, q));
  }

  /** The seats left can be negative: nothing clamps them. */
  lemma AvailabilityNotClamped()
    ensures exists m: State, q: SeatAvailabilityQuery :: Availability(m, q) == Ok(-1)
  {
    OverbookedSold();
    assert Availability(OverbookedLedger(), OverbookedQuery) == Ok(-1);
  }

  // A one-seat theatre whose show S1 has a two-seat ticket K1 sold.

  const OverbookedQuery := SeatAvailabilityQuery("T1", "S1", "2024-02-01", "18:00", 1)

  function OverbookedLedger(): (m: State)
    ensures InstanceFound(m, OverbookedQuery) && Plain("T1") in m
    ensures AsTheatre(m[Plain("T1")]).ticketsPerShow == 1
  {
    map[Plain("T1") := TheatreRecord(Theatre("T1", 1, 1, 1, TheatreRecordType)),
        InstanceKey(OverbookedQuery) := ShowRecord(Show("T1", 1, "S1", "Film", "2024-02-01", "2024-02-01", "2024-02-01", "18:00", ShowRecordType)),
        Plain("K1") := TicketRecord(Ticket("K1", "T1", "S1", "2024-02-01", "18:00", 1, 2, 1, TicketRecordType))]
  }

  lemma OverbookedSold()
    ensures SoldSeats(OverbookedLedger(), OverbookedQuery) == 2
  {
    var m := OverbookedLedger();
    assert SoldTicketKeys(m, OverbookedQuery) == {Plain("K1")};
    SumSeatsRemove(m, {Plain("K1")}, Plain("K1"));
  }
}
