/**
 * The records of the movie-ticket contract and the ledger keys they are stored
 * under. Every record lives in one key-value ledger; a numeric record type tells
 * the kinds apart in rich queries.
 */
module Defs {

  const ShowRecordType := 1
  const TicketRecordType := 2
  const TheatreRecordType := 3

  /** `ticketsPerShow` is the most tickets one show of any hall can sell. */
  datatype Theatre = Theatre(
    theatreId: string,
    movieHallNos: int,
    ticketsPerShow: int,
    ticketWindowNos: int,
    recordType: int)

  datatype Show = Show(
    theatreId: string,
    movieHallNo: int,
    showId: string,
    showName: string,
    showDate: string,
    showStartDate: string,
    showEndDate: string,
    showTime: string,
    recordType: int)

  datatype ShowSearchQuery = ShowSearchQuery(
    theatreId: string,
    showId: string,
    showName: string,
    showDate: string,
    showTime: string)

  /** One show instance: a theatre, a show, a day, a time and a hall. */
  datatype SeatAvailabilityQuery = SeatAvailabilityQuery(
    theatreId: string,
    showId: string,
    showDate: string,
    showTime: string,
    movieHallNo: int)

  datatype Cafeteria = Cafeteria(sodaBottleQuantity: int)

  datatype Ticket = Ticket(
    ticketId: string,
    theatreId: string,
    showId: string,
    showDate: string,
    showTime: string,
    movieHallNo: int,
    noOfSeats: int,
    luckyNo: int,
    recordType: int)

  /** Marks that the soda bottle of a ticket has been handed out. */
  datatype SodaBottleReplacement = SodaBottleReplacement(ticketId: string)

  /** What one ledger key holds. */
  datatype Record =
    | TheatreRecord(theatre: Theatre)
    | ShowRecord(show: Show)
    | TicketRecord(ticket: Ticket)
    | CafeteriaRecord(cafeteria: Cafeteria)
    | ReplacementRecord(replacement: SodaBottleReplacement)

  /**
   * A ledger key: a plain string, or the composite key of the show index
   * "TheatreId~ShowDate~ShowTime~MovieHallNo", whose four attributes are, in
   * that order, the theatre, the formatted date, the time and the hall.
   * Composite keys are distinct from plain ones and injective in their attributes.
   */
  datatype Key =
    | Plain(name: string)
    | ShowKey(theatreId: string, showDate: string, showTime: string, movieHallNo: int)

  type State = map<Key, Record>

  datatype Error =
    | InvalidInput        // the request does not decode, or a required field is empty or below 1
    | AlreadyRegistered   // the theatre id is already a key
    | TheatreNotFound     // no record at the theatre id
    | InvalidHall         // the hall number is not one of the theatre's halls
    | InvalidDate         // a show date does not parse, or the end is before the start
    | DuplicateShow       // a show already exists on one of the days, at that time and hall
    | CafeteriaNotFound   // no cafeteria record for the theatre
    | ShowNotFound        // no show at that theatre, day, time and hall
    | SeatsNotAvailable   // fewer seats left than requested
    | InvalidTicket       // no record at the ticket id, or not a ticket
    | NotEligible         // the ticket's lucky number is odd
    | AlreadyReplaced     // the ticket's soda bottle was already handed out
    | OutOfStock          // the cafeteria has no soda bottle left
    | Storage             // the ledger refused a write

  datatype Result<T> = Ok(value: T) | Err(error: Error)

  /** A request argument: a JSON text that decodes to a value, or one that does not. */
  datatype Input<T> = Malformed | Parsed(value: T)

  const CafeteriaPrefix := "cafeteria_"
  const ReplacePrefix := "replace_"

  /** The key of a theatre's cafeteria. */
  function CafeteriaKey(theatreId: string): Key {
    Plain(CafeteriaPrefix + theatreId)
  }

  /** The key of a ticket's soda-bottle replacement marker. */
  function ReplaceKey(ticketId: string): Key {
    Plain(ReplacePrefix + ticketId)
  }

  /** The show key of a show instance. */
  function InstanceKey(q: SeatAvailabilityQuery): Key {
    ShowKey(q.theatreId, q.showDate, q.showTime, q.movieHallNo)
  }

  /**
   * An attribute a composite key can hold: one without U+0000 and U+10FFFF.
   * For any other attribute the key cannot be built and the contract goes on
   * with the empty key.
   */
  predicate KeyAttribute(s: string) {
    '\0' !in s && '\U{10FFFF}' !in s
  }

  /** The ledger refuses to write under an empty key. */
  predicate Writable(k: Key) {
    k != Plain("")
  }

  /**
   * Derived keys determine the id they were derived from, never coincide with
   * each other and never coincide with the id itself.
   */
  lemma DerivedKeysDistinct(a: string, b: string)
    ensures CafeteriaKey(a) == CafeteriaKey(b) ==> a == b
    ensures ReplaceKey(a) == ReplaceKey(b) ==> a == b
    ensures CafeteriaKey(a) != ReplaceKey(b)
    ensures CafeteriaKey(a) != Plain(a) && ReplaceKey(a) != Plain(a)
    ensures Writable(CafeteriaKey(a)) && Writable(ReplaceKey(a))
  {
    var ca, cb := CafeteriaPrefix + a, CafeteriaPrefix + b;
    var ra, rb := ReplacePrefix + a, ReplacePrefix + b;
    if ca == cb {
      assert a == ca[|CafeteriaPrefix|..] && b == cb[|CafeteriaPrefix|..];
    }
    if ra == rb {
      assert a == ra[|ReplacePrefix|..] && b == rb[|ReplacePrefix|..];
    }
    assert ca[0] == 'c' && (ReplacePrefix + b)[0] == 'r';
    assert |ca| == |a| + 10 && |ra| == |a| + 8;
  }

  /** Show times are written HH:MM, from 00:00 to 23:59. */
  predicate IsShowTime(t: string) {
    |t| == 5 && t[2] == ':'
    && '0' <= t[0] <= '2' && '0' <= t[1] <= '9' && '0' <= t[3] <= '5' && '0' <= t[4] <= '9'
    && (t[0] == '2' ==> t[1] <= '3')
  }

  // ---------------------------------------------------------------------------
  // Reading a stored record as a given kind. A record is stored as JSON and read
  // back by decoding it into the struct the caller expects; a field is filled
  // when the stored JSON has a field of that name (compared without regard to
  // case) and stays zero otherwise. Only Theatre names its record type
  // "RecordType"; the other kinds write "recordType".

  function AsTheatre(r: Record): Theatre {
    match r
    case TheatreRecord(t) => t
    case ShowRecord(s) => Theatre(s.theatreId, 0, 0, 0, s.recordType)
    case TicketRecord(t) => Theatre(t.theatreId, 0, 0, 0, t.recordType)
    case CafeteriaRecord(_) => Theatre("", 0, 0, 0, 0)
    case ReplacementRecord(_) => Theatre("", 0, 0, 0, 0)
  }

  function AsTicket(r: Record): Ticket {
    match r
    case TheatreRecord(t) => Ticket("", t.theatreId, "", "", "", 0, 0, 0, t.recordType)
    case ShowRecord(s) => Ticket("", s.theatreId, s.showId, s.showDate, s.showTime, s.movieHallNo, 0, 0, s.recordType)
    case TicketRecord(t) => t
    case CafeteriaRecord(_) => Ticket("", "", "", "", "", 0, 0, 0, 0)
    case ReplacementRecord(m) => Ticket(m.ticketId, "", "", "", "", 0, 0, 0, 0)
  }

  function AsCafeteria(r: Record): Cafeteria {
    match r
    case CafeteriaRecord(c) => c
    case _ => Cafeteria(0)
  }

  /**
   * Decoding keeps the fields a record shares with the target kind: a record
   * decodes to a theatre with halls or seats only if it is a theatre, to a
   * ticket of record type 2 only if it is one (given its own tag), and to a
   * cafeteria with stock only if it is one.
   */
  lemma DecodingOtherKinds(r: Record)
    ensures AsTheatre(r).movieHallNos != 0 || AsTheatre(r).ticketsPerShow != 0 ==> r.TheatreRecord?
    ensures AsCafeteria(r).sodaBottleQuantity != 0 ==> r.CafeteriaRecord?
    ensures AsTicket(r).recordType == TicketRecordType && HasOwnTag(r) ==> r.TicketRecord?
    ensures !r.TicketRecord? ==> AsTicket(r).noOfSeats == 0 && AsTicket(r).luckyNo == 0
  {
  }

  /** The record type a record carries is the one of its kind. */
  predicate HasOwnTag(r: Record) {
    match r
    case TheatreRecord(t) => t.recordType == TheatreRecordType
    case ShowRecord(s) => s.recordType == ShowRecordType
    case TicketRecord(t) => t.recordType == TicketRecordType
    case _ => true
  }

  /** The fields Book_ticket insists on. */
  predicate TicketFieldsValid(t: Ticket) {
    t.theatreId != "" && t.showId != "" && t.showDate != "" && t.showTime != ""
    && t.movieHallNo >= 1 && t.noOfSeats >= 1 && t.luckyNo >= 1
  }

  /** The show instance a ticket is for. */
  function InstanceOf(t: Ticket): SeatAvailabilityQuery {
    SeatAvailabilityQuery(t.theatreId, t.showId, t.showDate, t.showTime, t.movieHallNo)
  }
}
