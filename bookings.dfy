/**
 * Bookings: the model's fields and status choices, the serializer's validation
 * and reference, the per-user views of the table, and the seat accounting that
 * ties bookings to their events' `available_seats`.
 */
module Bookings {
  import opened Wrappers
  import opened Permissions
  import opened Events
  import Seqs

  datatype Status = Pending | Confirmed | Cancelled

  /** The stored value of each choice of `STATUS_CHOICES`. */
  function StatusName(s: Status): string {
    match s
    case Pending => "pending"
    case Confirmed => "confirmed"
    case Cancelled => "cancelled"
  }

  function ParseStatus(s: string): (r: Option<Status>)
    ensures r.Some? ==> StatusName(r.value) == s
    ensures r.None? ==> forall k: Status :: StatusName(k) != s
  {
    if s == "pending" then Some(Pending)
    else if s == "confirmed" then Some(Confirmed)
    else if s == "cancelled" then Some(Cancelled)
    else None
  }

  /** A stored status is always one of the three choices, and reads back as itself. */
  lemma StatusRoundTrip(s: Status)
    ensures ParseStatus(StatusName(s)) == Some(s)
    ensures StatusName(s) in {"pending", "confirmed", "cancelled"}
  {
  }

  /** The status a new booking gets: the model default. */
  const DefaultStatus: Status := Pending

  /** A `Booking` row; `payment_intent_id` is nullable and `created_at` a timestamp. */
  datatype Booking = Booking(
    id: nat, userId: nat, eventId: nat, seatsBooked: int, totalPriceCents: int, status: Status,
    paymentIntentId: Option<string>, reference: string, createdAt: int)

  /** `__str__`: `"<username> - <event title> - <reference>"`. */
  function BookingLabel(username: string, title: string, reference: string): (s: string)
    ensures |s| == |username| + |title| + |reference| + 6
    ensures s[..|username|] == username && s[|s| - |reference|..] == reference
    ensures s[|username|..|username| + 3] == " - "
    ensures s[|username| + 3..|username| + 3 + |title|] == title
    ensures s[|username| + 3 + |title|..|username| + 6 + |title|] == " - "
  {
    username + " - " + title + " - " + reference
  }

  // ---- validation and reference ------------------------------------------

  /** The outcome of `BookingSerializer.validate`. */
  datatype Validation =
    | NotEnoughSeats(available: int)   // "Only N seats available."
    | NoSeats                          // "Must book at least 1 seat."
    | Accepted(totalPriceCents: int)

  /**
   * The seat count is checked against the event's available seats first and for
   * positivity second; an accepted booking costs the event price times the seats.
   */
  function ValidateBooking(event: Event, seats: int): (v: Validation)
    ensures v == NotEnoughSeats(event.availableSeats) <==> seats > event.availableSeats
    ensures v == NoSeats <==> seats <= event.availableSeats && seats <= 0
    ensures v.Accepted? <==> 1 <= seats <= event.availableSeats
    ensures v.Accepted? ==> v.totalPriceCents == event.priceCents * seats
  {
    if seats > event.availableSeats then NotEnoughSeats(event.availableSeats)
    else if seats <= 0 then NoSeats
    else Accepted(event.priceCents * seats)
  }

  /** The seat check runs first: an event with no seats left reports that even for a zero request. */
  lemma SeatCheckFirst(event: Event)
    requires event.availableSeats < 0
    ensures ValidateBooking(event, 0) == NotEnoughSeats(event.availableSeats)
  {
  }

  /** `str.upper()` on the characters a uuid string is made of. */
  function UpperChar(c: char): (u: char)
    ensures !('a' <= u <= 'z')
    ensures !('a' <= c <= 'z') ==> u == c
  {
    if 'a' <= c <= 'z' then (c as int - 32) as char else c
  }

  function Upper(s: string): (u: string)
    ensures |u| == |s|
    ensures forall i | 0 <= i < |s| :: u[i] == UpperChar(s[i])
  {
    if s == [] then [] else [UpperChar(s[0])] + Upper(s[1..])
  }

  /** `str(uuid.uuid4())[:8].upper()`: eight characters, none of them lower-case. */
  function ReferenceFrom(uuidText: string): (r: string)
    requires |uuidText| >= 8
    ensures |r| == 8
    ensures forall i | 0 <= i < 8 :: r[i] == UpperChar(uuidText[i]) && !('a' <= r[i] <= 'z')
  {
    Upper(uuidText[..8])
  }

  // ---- who sees what -------------------------------------------------------

  /** `get_queryset`: an admin sees every booking, anyone else only their own. */
  function VisibleTo(u: User, listing: seq<Booking>): (r: seq<Booking>)
    ensures u.role == Admin ==> r == listing
    ensures u.role != Admin ==> forall b :: b in r <==> b in listing && b.userId == u.id
  {
    if u.role == Admin then listing else Seqs.Filter(listing, (b: Booking) => b.userId == u.id)
  }

  /** `my_bookings`: only the requester's own bookings, admins included. */
  function MyBookings(u: User, listing: seq<Booking>): (r: seq<Booking>)
    ensures forall b :: b in r <==> b in listing && b.userId == u.id
  {
    Seqs.Filter(listing, (b: Booking) => b.userId == u.id)
  }

  /** For an admin, `my_bookings` is narrower than the list view whenever someone else has a booking. */
  lemma {:induction false} AdminMyBookingsIsNarrower(u: User, listing: seq<Booking>, b: Booking)
    requires u.role == Admin && b in listing && b.userId != u.id
    ensures b in VisibleTo(u, listing) && b !in MyBookings(u, listing)
  {
  }

  /** `ordering = ['-created_at']`: newest first. */
  predicate NewerFirst(a: Booking, b: Booking) {
    a.createdAt >= b.createdAt
  }

  /** Both per-user lists keep the newest-first order of the table listing. */
  lemma {:induction false} UserListsKeepOrder(u: User, listing: seq<Booking>)
    requires Seqs.SortedBy(listing, NewerFirst)
    ensures Seqs.SortedBy(MyBookings(u, listing), NewerFirst)
    ensures Seqs.SortedBy(VisibleTo(u, listing), NewerFirst)
  {
    Seqs.FilterKeepsOrder(listing, (b: Booking) => b.userId == u.id, NewerFirst);
  }

  /** Position of the booking with primary key `id`, if there is one. */
  function FindBooking(bs: seq<Booking>, id: nat): (r: Option<nat>)
    ensures r.Some? ==> r.value < |bs| && bs[r.value].id == id
    ensures r.None? ==> forall i | 0 <= i < |bs| :: bs[i].id != id
  {
    if bs == [] then None
    else if bs[0].id == id then Some(0)
    else match FindBooking(bs[1..], id)
      case None => None
      case Some(k) => Some(k + 1)
  }

  // ---- seat accounting -----------------------------------------------------

  /** The seats `b` holds on event `eventId`: its seats unless it is cancelled or for another event. */
  function Holding(b: Booking, eventId: nat): int {
    if b.eventId == eventId && b.status != Cancelled then b.seatsBooked else 0
  }

  /** The seats the bookings hold on event `eventId`. */
  function Held(bs: seq<Booking>, eventId: nat): int {
    if bs == [] then 0 else Holding(bs[0], eventId) + Held(bs[1..], eventId)
  }

  /** Every event's available seats are its total minus the seats its live bookings hold. */
  ghost predicate SeatsConserved(events: map<nat, Event>, bs: seq<Booking>) {
    forall id | id in events :: events[id].availableSeats == events[id].totalSeats - Held(bs, id)
  }

  lemma {:induction false} HeldAppend(bs: seq<Booking>, b: Booking, eventId: nat)
    ensures Held(bs + [b], eventId) == Held(bs, eventId) + Holding(b, eventId)
  {
    if bs == [] {
      assert [b][1..] == [];
    } else {
      assert (bs + [b])[1..] == bs[1..] + [b];
      HeldAppend(bs[1..], b, eventId);
    }
  }

  lemma {:induction false} HeldUpdate(bs: seq<Booking>, i: nat, b: Booking, eventId: nat)
    requires i < |bs|
    ensures Held(bs[i := b], eventId) == Held(bs, eventId) - Holding(bs[i], eventId) + Holding(b, eventId)
  {
    if i == 0 {
      assert bs[i := b][1..] == bs[1..];
    } else {
      assert bs[i := b][1..] == bs[1..][i - 1 := b];
      HeldUpdate(bs[1..], i - 1, b, eventId);
    }
  }

  /** No booking on an event: nothing held. */
  lemma {:induction false} HeldNone(bs: seq<Booking>, eventId: nat)
    requires forall i | 0 <= i < |bs| :: bs[i].eventId != eventId
    ensures Held(bs, eventId) == 0
  {
    if bs != [] {
      HeldNone(bs[1..], eventId);
    }
  }

  /** Removing the bookings of one event leaves what every other event holds. */
  lemma {:induction false} HeldWithout(bs: seq<Booking>, gone: nat, eventId: nat)
    requires gone != eventId
    ensures Held(Seqs.Filter(bs, (b: Booking) => b.eventId != gone), eventId) == Held(bs, eventId)
  {
    if bs != [] {
      HeldWithout(bs[1..], gone, eventId);
    }
  }

  // ---- the client-writable status (see Findings) ----------------------------

  /**
   * The status a new booking is stored with as the serializer is written: `status`
   * is not among `read_only_fields`, so a value the client sends is kept.
   */
  function CreatedStatusAsWritten(requested: Option<Status>): (s: Status)
    ensures requested.Some? ==> s == requested.value
    ensures requested.None? ==> s == DefaultStatus
  {
    requested.GetOr(DefaultStatus)
  }

  /**
   * A client that creates a booking already `cancelled` takes seats from the event
   * that no live booking holds, and cancel refuses it, so they are never returned.
   */
  lemma {:induction false} ClientCancelledBookingLosesSeats(
    events: map<nat, Event>, bs: seq<Booking>, b: Booking)
    requires SeatsConserved(events, bs)
    requires b.eventId in events && b.seatsBooked >= 1
    requires b.status == CreatedStatusAsWritten(Some(Cancelled))
    ensures var e := events[b.eventId];
      !SeatsConserved(events[b.eventId := e.(availableSeats := e.availableSeats - b.seatsBooked)], bs + [b])
  {
    HeldAppend(bs, b, b.eventId);
  }
}
