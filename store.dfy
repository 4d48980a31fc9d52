/**
 * The database the event, booking and payment views write to: the `Event` and
 * `Booking` tables, their primary-key counters, and the activity log. Each method
 * is one view action, with its permission check, its error replies and its log row.
 */
module Store {
  import opened Wrappers
  import opened Permissions
  import opened Logs
  import opened Events
  import opened Bookings
  import Payments
  import Seqs

  /** What Stripe hands back for a created payment intent. */
  datatype StripeIntent = StripeIntent(id: string, clientSecret: string)

  /** The replies of the store's view actions. */
  datatype Reply =
    | Unauthenticated                       // 401: no valid token
    | Forbidden                              // 403: permission class refused
    | NotFound                               // 404
    | BadRequest(error: string)              // 400 with an error message
    | SeatsRejected(validation: Validation)  // 400 from `BookingSerializer.validate`
    | InvalidPayload                         // 400: webhook event could not be verified
    | ServerError                            // 500: an exception escaped the view
    | EventCreated(event: Event)             // 201 from the viewset's default `create`
    | EventSaved(event: Event)               // 200 from `update`
    | EventDeleted
    | BookingCreated(booking: Booking)
    | BookingCancelled
    | IntentCreated(clientSecret: string, reference: string, totalPriceCents: int)
    | Acknowledged                           // 200 with an empty body (webhook)
  {
    function Status(): int {
      match this
      case Unauthenticated => 401
      case Forbidden => 403
      case NotFound => 404
      case BadRequest(_) => 400
      case SeatsRejected(_) => 400
      case InvalidPayload => 400
      case ServerError => 500
      case EventCreated(_) => 201
      case EventSaved(_) => 200
      case EventDeleted => 204
      case BookingCreated(_) => 201
      case BookingCancelled => 200
      case IntentCreated(_, _, _) => 200
      case Acknowledged => 200
    }
  }

  /** DRF's reply to a refused permission: 401 without credentials, 403 with them. */
  function Denial(p: Principal): (r: Reply)
    ensures r.Status() == 401 <==> !p.IsAuthenticated()
    ensures r.Status() == 403 <==> p.IsAuthenticated()
  {
    if p.IsAuthenticated() then Forbidden else Unauthenticated
  }

  /**
   * The foreign keys and unique columns: events are stored under their id, below the
   * counter; every booking's event exists; booking ids are below their counter and
   * distinct; references are distinct; every stored booking holds at least one seat.
   */
  ghost predicate TablesValid(events: map<nat, Event>, bs: seq<Booking>, nextEventId: nat, nextBookingId: nat) {
    && (forall id | id in events :: events[id].id == id && id < nextEventId)
    && (forall i | 0 <= i < |bs| :: bs[i].eventId in events && bs[i].id < nextBookingId && bs[i].seatsBooked >= 1)
    && Seqs.DistinctBy(bs, (b: Booking) => b.id)
    && Seqs.DistinctBy(bs, (b: Booking) => b.reference)
  }

  /** The reference `b` would collide with `unique=True`. */
  predicate ReferenceTaken(bs: seq<Booking>, reference: string) {
    exists i | 0 <= i < |bs| :: bs[i].reference == reference
  }

  // ---- seat accounting of each write -----------------------------------------

  /** A new event has no bookings, so its seats are all available. */
  lemma {:induction false} NewEventConserves(events: map<nat, Event>, bs: seq<Booking>, e: Event)
    requires SeatsConserved(events, bs)
    requires forall i | 0 <= i < |bs| :: bs[i].eventId != e.id
    requires e.availableSeats == e.totalSeats
    ensures SeatsConserved(events[e.id := e], bs)
  {
    HeldNone(bs, e.id);
  }

  /**
   * An event update keeps the accounting exactly when the new available
   * count is the new total less what the event's live bookings hold.
   */
  lemma {:induction false} UpdateConservesIff(events: map<nat, Event>, bs: seq<Booking>, id: nat, e: Event)
    requires SeatsConserved(events, bs)
    ensures SeatsConserved(events[id := e], bs) <==> e.availableSeats == e.totalSeats - Held(bs, id)
  {
    var after := events[id := e];
    if e.availableSeats == e.totalSeats - Held(bs, id) {
      forall k | k in after
        ensures after[k].availableSeats == after[k].totalSeats - Held(bs, k)
      {
        if k != id {
          assert after[k] == events[k];
        }
      }
    } else {
      assert after[id] == e;
    }
  }

  /** Deleting an event with its cascaded bookings leaves every other event's accounting intact. */
  lemma {:induction false} CascadeConserves(events: map<nat, Event>, bs: seq<Booking>, gone: nat)
    requires SeatsConserved(events, bs)
    ensures SeatsConserved(events - {gone}, Seqs.Filter(bs, (b: Booking) => b.eventId != gone))
  {
    forall k | k in events - {gone}
      ensures (events - {gone})[k].availableSeats
           == (events - {gone})[k].totalSeats - Held(Seqs.Filter(bs, (b: Booking) => b.eventId != gone), k)
    {
      HeldWithout(bs, gone, k);
    }
  }

  /** A live booking taken from an event's available seats keeps the accounting. */
  lemma {:induction false} BookingConserves(events: map<nat, Event>, bs: seq<Booking>, b: Booking)
    requires SeatsConserved(events, bs)
    requires b.eventId in events && b.status != Cancelled
    ensures var e := events[b.eventId];
      SeatsConserved(events[b.eventId := e.(availableSeats := e.availableSeats - b.seatsBooked)], bs + [b])
  {
    var e := events[b.eventId];
    var after := events[b.eventId := e.(availableSeats := e.availableSeats - b.seatsBooked)];
    forall k | k in after
      ensures after[k].availableSeats == after[k].totalSeats - Held(bs + [b], k)
    {
      HeldAppend(bs, b, k);
    }
  }

  /** Cancelling a live booking and returning its seats keeps the accounting. */
  lemma {:induction false} CancelConserves(events: map<nat, Event>, bs: seq<Booking>, i: nat)
    requires SeatsConserved(events, bs)
    requires i < |bs| && bs[i].eventId in events && bs[i].status != Cancelled
    ensures var e := events[bs[i].eventId];
      SeatsConserved(events[bs[i].eventId := e.(availableSeats := e.availableSeats + bs[i].seatsBooked)],
                     bs[i := bs[i].(status := Cancelled)])
  {
    var e := events[bs[i].eventId];
    var after := events[bs[i].eventId := e.(availableSeats := e.availableSeats + bs[i].seatsBooked)];
    forall k | k in after
      ensures after[k].availableSeats == after[k].totalSeats - Held(bs[i := bs[i].(status := Cancelled)], k)
    {
      HeldUpdate(bs, i, bs[i].(status := Cancelled), k);
    }
  }

  /** A change to a booking that leaves its event, seats and liveness alone keeps the accounting. */
  lemma {:induction false} SameHoldingConserves(events: map<nat, Event>, bs: seq<Booking>, i: nat, b: Booking)
    requires SeatsConserved(events, bs)
    requires i < |bs| && b.eventId == bs[i].eventId && b.seatsBooked == bs[i].seatsBooked
    requires (b.status == Cancelled) == (bs[i].status == Cancelled)
    ensures SeatsConserved(events, bs[i := b])
  {
    forall k | k in events
      ensures events[k].availableSeats == events[k].totalSeats - Held(bs[i := b], k)
    {
      HeldUpdate(bs, i, b, k);
    }
  }

  /**
   * The success webhook confirms whatever it finds: confirming a cancelled booking
   * puts its seats back among the held ones while the event keeps them available.
   */
  lemma {:induction false} ConfirmingCancelledBreaksConservation(events: map<nat, Event>, bs: seq<Booking>, i: nat)
    requires SeatsConserved(events, bs)
    requires i < |bs| && bs[i].eventId in events && bs[i].status == Cancelled && bs[i].seatsBooked >= 1
    ensures !SeatsConserved(events, bs[i := bs[i].(status := Confirmed)])
  {
    HeldUpdate(bs, i, bs[i].(status := Confirmed), bs[i].eventId);
  }

  /** Where a verified webhook event points: the booking it confirms or reports, if any. */
  function WebhookTarget(bs: seq<Booking>, ev: Payments.WebhookEvent): (r: Option<nat>)
    ensures r.Some? ==> r.value < |bs| && ev.bookingId.Some? && bs[r.value].id == ev.bookingId.value
    ensures r.None? && ev.bookingId.Some? ==> forall i | 0 <= i < |bs| :: bs[i].id != ev.bookingId.value
  {
    if ev.bookingId.None? then None else FindBooking(bs, ev.bookingId.value)
  }

  class Database {
    var events: map<nat, Event>
    var bookings: seq<Booking>
    var nextEventId: nat
    var nextBookingId: nat
    const activity: ActivityLog

    ghost predicate Valid()
      reads this
    {
      TablesValid(events, bookings, nextEventId, nextBookingId)
    }

    /** Empty tables; primary keys start at 1, as the database's sequences do. */
    constructor (log: ActivityLog)
      ensures Valid() && SeatsConserved(events, bookings)
      ensures events == map[] && bookings == [] && nextEventId == 1 && nextBookingId == 1 && activity == log
    {
      events, bookings, nextEventId, nextBookingId := map[], [], 1, 1;
      activity := log;
    }

    // ---- events ---------------------------------------------------------------

    /** `create` on the event viewset: admins only; the serializer sets available to total. */
    method CreateEvent(p: Principal, input: EventInput, ip: Option<string>) returns (r: Reply)
      requires Valid()
      modifies this, activity
      ensures Valid()
      ensures old(SeatsConserved(events, bookings)) ==> SeatsConserved(events, bookings)
      ensures !IsAdminUser(p) ==> r == Denial(p) && unchanged(this) && unchanged(activity)
      ensures IsAdminUser(p) ==>
        && r == EventCreated(NewEvent(old(nextEventId), input, p.user)) && r.Status() == 201
        && old(nextEventId) !in old(events)
        && events == old(events)[old(nextEventId) := r.event]
        && nextEventId == old(nextEventId) + 1
        && bookings == old(bookings) && nextBookingId == old(nextBookingId)
        && activity.entries == old(activity.entries) + [LogEntry(Some(p.user.id), "Event Created: " + input.title, ip)]
    {
      if !IsAdminUser(p) {
        return Denial(p);
      }
      var e := NewEvent(nextEventId, input, p.user);
      if SeatsConserved(events, bookings) {
        NewEventConserves(events, bookings, e);
      }
      events := events[nextEventId := e];
      nextEventId := nextEventId + 1;
      activity.entries := activity.entries + [LogEntry(Some(p.user.id), "Event Created: " + e.title, ip)];
      r := EventCreated(e);
    }

    /** `update` on the event viewset: every validated field is saved, `available_seats` included. */
    method UpdateEvent(p: Principal, id: nat, input: EventInput, ip: Option<string>) returns (r: Reply)
      requires Valid()
      modifies this, activity
      ensures Valid()
      ensures !IsAdminUser(p) ==> r == Denial(p) && unchanged(this) && unchanged(activity)
      ensures IsAdminUser(p) && id !in old(events) ==> r == NotFound && unchanged(this) && unchanged(activity)
      ensures IsAdminUser(p) && id in old(events) ==>
        && r == EventSaved(UpdatedEvent(old(events)[id], input))
        && events == old(events)[id := r.event]
        && bookings == old(bookings) && nextEventId == old(nextEventId) && nextBookingId == old(nextBookingId)
        && activity.entries == old(activity.entries) + [LogEntry(Some(p.user.id), "Event Updated: " + input.title, ip)]
        && (old(SeatsConserved(events, bookings)) ==>
              (SeatsConserved(events, bookings) <==> input.availableSeats == input.totalSeats - Held(bookings, id)))
    {
      if !IsAdminUser(p) {
        return Denial(p);
      }
      if id !in events {
        return NotFound;
      }
      var e := UpdatedEvent(events[id], input);
      if SeatsConserved(events, bookings) {
        UpdateConservesIff(events, bookings, id, e);
      }
      events := events[id := e];
      activity.entries := activity.entries + [LogEntry(Some(p.user.id), "Event Updated: " + e.title, ip)];
      r := EventSaved(e);
    }

    /** `destroy` on the event viewset: the row is logged, then deleted with its bookings (CASCADE). */
    method DestroyEvent(p: Principal, id: nat, ip: Option<string>) returns (r: Reply)
      requires Valid()
      modifies this, activity
      ensures Valid()
      ensures old(SeatsConserved(events, bookings)) ==> SeatsConserved(events, bookings)
      ensures !IsAdminUser(p) ==> r == Denial(p) && unchanged(this) && unchanged(activity)
      ensures IsAdminUser(p) && id !in old(events) ==> r == NotFound && unchanged(this) && unchanged(activity)
      ensures IsAdminUser(p) && id in old(events) ==>
        && r == EventDeleted
        && events == old(events) - {id}
        && bookings == Seqs.Filter(old(bookings), (b: Booking) => b.eventId != id)
        && nextEventId == old(nextEventId) && nextBookingId == old(nextBookingId)
        && activity.entries == old(activity.entries) + [LogEntry(Some(p.user.id), "Event Deleted: " + old(events)[id].title, ip)]
    {
      if !IsAdminUser(p) {
        return Denial(p);
      }
      if id !in events {
        return NotFound;
      }
      activity.entries := activity.entries + [LogEntry(Some(p.user.id), "Event Deleted: " + events[id].title, ip)];
      if SeatsConserved(events, bookings) {
        CascadeConserves(events, bookings, id);
      }
      Seqs.FilterKeepsDistinct(bookings, (b: Booking) => b.eventId != id, (b: Booking) => b.id);
      Seqs.FilterKeepsDistinct(bookings, (b: Booking) => b.eventId != id, (b: Booking) => b.reference);
      events := events - {id};
      bookings := Seqs.Filter(bookings, (b: Booking) => b.eventId != id);
      r := EventDeleted;
    }

    // ---- bookings -------------------------------------------------------------

    /**
     * `create` on the booking viewset. The event must exist and a `total_price` must be
     * sent (the model field has no default, so the serializer requires it), although
     * `validate` then replaces it: the serializer validates the seats and prices the booking; the reference is the first eight characters of
     * a fresh uuid, upper-cased, and a collision with an existing one fails the insert
     * (`unique=True`) before anything is written. The new booking is `pending`, carries
     * the client's `payment_intent_id`, and its seats leave the event's available ones.
     */
    method CreateBooking(p: Principal, eventId: nat, seats: int, clientTotal: Option<int>, clientIntentId: Option<string>,
                         uuidText: string, now: int, ip: Option<string>) returns (r: Reply)
      requires Valid()
      requires |uuidText| >= 8
      modifies this, activity
      ensures Valid()
      ensures old(SeatsConserved(events, bookings)) ==> SeatsConserved(events, bookings)
      ensures !r.BookingCreated? ==> unchanged(this) && unchanged(activity)
      ensures !p.IsAuthenticated() ==> r == Unauthenticated
      ensures p.IsAuthenticated() && (eventId !in old(events) || clientTotal.None?) ==> r.BadRequest?
      ensures p.IsAuthenticated() && eventId in old(events) && clientTotal.Some? && !ValidateBooking(old(events)[eventId], seats).Accepted? ==>
        r == SeatsRejected(ValidateBooking(old(events)[eventId], seats))
      ensures p.IsAuthenticated() && eventId in old(events) && clientTotal.Some? && ValidateBooking(old(events)[eventId], seats).Accepted? ==>
        (r == ServerError <==> ReferenceTaken(old(bookings), ReferenceFrom(uuidText)))
      ensures r.BookingCreated? ==>
        && p.IsAuthenticated() && eventId in old(events) && clientTotal.Some?
        && r.booking == Booking(old(nextBookingId), p.user.id, eventId, seats,
                                old(events)[eventId].priceCents * seats, Pending, clientIntentId,
                                ReferenceFrom(uuidText), now)
        && 1 <= seats <= old(events)[eventId].availableSeats
        && bookings == old(bookings) + [r.booking]
        && events == old(events)[eventId := old(events)[eventId].(availableSeats := old(events)[eventId].availableSeats - seats)]
        && events[eventId].availableSeats >= 0
        && nextBookingId == old(nextBookingId) + 1 && nextEventId == old(nextEventId)
        && activity.entries == old(activity.entries) + [LogEntry(Some(p.user.id), "Booking Created: " + r.booking.reference, ip)]
    {
      if !p.IsAuthenticated() {
        return Unauthenticated;
      }
      if eventId !in events {
        return BadRequest("Invalid pk - object does not exist.");
      }
      if clientTotal.None? {
        return BadRequest("This field is required.");
      }
      var event := events[eventId];
      var v := ValidateBooking(event, seats);
      if !v.Accepted? {
        return SeatsRejected(v);
      }
      var reference := ReferenceFrom(uuidText);
      if ReferenceTaken(bookings, reference) {
        return ServerError;
      }
      var b := Booking(nextBookingId, p.user.id, eventId, seats, v.totalPriceCents, Pending, clientIntentId, reference, now);
      InsertBooking(b, ip);
      r := BookingCreated(b);
    }

    /** The writes of a booking creation: the new row, the seats taken, and the log row of its owner. */
    method InsertBooking(b: Booking, ip: Option<string>)
      requires Valid() && b.id == nextBookingId && b.eventId in events && b.seatsBooked >= 1
      requires b.status != Cancelled && !ReferenceTaken(bookings, b.reference)
      modifies this, activity
      ensures Valid()
      ensures old(SeatsConserved(events, bookings)) ==> SeatsConserved(events, bookings)
      ensures bookings == old(bookings) + [b]
      ensures events == old(events)[b.eventId := old(events)[b.eventId].(availableSeats := old(events)[b.eventId].availableSeats - b.seatsBooked)]
      ensures nextBookingId == old(nextBookingId) + 1 && nextEventId == old(nextEventId)
      ensures activity.entries == old(activity.entries) + [LogEntry(Some(b.userId), "Booking Created: " + b.reference, ip)]
    {
      var event := events[b.eventId];
      if SeatsConserved(events, bookings) {
        BookingConserves(events, bookings, b);
      }
      AppendKeepsTables(events, bookings, nextEventId, nextBookingId, b);
      bookings := bookings + [b];
      nextBookingId := nextBookingId + 1;
      events := events[b.eventId := event.(availableSeats := event.availableSeats - b.seatsBooked)];
      activity.entries := activity.entries + [LogEntry(Some(b.userId), "Booking Created: " + b.reference, ip)];
    }

    /**
     * `cancel` on the booking viewset. `get_object` looks the id up among the
     * bookings the requester may see, so another user's booking is a 404; that
     * leaves the view's own owner-or-admin check always passing. A cancelled
     * booking is refused; otherwise it is cancelled and its seats go back.
     */
    method CancelBooking(p: Principal, id: nat, ip: Option<string>) returns (r: Reply)
      requires Valid()
      modifies this, activity
      ensures Valid()
      ensures old(SeatsConserved(events, bookings)) ==> SeatsConserved(events, bookings)
      ensures !r.BookingCancelled? ==> unchanged(this) && unchanged(activity)
      ensures !p.IsAuthenticated() ==> r == Unauthenticated
      ensures p.IsAuthenticated() ==>
        var found := FindBooking(old(bookings), id);
        && (r == NotFound <==>
              found.None? || (p.user.role != Admin && old(bookings)[found.value].userId != p.user.id))
        && (r == BadRequest("Booking already cancelled") <==>
              found.Some? && IsOwnerOrAdmin(p.user, Owned(Some(old(bookings)[found.value].userId)))
              && old(bookings)[found.value].status == Cancelled)
        && (r == BookingCancelled <==>
              found.Some? && IsOwnerOrAdmin(p.user, Owned(Some(old(bookings)[found.value].userId)))
              && old(bookings)[found.value].status != Cancelled)
      ensures r.BookingCancelled? ==>
        var i := FindBooking(old(bookings), id).value;
        var b := old(bookings)[i];
        && p.IsAuthenticated() && IsOwnerOrAdmin(p.user, Owned(Some(b.userId))) && b.status != Cancelled
        && bookings == old(bookings)[i := b.(status := Cancelled)]
        && events == old(events)[b.eventId := old(events)[b.eventId].(availableSeats := old(events)[b.eventId].availableSeats + b.seatsBooked)]
        && nextBookingId == old(nextBookingId) && nextEventId == old(nextEventId)
        && activity.entries == old(activity.entries) + [LogEntry(Some(p.user.id), "Booking Cancelled: " + b.reference, ip)]
    {
      if !p.IsAuthenticated() {
        return Unauthenticated;
      }
      var found := FindBooking(bookings, id);
      if found.None? || (p.user.role != Admin && bookings[found.value].userId != p.user.id) {
        return NotFound;
      }
      var i := found.value;
      var b := bookings[i];
      // The view's own permission check: whatever `get_object` returns passes it.
      assert IsOwnerOrAdmin(p.user, Owned(Some(b.userId)));
      if b.status == Cancelled {
        return BadRequest("Booking already cancelled");
      }
      ReturnSeats(i, p.user.id, ip);
      r := BookingCancelled;
    }

    /** The writes of a cancellation: the status, the seats given back, and the log row of `actor`. */
    method ReturnSeats(i: nat, actor: nat, ip: Option<string>)
      requires Valid() && i < |bookings| && bookings[i].status != Cancelled
      modifies this, activity
      ensures Valid()
      ensures old(SeatsConserved(events, bookings)) ==> SeatsConserved(events, bookings)
      ensures var b := old(bookings)[i];
        && bookings == old(bookings)[i := b.(status := Cancelled)]
        && events == old(events)[b.eventId := old(events)[b.eventId].(availableSeats := old(events)[b.eventId].availableSeats + b.seatsBooked)]
        && nextBookingId == old(nextBookingId) && nextEventId == old(nextEventId)
        && activity.entries == old(activity.entries) + [LogEntry(Some(actor), "Booking Cancelled: " + b.reference, ip)]
    {
      var b := bookings[i];
      var event := events[b.eventId];
      if SeatsConserved(events, bookings) {
        CancelConserves(events, bookings, i);
      }
      UpdateKeepsTables(events, bookings, nextEventId, nextBookingId, i, b.(status := Cancelled));
      bookings := bookings[i := b.(status := Cancelled)];
      EventRowKeepsTables(events, bookings, nextEventId, nextBookingId, event.(availableSeats := event.availableSeats + b.seatsBooked));
      events := events[b.eventId := event.(availableSeats := event.availableSeats + b.seatsBooked)];
      activity.entries := activity.entries + [LogEntry(Some(actor), "Booking Cancelled: " + b.reference, ip)];
    }

    /** A booking made and then cancelled by its owner: the event's available seats are as before. */
    method BookThenCancel(p: Principal, eventId: nat, seats: int, clientTotal: Option<int>, uuidText: string, now: int,
                          ip: Option<string>)
      returns (created: Reply, cancelled: Reply)
      requires Valid() && |uuidText| >= 8
      modifies this, activity
      ensures Valid()
      ensures created.BookingCreated? ==> cancelled == BookingCancelled && events == old(events)
    {
      ghost var before := events;
      created := CreateBooking(p, eventId, seats, clientTotal, None, uuidText, now, ip);
      if !created.BookingCreated? {
        return created, created;
      }
      var last := |bookings| - 1;
      assert bookings[last] == created.booking;
      // ids are distinct and the new one is the largest, so the lookup finds the new row
      assert FindBooking(bookings, created.booking.id) == Some(last);
      cancelled := CancelBooking(p, created.booking.id, ip);
      assert events[eventId] == before[eventId];
      assert events.Keys == before.Keys;
    }

    // ---- payments -------------------------------------------------------------

    /**
     * `create_payment_intent`: the guards of `Payments.CheckIntentRequest`, then a
     * Stripe intent for `int(total_price * 100)` cents whose id is saved on the
     * booking. A Stripe failure is a 500 with nothing written.
     */
    method CreatePaymentIntent(p: Principal, bookingId: Option<nat>, ip: Option<string>,
                               create: int -> Option<StripeIntent>) returns (r: Reply)
      requires Valid()
      modifies this, activity
      ensures Valid()
      ensures old(SeatsConserved(events, bookings)) ==> SeatsConserved(events, bookings)
      ensures !r.IntentCreated? ==> unchanged(this) && unchanged(activity)
      ensures !p.IsAuthenticated() ==> r == Unauthenticated
      ensures p.IsAuthenticated() ==>
        var g := Payments.CheckIntentRequest(old(bookings), p.user, bookingId);
        && (g.MissingBookingId? ==> r == BadRequest("Booking ID is required"))
        && (g.BookingNotFound? ==> r == NotFound)
        && (g.AlreadyConfirmed? ==> r == BadRequest("Booking already confirmed"))
        && (g.Proceed? ==>
              var b := old(bookings)[g.index];
              var amount := Payments.StripeAmount(Payments.Decimal(b.totalPriceCents, 2));
              && amount == b.totalPriceCents
              && (create(amount).None? ==> r == ServerError)
              && (create(amount).Some? ==>
                    && r == IntentCreated(create(amount).value.clientSecret, b.reference, b.totalPriceCents)
                    && bookings == old(bookings)[g.index := b.(paymentIntentId := Some(create(amount).value.id))]
                    && events == old(events) && nextBookingId == old(nextBookingId) && nextEventId == old(nextEventId)
                    && activity.entries == old(activity.entries) + [LogEntry(Some(p.user.id), "Payment Intent Created: " + b.reference, ip)]))
    {
      if !p.IsAuthenticated() {
        return Unauthenticated;
      }
      var g := Payments.CheckIntentRequest(bookings, p.user, bookingId);
      match g
      case MissingBookingId => return BadRequest("Booking ID is required");
      case BookingNotFound => return NotFound;
      case AlreadyConfirmed => return BadRequest("Booking already confirmed");
      case Proceed(i) =>
        var b := bookings[i];
        var amount := Payments.StripeAmount(Payments.Decimal(b.totalPriceCents, 2));
        Payments.TwoPlacesAreExactCents(b.totalPriceCents);
        var intent := create(amount);
        if intent.None? {
          return ServerError;
        }
        var updated := b.(paymentIntentId := Some(intent.value.id));
        if SeatsConserved(events, bookings) {
          SameHoldingConserves(events, bookings, i, updated);
        }
        UpdateKeepsTables(events, bookings, nextEventId, nextBookingId, i, updated);
        bookings := bookings[i := updated];
        activity.entries := activity.entries + [LogEntry(Some(p.user.id), "Payment Intent Created: " + b.reference, ip)];
        r := IntentCreated(intent.value.clientSecret, b.reference, b.totalPriceCents);
    }

    /**
     * `stripe_webhook`, given the outcome of the signature check (`None` when
     * `construct_event` raised). `payment_intent.succeeded` confirms the booking
     * named in the metadata whatever its status; `payment_intent.payment_failed`
     * only logs; anything else, or an unknown booking, is acknowledged unchanged.
     */
    method Webhook(verified: Option<Payments.WebhookEvent>) returns (r: Reply)
      requires Valid()
      modifies this, activity
      ensures Valid()
      ensures verified.None? ==> r == InvalidPayload && unchanged(this) && unchanged(activity)
      ensures verified.Some? ==> r == Acknowledged
      ensures events == old(events) && nextBookingId == old(nextBookingId) && nextEventId == old(nextEventId)
      ensures verified.Some? && verified.value.kind == Payments.IntentSucceeded
              && WebhookTarget(old(bookings), verified.value).Some? ==>
        var i := WebhookTarget(old(bookings), verified.value).value;
        var b := old(bookings)[i];
        && bookings == old(bookings)[i := b.(status := Confirmed)]
        && activity.entries == old(activity.entries) + [LogEntry(Some(b.userId), "Payment Successful: " + b.reference, Some("webhook"))]
        && (old(SeatsConserved(events, bookings)) && b.status != Cancelled ==> SeatsConserved(events, bookings))
        && (old(SeatsConserved(events, bookings)) && b.status == Cancelled ==> !SeatsConserved(events, bookings))
      ensures verified.Some? && verified.value.kind == Payments.IntentFailed
              && WebhookTarget(old(bookings), verified.value).Some? ==>
        var b := old(bookings)[WebhookTarget(old(bookings), verified.value).value];
        && bookings == old(bookings)
        && activity.entries == old(activity.entries) + [LogEntry(Some(b.userId), "Payment Failed: " + b.reference, Some("webhook"))]
      ensures verified.Some? && (verified.value.kind !in {Payments.IntentSucceeded, Payments.IntentFailed}
                                 || WebhookTarget(old(bookings), verified.value).None?) ==>
        unchanged(this) && unchanged(activity)
    {
      if verified.None? {
        return InvalidPayload;
      }
      var ev := verified.value;
      var target := WebhookTarget(bookings, ev);
      if ev.kind == Payments.IntentSucceeded {
        if target.Some? {
          var i := target.value;
          var b := bookings[i];
          var confirmed := b.(status := Confirmed);
          if SeatsConserved(events, bookings) {
            if b.status != Cancelled {
              SameHoldingConserves(events, bookings, i, confirmed);
            } else {
              ConfirmingCancelledBreaksConservation(events, bookings, i);
            }
          }
          UpdateKeepsTables(events, bookings, nextEventId, nextBookingId, i, confirmed);
          bookings := bookings[i := confirmed];
          activity.entries := activity.entries + [LogEntry(Some(b.userId), "Payment Successful: " + b.reference, Some("webhook"))];
        }
      } else if ev.kind == Payments.IntentFailed {
        if target.Some? {
          var b := bookings[target.value];
          activity.entries := activity.entries + [LogEntry(Some(b.userId), "Payment Failed: " + b.reference, Some("webhook"))];
        }
      }
      r := Acknowledged;
    }
  }

  // ---- table invariants under the writes -----------------------------------------

  /** Appending a booking with a fresh id, an existing event, a free reference and at least one seat. */
  lemma AppendKeepsTables(events: map<nat, Event>, bs: seq<Booking>, nextEventId: nat, nextBookingId: nat, b: Booking)
    requires TablesValid(events, bs, nextEventId, nextBookingId)
    requires b.id == nextBookingId && b.eventId in events && b.seatsBooked >= 1 && !ReferenceTaken(bs, b.reference)
    ensures TablesValid(events[b.eventId := events[b.eventId].(availableSeats := events[b.eventId].availableSeats - b.seatsBooked)],
                        bs + [b], nextEventId, nextBookingId + 1)
  {
    var s := bs + [b];
    forall i, j | 0 <= i < j < |s|
      ensures s[i].id != s[j].id && s[i].reference != s[j].reference
    {
      if j == |bs| {
        assert s[i] == bs[i];
      } else {
        assert s[i] == bs[i] && s[j] == bs[j];
      }
    }
  }

  /** Rewriting a booking in place without touching its id, event, reference or seats. */
  lemma UpdateKeepsTables(events: map<nat, Event>, bs: seq<Booking>, nextEventId: nat, nextBookingId: nat, i: nat, b: Booking)
    requires TablesValid(events, bs, nextEventId, nextBookingId)
    requires i < |bs| && b.id == bs[i].id && b.eventId == bs[i].eventId
    requires b.reference == bs[i].reference && b.seatsBooked == bs[i].seatsBooked
    ensures TablesValid(events, bs[i := b], nextEventId, nextBookingId)
  {
    var s := bs[i := b];
    forall k, l | 0 <= k < l < |s|
      ensures s[k].id != s[l].id && s[k].reference != s[l].reference
    {
      assert bs[k].id != bs[l].id && bs[k].reference != bs[l].reference;
    }
  }

  /** Rewriting an event row under its own id. */
  lemma EventRowKeepsTables(events: map<nat, Event>, bs: seq<Booking>, nextEventId: nat, nextBookingId: nat, e: Event)
    requires TablesValid(events, bs, nextEventId, nextBookingId)
    requires e.id in events
    ensures TablesValid(events[e.id := e], bs, nextEventId, nextBookingId)
  {
  }
}
