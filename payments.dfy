/**
 * The payment views' decision logic: the guards before a payment intent is
 * created, the amount conversion, the webhook events, and the status query.
 * Stripe itself is an oracle whose answers arrive as parameters.
 */
module Payments {
  import opened Wrappers
  import opened Permissions
  import opened Bookings

  /** A Python `Decimal` with a fixed number of places: `units / 10^places`. */
  datatype Decimal = Decimal(units: int, places: nat)

  function Pow10(n: nat): (p: nat)
    ensures p >= 1
  {
    if n == 0 then 1 else 10 * Pow10(n - 1)
  }

  /** Python's `int(x)` of the exact quotient `num / den`: truncation toward zero. */
  function Truncate(num: int, den: int): (q: int)
    requires den > 0
    ensures num >= 0 ==> 0 <= q && q * den <= num < q * den + den
    ensures num < 0 ==> q <= 0 && q * den - den < num <= q * den
  {
    if num >= 0 then num / den else -((-num) / den)
  }

  /** `int(total_price * 100)`: the amount handed to Stripe. */
  function StripeAmount(total: Decimal): int {
    Truncate(total.units * 100, Pow10(total.places))
  }

  /** With the model's two decimal places the conversion is exact: the amount is the price in cents. */
  lemma {:induction false} TwoPlacesAreExactCents(cents: int)
    ensures StripeAmount(Decimal(cents, 2)) == cents
  {
    assert Pow10(2) == 10 * Pow10(1) == 100;
  }

  /** With a third place the conversion would truncate toward zero, which is why the field precision matters. */
  lemma ThreePlacesTruncate()
    ensures StripeAmount(Decimal(12345, 3)) == 1234
    ensures StripeAmount(Decimal(-12345, 3)) == -1234
  {
    assert Pow10(3) == 1000 by {
      assert Pow10(1) == 10;
      assert Pow10(2) == 100;
    }
  }

  /** The guard chain of `create_payment_intent`. */
  datatype IntentGuard =
    | MissingBookingId     // 400 "Booking ID is required"
    | BookingNotFound      // 404, also for another user's booking
    | AlreadyConfirmed     // 400 "Booking already confirmed"
    | Proceed(index: nat)  // position of the booking in the table

  /**
   * A falsy `booking_id` (absent, or 0) is refused, then the booking must exist and
   * belong to the requester, then it must not be confirmed already. Pending and
   * cancelled bookings both proceed.
   */
  function CheckIntentRequest(bs: seq<Booking>, requester: User, bookingId: Option<nat>): (g: IntentGuard)
    ensures g == MissingBookingId <==> bookingId.None? || bookingId.value == 0
    ensures g.Proceed? ==> g.index < |bs| && bs[g.index].id == bookingId.value
                           && bs[g.index].userId == requester.id && bs[g.index].status != Confirmed
    ensures g == BookingNotFound ==>
      forall i | 0 <= i < |bs| :: !(bs[i].id == bookingId.value && bs[i].userId == requester.id)
    ensures g == AlreadyConfirmed ==>
      exists i | 0 <= i < |bs| :: bs[i].id == bookingId.value && bs[i].userId == requester.id && bs[i].status == Confirmed
  {
    if bookingId.None? || bookingId.value == 0 then MissingBookingId
    else match FindOwned(bs, bookingId.value, requester.id)
      case None => BookingNotFound
      case Some(i) => if bs[i].status == Confirmed then AlreadyConfirmed else Proceed(i)
  }

  /** `Booking.objects.get(id=..., user=...)`: the position of that user's booking with that id. */
  function FindOwned(bs: seq<Booking>, id: nat, userId: nat): (r: Option<nat>)
    ensures r.Some? ==> r.value < |bs| && bs[r.value].id == id && bs[r.value].userId == userId
    ensures r.None? ==> forall i | 0 <= i < |bs| :: !(bs[i].id == id && bs[i].userId == userId)
  {
    if bs == [] then None
    else if bs[0].id == id && bs[0].userId == userId then Some(0)
    else match FindOwned(bs[1..], id, userId)
      case None => None
      case Some(k) => Some(k + 1)
  }

  /** A verified Stripe event, reduced to its type and the metadata the handler reads. */
  datatype WebhookEvent = WebhookEvent(kind: string, bookingId: Option<nat>, intentId: string)

  const IntentSucceeded: string := "payment_intent.succeeded"
  const IntentFailed: string := "payment_intent.payment_failed"

  /** What Stripe reports for a retrieved intent. */
  datatype IntentInfo = IntentInfo(status: string, amountCents: int)

  /** The replies of `get_payment_status`. */
  datatype StatusReply =
    | StatusNotFound                                                    // 404
    | NoPaymentYet                                                      // status 'pending'
    | Reported(intentStatus: string, bookingStatus: Status, amountCents: int)
    | StatusError                                                       // 500: Stripe raised
  {
    /** The `status` field of the payload, where there is one. */
    function ReportedStatus(): Option<string> {
      match this
      case NoPaymentYet => Some("pending")
      case Reported(s, _, _) => Some(s)
      case _ => None
    }
  }

  /**
   * `get_payment_status`: the requester's booking, then `pending` when no intent was
   * recorded (no id, or an empty one), else what Stripe reports for the recorded id.
   */
  function PaymentStatus(bs: seq<Booking>, requester: User, bookingId: nat, retrieve: string -> Option<IntentInfo>)
    : (r: StatusReply)
    ensures r == StatusNotFound <==> FindOwned(bs, bookingId, requester.id).None?
    ensures r == NoPaymentYet ==> r.ReportedStatus() == Some("pending")
    ensures FindOwned(bs, bookingId, requester.id).Some? ==>
      var b := bs[FindOwned(bs, bookingId, requester.id).value];
      (r == NoPaymentYet <==> !Provided(b.paymentIntentId))
      && (r.Reported? ==> r.bookingStatus == b.status && retrieve(b.paymentIntentId.value) == Some(IntentInfo(r.intentStatus, r.amountCents)))
      && (Provided(b.paymentIntentId) ==> (r == StatusError <==> retrieve(b.paymentIntentId.value).None?))
  {
    match FindOwned(bs, bookingId, requester.id)
    case None => StatusNotFound
    case Some(i) =>
      var b := bs[i];
      if !Provided(b.paymentIntentId) then NoPaymentYet
      else match retrieve(b.paymentIntentId.value)
        case None => StatusError
        case Some(info) => Reported(info.status, b.status, info.amountCents)
  }
}
