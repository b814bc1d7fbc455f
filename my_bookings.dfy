/** The user's bookings page: the ten-minute cancel window, the status
    message, which buttons a booking row shows, and the handlers that change
    the `bookings`, `loading`, `showPayment` and `selectedBooking` state. */
module MyBookings {
  import opened Common
  import opened BookingViews

  /** Ten minutes in milliseconds. */
  const CancelWindow: int := 600000

  /** `isCancelable(createdAt)` at time `now` (ms): false without a usable
      creation time, otherwise true up to and including ten minutes after it. */
  function IsCancelable(createdAt: Option<int>, now: int): (ok: bool)
    ensures createdAt.None? ==> !ok
    ensures createdAt.Some? ==> (ok <==> now <= createdAt.value + CancelWindow)
  {
    createdAt.Some? && now - createdAt.value <= CancelWindow
  }

  /** The page divides the elapsed milliseconds by 60000 and compares the
      minutes with 10; over exact arithmetic that is the same test. */
  lemma CancelableInMinutes(createdAt: int, now: int)
    ensures IsCancelable(Some(createdAt), now) <==> (now - createdAt) as real / 60000.0 <= 10.0
  {
  }

  /** A booking stays cancelable for any earlier time and stops being
      cancelable for good once the window is over. */
  lemma CancelWindowMonotone(createdAt: Option<int>, now: int, later: int)
    requires now <= later
    ensures IsCancelable(createdAt, later) ==> IsCancelable(createdAt, now)
  {
  }

  /** `getStatusMessage`. */
  function StatusMessage(b: BookingView): (text: string)
    ensures b.status == "pending" ==> text == "Waiting for admin approval"
    ensures b.status == "approved" ==> (text == "Confirmed & Paid" <==> b.paymentStatus == "paid")
    ensures b.status == "approved" ==> (text == "Approved - Payment Required" <==> b.paymentStatus != "paid")
    ensures b.status == "rejected" ==> text == "Booking rejected"
    ensures b.status !in {"pending", "approved", "rejected"} ==> text == b.status
  {
    match b.status
    case "pending" => "Waiting for admin approval"
    case "approved" => if b.paymentStatus == "paid" then "Confirmed & Paid" else "Approved - Payment Required"
    case "rejected" => "Booking rejected"
    case _ => b.status
  }

  /** The "Payment Status" line: for the statuses the server uses, shown
      exactly on the rows whose status message is about payment. */
  function PaymentLineVisible(b: BookingView): (shown: bool)
    ensures b.status in {"pending", "approved", "rejected"} ==>
      (shown <==> StatusMessage(b) in {"Confirmed & Paid", "Approved - Payment Required"})
  {
    b.status == "approved"
  }

  /** The Pay Now button: only on an approved row not yet paid. */
  function PayNowVisible(b: BookingView): (shown: bool)
    ensures shown <==> PaymentLineVisible(b) && b.paymentStatus != "paid"
  {
    b.status == "approved" && b.paymentStatus != "paid"
  }

  /** The Cancel Booking button at time `now`: an unpaid pending or
      approved row inside its cancel window. */
  function CancelVisible(b: BookingView, now: int): (shown: bool)
    ensures shown <==> (b.status in {"pending", "approved"} && b.paymentStatus != "paid" &&
                        b.createdAt.Some? && now <= b.createdAt.value + CancelWindow)
  {
    (b.status == "approved" || b.status == "pending") && IsCancelable(b.createdAt, now) && b.paymentStatus != "paid"
  }

  /** A paid booking offers neither Pay Now nor Cancel; Pay Now comes with
      the payment line; Pay Now shows exactly when the status message asks
      for payment (for the statuses the server uses); Cancel never shows for
      a rejected booking nor after the window. */
  lemma RowActions(b: BookingView, now: int)
    ensures b.paymentStatus == "paid" ==> !PayNowVisible(b) && !CancelVisible(b, now)
    ensures PayNowVisible(b) ==> PaymentLineVisible(b)
    ensures b.status in {"pending", "approved", "rejected"} ==>
      (PayNowVisible(b) <==> StatusMessage(b) == "Approved - Payment Required")
    ensures CancelVisible(b, now) ==> b.status != "rejected" && b.createdAt.Some? && now - b.createdAt.value <= CancelWindow
  {
  }

  /** The page's state. */
  class MyBookingsState {
    var bookings: seq<BookingView>
    var loading: bool
    var showPayment: bool
    var selectedBooking: Option<BookingView>

    constructor()
      ensures bookings == [] && loading && !showPayment && selectedBooking.None?
      ensures !PaymentModalOpen()
    {
      bookings := [];
      loading := true;
      showPayment := false;
      selectedBooking := None;
    }

    /** `fetchUserBookings`: `response` is None when no user is stored or
        the request throws; loading ends in every case. */
    method FetchUserBookings(response: Option<seq<BookingView>>)
      modifies this
      ensures bookings == if response.Some? then response.value else old(bookings)
      ensures !loading
      ensures showPayment == old(showPayment) && selectedBooking == old(selectedBooking)
    {
      if response.Some? {
        bookings := response.value;
      }
      loading := false;
    }

    /** `CancelBooking(id)`: `reply` is the server's `success` flag, None
        when the request throws. Only success drops the rows with that id. */
    method CancelBooking(id: int, reply: Option<bool>)
      modifies this
      ensures bookings == if reply == Some(true) then WithoutId(old(bookings), id) else old(bookings)
      ensures loading == old(loading) && showPayment == old(showPayment) && selectedBooking == old(selectedBooking)
    {
      if reply == Some(true) {
        bookings := WithoutId(bookings, id);
      }
    }

    /** `removeFromHistory(id)`: as `CancelBooking`, behind a confirmation. */
    method RemoveFromHistory(id: int, confirmed: bool, reply: Option<bool>)
      modifies this
      ensures bookings == if confirmed && reply == Some(true) then WithoutId(old(bookings), id) else old(bookings)
      ensures loading == old(loading) && showPayment == old(showPayment) && selectedBooking == old(selectedBooking)
    {
      if confirmed {
        CancelBooking(id, reply);
      }
    }

    method HandlePayNow(b: BookingView)
      modifies this
      ensures showPayment && selectedBooking == Some(b)
      ensures PaymentModalOpen()
      ensures bookings == old(bookings) && loading == old(loading)
    {
      selectedBooking := Some(b);
      showPayment := true;
    }

    /** `handlePaymentSuccess`: closes the modal, then refetches. */
    method HandlePaymentSuccess(response: Option<seq<BookingView>>)
      modifies this
      ensures !showPayment && selectedBooking.None?
      ensures !PaymentModalOpen()
      ensures bookings == if response.Some? then response.value else old(bookings)
      ensures !loading
    {
      showPayment := false;
      selectedBooking := None;
      FetchUserBookings(response);
    }

    method HandlePaymentCancel()
      modifies this
      ensures !showPayment && selectedBooking.None?
      ensures !PaymentModalOpen()
      ensures bookings == old(bookings) && loading == old(loading)
    {
      showPayment := false;
      selectedBooking := None;
    }

    /** The payment modal is drawn when `showPayment && selectedBooking`. */
    predicate PaymentModalOpen()
      reads this
    {
      showPayment && selectedBooking.Some?
    }
  }
}
