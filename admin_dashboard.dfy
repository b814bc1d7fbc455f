/** The bookings tab of the admin dashboard: the list filter, the two
    status labels, the Approve/Reject rule and the handlers that change the
    `bookings` state. */
module AdminDashboard {
  import opened Common
  import opened BookingViews

  /** `getFilteredBookings()` for the selected filter value. */
  function FilteredBookings(filter: string, bookings: seq<BookingView>): (r: seq<BookingView>)
    ensures SubsequenceOf(r, bookings)
    ensures filter == "paid" ==> forall b :: b in r <==> b in bookings && b.paymentStatus == "paid"
    ensures filter == "paid" ==>
      forall b :: multiset(r)[b] == if b.paymentStatus == "paid" then multiset(bookings)[b] else 0
    ensures filter == "unpaid" ==> forall b :: b in r <==> b in bookings && b.paymentStatus != "paid"
    ensures filter == "unpaid" ==>
      forall b :: multiset(r)[b] == if b.paymentStatus != "paid" then multiset(bookings)[b] else 0
    ensures filter in {"pending", "approved", "rejected"} ==>
      forall b :: b in r <==> b in bookings && b.status == filter
    ensures filter in {"pending", "approved", "rejected"} ==>
      forall b :: multiset(r)[b] == if b.status == filter then multiset(bookings)[b] else 0
    ensures filter !in {"paid", "unpaid", "pending", "approved", "rejected"} ==> r == bookings
  {
    match filter
    case "paid" => Select(bookings, (b: BookingView) => b.paymentStatus == "paid")
    case "unpaid" => Select(bookings, (b: BookingView) => b.paymentStatus != "paid")
    case "pending" => Select(bookings, (b: BookingView) => b.status == "pending")
    case "approved" => Select(bookings, (b: BookingView) => b.status == "approved")
    case "rejected" => Select(bookings, (b: BookingView) => b.status == "rejected")
    case _ =>
      SubsequenceOfSelf(bookings);
      bookings
  }

  /** "Paid" and "Unpaid" split the list: every booking shows under
      exactly one of them, as often as it occurs. */
  lemma PaidUnpaidPartition(bookings: seq<BookingView>)
    ensures multiset(FilteredBookings("paid", bookings)) + multiset(FilteredBookings("unpaid", bookings)) == multiset(bookings)
    ensures |FilteredBookings("paid", bookings)| + |FilteredBookings("unpaid", bookings)| == |bookings|
  {
  }

  /** `getPaymentStatusDisplay`: each of the four labels names one case. */
  function PaymentStatusDisplay(b: BookingView): (shown: string)
    ensures shown == "N/A" <==> b.status == "rejected"
    ensures shown == "Awaiting Approval" <==> b.status == "pending"
    ensures shown == "Paid" <==> b.status != "rejected" && b.status != "pending" && b.paymentStatus == "paid"
    ensures shown == "Payment Pending" <==> b.status != "rejected" && b.status != "pending" && b.paymentStatus != "paid"
  {
    if b.status == "rejected" then "N/A"
    else if b.status == "pending" then "Awaiting Approval"
    else if b.paymentStatus == "paid" then "Paid" else "Payment Pending"
  }

  /** `s.charAt(0).toUpperCase() + s.slice(1)` (ASCII case mapping): only
      the case of the first letter may change. */
  function Capitalize(s: string): (r: string)
    ensures |r| == |s|
    ensures Lower(r) == Lower(s)
    ensures s != [] ==> !('a' <= r[0] <= 'z') && r[1..] == s[1..]
  {
    if s == [] then [] else [UpperChar(s[0])] + s[1..]
  }

  /** `getBookingStatusDisplay`. */
  function BookingStatusDisplay(b: BookingView): (shown: string)
    ensures b.status == "approved" ==> (shown == "Confirmed & Paid" <==> b.paymentStatus == "paid")
    ensures b.status == "approved" ==> (shown == "Approved - Payment Pending" <==> b.paymentStatus != "paid")
    ensures b.status != "approved" ==> shown == Capitalize(b.status)
  {
    if b.status == "approved" && b.paymentStatus == "paid" then "Confirmed & Paid"
    else if b.status == "approved" && b.paymentStatus != "paid" then "Approved - Payment Pending"
    else Capitalize(b.status)
  }

  predicate KnownStatus(status: string)
  {
    status == "pending" || status == "approved" || status == "rejected"
  }

  /** The labels of the two statuses that `getBookingStatusDisplay` only
      capitalises. */
  lemma KnownStatusLabel(b: BookingView)
    ensures b.status == "pending" ==> BookingStatusDisplay(b) == "Pending"
    ensures b.status == "rejected" ==> BookingStatusDisplay(b) == "Rejected"
  {
  }

  /** For the three statuses the server uses, the status label tells the
      admin the status and, for an approved booking, whether it is paid. */
  lemma StatusLabelIdentifiesBooking(b: BookingView, c: BookingView)
    requires KnownStatus(b.status) && KnownStatus(c.status)
    requires BookingStatusDisplay(b) == BookingStatusDisplay(c)
    ensures b.status == c.status
    ensures b.status == "approved" ==> (b.paymentStatus == "paid" <==> c.paymentStatus == "paid")
  {
  }

  /** Approve and Reject appear only for pending bookings, whose status
      label reads "Pending". */
  function ApproveRejectVisible(b: BookingView): (shown: bool)
    ensures shown <==> b.status == "pending"
    ensures shown ==> BookingStatusDisplay(b) == "Pending"
  {
    b.status == "pending"
  }

  /** The rows offering Approve/Reject are exactly the rows whose payment
      label reads "Awaiting Approval", and exactly the rows the "pending"
      filter keeps. */
  lemma ApproveRejectOnlyAwaitingApproval(bookings: seq<BookingView>, b: BookingView)
    ensures ApproveRejectVisible(b) <==> PaymentStatusDisplay(b) == "Awaiting Approval"
    ensures b in bookings && ApproveRejectVisible(b) <==> b in FilteredBookings("pending", bookings)
  {
  }

  /** The dashboard's `bookings` state. */
  class DashboardState {
    var bookings: seq<BookingView>

    constructor()
      ensures bookings == []
    {
      bookings := [];
    }

    /** `fetchBookings`: a failed request leaves the list as it was. */
    method FetchBookings(response: Option<seq<BookingView>>)
      modifies this
      ensures bookings == if response.Some? then response.value else old(bookings)
    {
      if response.Some? {
        bookings := response.value;
      }
    }

    /** `removeBookingFromHistory(bookingId)`: only a confirmed request that
        the server answers with success drops the rows with that id.
        `reply` is the server's `success` flag, None when the request throws. */
    method RemoveBookingFromHistory(bookingId: int, confirmed: bool, reply: Option<bool>)
      modifies this
      ensures confirmed && reply == Some(true) ==> bookings == WithoutId(old(bookings), bookingId)
      ensures !(confirmed && reply == Some(true)) ==> bookings == old(bookings)
    {
      if confirmed {
        if reply.Some? {
          if reply.value {
            bookings := WithoutId(bookings, bookingId);
          }
        }
      }
    }

    /** `updateBookingStatus(bookingId, status, booking)`: PUT the status,
        then, for "approved" only, POST the approval email, then refetch.
        A failure of either request skips everything after it. */
    method UpdateBookingStatus(status: string, putOk: bool, emailOk: bool, refreshed: Option<seq<BookingView>>)
      returns (emailRequested: bool)
      modifies this
      ensures emailRequested <==> putOk && status == "approved"
      ensures bookings ==
        if putOk && (status != "approved" || emailOk) && refreshed.Some? then refreshed.value else old(bookings)
    {
      emailRequested := false;
      if !putOk {
        return;
      }
      if status == "approved" {
        emailRequested := true;
        if !emailOk {
          return;
        }
      }
      FetchBookings(refreshed);
    }
  }
}
