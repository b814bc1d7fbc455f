/** One hall on the home page: the Book Now gate, the booked-dates test and
    the booking-form state. */
module HallCard {
  import opened Common
  import opened AppRoutes
  import SlotCodec
  import Store
  import StoreLaws

  /** What pressing Book Now does. */
  datatype BookNowOutcome = LoginRequired | OnlyUsersMayBook | FormOpened

  /** `handleBookNow` on the stored user (None when nothing is stored). */
  function BookNowDecision(user: Option<StoredUser>): (o: BookNowOutcome)
    ensures o == LoginRequired <==> user.None?
    ensures o == OnlyUsersMayBook <==> user.Some? && user.value.role != "user"
    ensures o == FormOpened <==> user.Some? && user.value.role == "user"
  {
    if user.None? then LoginRequired
    else if user.value.role != "user" then OnlyUsersMayBook
    else FormOpened
  }

  /** `hall.bookedDates && hall.bookedDates.length > 0`. */
  function HasBookedDates(bookedDates: Option<seq<SlotCodec.BookedDate>>): (shown: bool)
    ensures shown <==> bookedDates.Some? && bookedDates.value != []
  {
    bookedDates.Some? && |bookedDates.value| > 0
  }

  /** Anyone who may book can open My Bookings; an admin can open the
      dashboard but never the booking form; nobody books while logged out. */
  lemma BookingAndRoutesAgree(user: Option<StoredUser>)
    ensures BookNowDecision(user) == FormOpened ==> Visit("/mybookings", user) == ShowChildren
    ensures BookNowDecision(user) == FormOpened ==> Visit("/admin-dashboard", user) == RedirectTo("/")
    ensures user == Some(StoredUser("admin")) ==>
      BookNowDecision(user) == OnlyUsersMayBook && Visit("/admin-dashboard", user) == ShowChildren
    ensures Visit("/mybookings", user) == RedirectTo("/login") <==> BookNowDecision(user) == LoginRequired
  {
  }

  /** Over a join order that meets every booking once, a hall's card
      lists booked dates exactly when the hall has an approved booking. */
  lemma BookedDatesShownIffApproved(bookings: map<nat, Store.Booking>, order: seq<nat>, hallId: nat)
    requires Store.SeparatorFree(bookings)
    requires Store.JoinOrder(bookings, order)
    ensures HasBookedDates(Some(SlotCodec.DecodeSlots(Store.BookedSlotsColumn(bookings, order, hallId)))) <==>
      exists id :: Store.ApprovedFor(bookings, hallId, id)
  {
    StoreLaws.BookedDatesOfHall(bookings, order, hallId);
  }

  class HallCardState {
    var showBookingForm: bool

    constructor()
      ensures !showBookingForm
    {
      showBookingForm := false;
    }

    /** `handleBookNow`: only a stored user with role "user" opens the
        form; a refusal leaves it as it was. */
    method HandleBookNow(user: Option<StoredUser>) returns (outcome: BookNowOutcome)
      modifies this
      ensures outcome == BookNowDecision(user)
      ensures showBookingForm == if outcome == FormOpened then true else old(showBookingForm)
    {
      if user.None? {
        return LoginRequired;
      }
      if user.value.role != "user" {
        return OnlyUsersMayBook;
      }
      showBookingForm := true;
      return FormOpened;
    }

    method CloseBookingForm()
      modifies this
      ensures !showBookingForm
    {
      showBookingForm := false;
    }

    /** `handleBookingSuccess`: closes the form and calls `onBookingSuccess`
        when the parent passed one. */
    method HandleBookingSuccess(hasCallback: bool) returns (callbackCalled: bool)
      modifies this
      ensures !showBookingForm
      ensures callbackCalled == hasCallback
    {
      showBookingForm := false;
      callbackCalled := hasCallback;
    }
  }
}
