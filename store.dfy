/** The backend of the hall-booking service: the `users`, `halls` and
    `bookings` tables and the route handlers that read and write them.

    Each table is a map from its auto-increment id to the row, with the
    table's auto-increment counter beside it. Every route that writes a
    table is a method of `BookingStore` whose new state and reply are tied
    to a pure transition function below, and which leaves the other
    tables and their counters as they were. The read-only routes (the hall
    lists and the search) and the payment-intent request check are those
    functions themselves. Module StoreLaws relates routes to each other. The
    current time (`NOW()`, `Date.now()`, in ms), the random reset token and
    what the payment gateway and the mailer report are parameters. */
module Store {
  import opened Common
  import SlotCodec

  /** A reset token is valid for one hour after it is issued. */
  const ResetTokenLifetime: int := 3600000
  /** Column default of `bookings.status`: the insert does not name it. */
  const DefaultStatus: string := "pending"

  // ---------------------------------------------------------------- rows

  datatype User = User(name: string, email: string, password: string, phone: string, role: string,
                       resetToken: Option<string>, resetTokenExpiry: Option<int>)

  /** A `users` row as /login returns it: every column but `password`. */
  datatype PublicUser = PublicUser(id: nat, name: string, email: string, phone: string, role: string,
                                   resetToken: Option<string>, resetTokenExpiry: Option<int>)

  /** The columns an admin sends when adding or editing a hall. */
  datatype HallFields = HallFields(name: string, description: string, capacity: int, location: string,
                                   price: int, contact: string, image: string)

  datatype Hall = Hall(fields: HallFields, isActive: bool, createdAt: int)

  /** The body of POST /bookings (the client's `status` is ignored). */
  datatype BookingRequest = BookingRequest(userId: nat, hallId: nat, hallName: string, date: string,
                                           time: string, guests: int, eventType: string,
                                           specialRequests: string, totalPrice: int)

  datatype Booking = Booking(request: BookingRequest, status: string, paymentStatus: string,
                             paymentIntentId: Option<string>, createdAt: int, updatedAt: int)

  /** HTTP status code and the `{success, message}` body (or `{error}`). */
  datatype Reply = Reply(code: int, success: bool, message: string)

  /** Which wording the DELETE reply uses: CancelRoute for /bookings/:id,
      RemoveFromHistoryRoute for the two `/remove` routes (user and admin). */
  datatype DeleteRoute = CancelRoute | RemoveFromHistoryRoute

  /** What `stripe.paymentIntents.retrieve` gave: the intent's status, or an error. */
  datatype IntentLookup = Retrieved(status: string) | RetrieveFailed

  datatype HallListing = HallListing(hall: Hall, bookedDates: seq<SlotCodec.BookedDate>)

  // ------------------------------------------------------------ bookings

  function SlotOf(b: Booking): (nat, string, string)
  {
    (b.request.hallId, b.request.date, b.request.time)
  }

  /** `checkBooking`: some approved booking already holds (hallId, date, time). */
  function SlotTaken(bookings: map<nat, Booking>, hallId: nat, date: string, time: string): (taken: bool)
    ensures taken <==> exists id :: ApprovedFor(bookings, hallId, id) && bookings[id].request.date == date &&
                                     bookings[id].request.time == time
  {
    exists id :: id in bookings && bookings[id].status == "approved" && SlotOf(bookings[id]) == (hallId, date, time)
  }

  /** The double-booking rule: no two approved bookings share a slot. */
  predicate OneApprovedPerSlot(bookings: map<nat, Booking>)
  {
    forall a, b ::
      (a in bookings && b in bookings && a != b &&
       bookings[a].status == "approved" && bookings[b].status == "approved") ==> SlotOf(bookings[a]) != SlotOf(bookings[b])
  }

  /** The inserted row: the insert names neither timestamp, so both are the
      column defaults, taken to be the current time. */
  function NewBooking(req: BookingRequest, now: int): Booking
  {
    Booking(req, DefaultStatus, "pending", None, now, now)
  }

  /** POST /bookings: refuse when an approved booking holds the slot,
      otherwise insert one pending, unpaid row under `freshId`. */
  function CreateResult(bookings: map<nat, Booking>, freshId: nat, req: BookingRequest, now: int)
    : (r: (Reply, map<nat, Booking>))
    requires freshId !in bookings
    ensures r.1 == bookings <==> SlotTaken(bookings, req.hallId, req.date, req.time)
    ensures r.0.success <==> !SlotTaken(bookings, req.hallId, req.date, req.time)
    ensures r.0.code == 200
    ensures !r.0.success ==> r.0.message == "Hall is already booked for this date and time"
    ensures r.0.success ==> (
      && r.1.Keys == bookings.Keys + {freshId}
      && (forall id :: id in bookings ==> r.1[id] == bookings[id])
      && r.1[freshId].request == req && r.1[freshId].status == DefaultStatus
      && r.1[freshId].paymentStatus == "pending" && r.1[freshId].paymentIntentId.None?)
  {
    if SlotTaken(bookings, req.hallId, req.date, req.time) then
      (Reply(200, false, "Hall is already booked for this date and time"), bookings)
    else
      (Reply(200, true, "Booking created successfully"), bookings[freshId := NewBooking(req, now)])
  }

  /** DELETE /bookings/:id, /user/bookings/:id/remove and
      /admin/bookings/:id/remove: delete the row whatever its state; 404
      when no row has the id. */
  function DeleteResult(bookings: map<nat, Booking>, id: nat, route: DeleteRoute): (r: (Reply, map<nat, Booking>))
    ensures r.1.Keys == bookings.Keys - {id}
    ensures forall k :: k in r.1 ==> r.1[k] == bookings[k]
    ensures r.0.success <==> id in bookings
    ensures r.0.code == if id in bookings then 200 else 404
  {
    if id !in bookings then (Reply(404, false, "Booking not found"), bookings)
    else
      var msg := if route == CancelRoute then "Booking cancelled successfully"
                 else "Booking removed from history successfully";
      (Reply(200, true, msg), bookings - {id})
  }

  /** PUT /admin/bookings/:id: overwrite the status with whatever was sent
      (no check of the current status, no slot re-check); always reports
      success, even when no row has the id. */
  function StatusResult(bookings: map<nat, Booking>, id: nat, status: string): (r: (Reply, map<nat, Booking>))
    ensures r.0 == Reply(200, true, "Booking status updated")
    ensures r.1.Keys == bookings.Keys
    ensures forall k :: k in bookings && k != id ==> r.1[k] == bookings[k]
    ensures id in bookings ==> r.1[id] == bookings[id].(status := status)
  {
    var rows := if id in bookings then bookings[id := bookings[id].(status := status)] else bookings;
    (Reply(200, true, "Booking status updated"), rows)
  }

  /** PUT /bookings/:id/payment-complete: only an intent the gateway reports
      as exactly "succeeded" marks the row paid; the intent's booking id and
      amount are never compared with the row. */
  function PaymentResult(bookings: map<nat, Booking>, id: nat, intentId: string, lookup: IntentLookup, now: int)
    : (r: (Reply, map<nat, Booking>))
    ensures r.0.success <==> lookup == Retrieved("succeeded") && id in bookings
    ensures !r.0.success ==> r.1 == bookings
    ensures lookup.RetrieveFailed? ==> r.0.code == 500
    ensures lookup.Retrieved? && lookup.status != "succeeded" ==> r.0 == Reply(400, false, "Payment not completed")
    ensures lookup == Retrieved("succeeded") && id !in bookings ==> r.0 == Reply(404, false, "Booking not found")
    ensures r.1.Keys == bookings.Keys
    ensures forall k :: k in bookings && k != id ==> r.1[k] == bookings[k]
    ensures r.0.success ==> r.1[id] == bookings[id].(paymentStatus := "paid", paymentIntentId := Some(intentId), updatedAt := now)
  {
    match lookup
    case RetrieveFailed => (Reply(500, false, "Payment completion failed"), bookings)
    case Retrieved(status) =>
      if status != "succeeded" then (Reply(400, false, "Payment not completed"), bookings)
      else if id !in bookings then (Reply(404, false, "Booking not found"), bookings)
      else
        var paid := bookings[id].(paymentStatus := "paid", paymentIntentId := Some(intentId), updatedAt := now);
        (Reply(200, true, "Payment completed successfully"), bookings[id := paid])
  }

  /** What POST /create-payment-intent hands to the gateway. */
  datatype IntentRequest = IntentRequest(amount: int, currency: string, bookingId: int)
  datatype IntentCheck = Rejected(reply: Reply) | Accepted(request: IntentRequest)

  /** Validation of POST /create-payment-intent: a missing or zero amount or
      booking id is a 400; otherwise the amount is rounded half up
      (Math.round) and the currency, "pkr" when absent, lower-cased. */
  function CheckIntentRequest(amount: Option<real>, bookingId: Option<int>, currency: Option<string>)
    : (r: IntentCheck)
    ensures r.Accepted? <==> amount.Some? && amount.value != 0.0 && bookingId.Some? && bookingId.value != 0
    ensures r.Rejected? ==> r.reply == Reply(400, false, "Amount and booking ID are required")
    ensures r.Accepted? ==>
      && r.request.amount as real <= amount.value + 0.5 < r.request.amount as real + 1.0
      && r.request.bookingId == bookingId.value
      && r.request.currency == Lower(if currency.Some? then currency.value else "pkr")
  {
    if amount.None? || amount.value == 0.0 || bookingId.None? || bookingId.value == 0 then
      Rejected(Reply(400, false, "Amount and booking ID are required"))
    else
      Accepted(IntentRequest((amount.value + 0.5).Floor, Lower(if currency.Some? then currency.value else "pkr"),
                             bookingId.value))
  }

  // --------------------------------------------------------------- halls

  /** /halls, /admin/halls (and the rows behind /halls-with-bookings):
      the active halls only. /admin/halls/all is the whole table. */
  function ActiveHalls(halls: map<nat, Hall>): (r: map<nat, Hall>)
    ensures forall id :: id in r <==> id in halls && halls[id].isActive
    ensures forall id :: id in r ==> r[id] == halls[id]
  {
    map id | id in halls && halls[id].isActive :: halls[id]
  }

  /** POST /search-halls: `location LIKE %text%` over active halls, under a
      case-insensitive collation; a missing or empty text is a 400. */
  function SearchHalls(halls: map<nat, Hall>, location: string): (r: (Reply, map<nat, Hall>))
    ensures r.0.success <==> location != ""
    ensures location == "" ==> r.0 == Reply(400, false, "Location is required") && r.1 == map[]
    ensures forall id :: id in r.1 <==>
      location != "" && id in halls && halls[id].isActive && Contains(Lower(halls[id].fields.location), Lower(location))
    ensures forall id :: id in r.1 ==> r.1[id] == halls[id]
  {
    if location == "" then (Reply(400, false, "Location is required"), map[])
    else
      (Reply(200, true, ""),
       map id | id in halls && halls[id].isActive && Contains(Lower(halls[id].fields.location), Lower(location)) :: halls[id])
  }

  /** DELETE /admin/halls/:id (false) and PUT /admin/halls/:id/restore
      (true): flip `is_active` of that row only. */
  function SetActive(halls: map<nat, Hall>, id: nat, active: bool): (r: map<nat, Hall>)
    ensures r.Keys == halls.Keys
    ensures forall k :: k in halls && k != id ==> r[k] == halls[k]
    ensures id in halls ==> r[id] == halls[id].(isActive := active)
  {
    if id in halls then halls[id := halls[id].(isActive := active)] else halls
  }

  /** PUT /admin/halls/:id: overwrite the seven editable columns, keep
      `is_active` and `created_at`. */
  function EditHall(halls: map<nat, Hall>, id: nat, fields: HallFields): (r: map<nat, Hall>)
    ensures r.Keys == halls.Keys
    ensures forall k :: k in halls && k != id ==> r[k] == halls[k]
    ensures id in halls ==> (r[id].fields == fields && r[id].isActive == halls[id].isActive
                             && r[id].createdAt == halls[id].createdAt)
  {
    if id in halls then halls[id := halls[id].(fields := fields)] else halls
  }

  // ------------------------------------------- halls with booking status

  function SlotFor(id: nat, b: Booking): SlotCodec.Slot
  {
    SlotCodec.Slot(b.request.date, b.request.time, SlotCodec.DecimalText(id))
  }

  predicate ApprovedFor(bookings: map<nat, Booking>, hallId: nat, id: nat)
  {
    id in bookings && bookings[id].request.hallId == hallId && bookings[id].status == "approved"
  }

  /** The rows the GROUP_CONCAT sees for one hall, in the order `order`
      lists the bookings: approved bookings of that hall only. */
  function ApprovedSlots(bookings: map<nat, Booking>, order: seq<nat>, hallId: nat): (r: seq<SlotCodec.Slot>)
    ensures forall s :: s in r <==>
      exists j :: 0 <= j < |order| && ApprovedFor(bookings, hallId, order[j]) && s == SlotFor(order[j], bookings[order[j]])
    ensures r == [] <==> forall j :: 0 <= j < |order| ==> !ApprovedFor(bookings, hallId, order[j])
  {
    if order == [] then []
    else
      var rest := ApprovedSlots(bookings, order[1..], hallId);
      assert forall j :: 1 <= j < |order| ==> order[j] == order[1..][j - 1];
      if ApprovedFor(bookings, hallId, order[0]) then [SlotFor(order[0], bookings[order[0]])] + rest else rest
  }

  /** `order` is the order in which the join meets the booking rows: every
      booking of the table, each exactly once. */
  predicate JoinOrder(bookings: map<nat, Booking>, order: seq<nat>)
  {
    && NoRepeats(order)
    && (forall j :: 0 <= j < |order| ==> order[j] in bookings)
    && (forall id :: id in bookings ==> id in order)
  }

  /** The `bookedDates` entry a booking should give. */
  function BookedDateOf(id: nat, b: Booking): SlotCodec.BookedDate
  {
    SlotCodec.BookedDate(b.request.date, Some(b.request.time), Some(SlotCodec.DecimalText(id)))
  }

  /** The `booked_slots` column for one hall: NULL exactly when the join
      meets no approved booking of the hall. */
  function BookedSlotsColumn(bookings: map<nat, Booking>, order: seq<nat>, hallId: nat): (column: Option<string>)
    ensures column.None? <==> forall j :: 0 <= j < |order| ==> !ApprovedFor(bookings, hallId, order[j])
  {
    SlotCodec.GroupConcat(SlotCodec.Encoded(ApprovedSlots(bookings, order, hallId)))
  }

  /** Dates and time labels hold neither `,` nor `|`. */
  predicate SeparatorFree(bookings: map<nat, Booking>)
  {
    forall id :: id in bookings ==>
      Free(bookings[id].request.date, ',') && Free(bookings[id].request.date, '|') &&
      Free(bookings[id].request.time, ',') && Free(bookings[id].request.time, '|')
  }

  // --------------------------------------------------------------- users

  predicate EmailsUnique(users: map<nat, User>)
  {
    forall a, b :: a in users && b in users && users[a].email == users[b].email ==> a == b
  }

  predicate EmailTaken(users: map<nat, User>, email: string)
  {
    exists id :: id in users && users[id].email == email
  }

  function Public(id: nat, u: User): PublicUser
  {
    PublicUser(id, u.name, u.email, u.phone, u.role, u.resetToken, u.resetTokenExpiry)
  }

  /** POST /register: an email already present (under any role) is
      refused; otherwise a row with role "user" and the password as sent. */
  function RegisterResult(users: map<nat, User>, freshId: nat, name: string, email: string, password: string, phone: string)
    : (r: (Reply, map<nat, User>))
    requires freshId !in users
    ensures r.0.success <==> !EmailTaken(users, email)
    ensures !r.0.success ==> r.1 == users && r.0.message == "Email already exists"
    ensures r.0.success ==> r.1 == users[freshId := User(name, email, password, phone, "user", None, None)]
  {
    if EmailTaken(users, email) then (Reply(200, false, "Email already exists"), users)
    else (Reply(200, true, "User registered successfully"), users[freshId := User(name, email, password, phone, "user", None, None)])
  }

  /** POST /login: the row is looked up by the (email, role) pair and the
      password compared by exact equality; the user comes back without its
      password. */
  function LoginResult(users: map<nat, User>, email: string, password: string, role: string)
    : (r: (Reply, Option<PublicUser>))
    requires EmailsUnique(users)
    ensures r.0.success <==> exists id :: id in users && users[id].email == email && users[id].role == role && users[id].password == password
    ensures r.0.success <==> r.1.Some?
    ensures r.1.Some? ==> (r.1.value.id in users && r.1.value == Public(r.1.value.id, users[r.1.value.id])
                           && r.1.value.email == email && r.1.value.role == role)
    ensures !r.0.success ==> r.0.message == "Invalid credentials"
  {
    if exists id :: id in users && users[id].email == email && users[id].role == role then
      var id :| id in users && users[id].email == email && users[id].role == role;
      if users[id].password == password then (Reply(200, true, "Login successful"), Some(Public(id, users[id])))
      else (Reply(200, false, "Invalid credentials"), None)
    else (Reply(200, false, "Invalid credentials"), None)
  }

  /** POST /reset-password: unknown email is a 404; otherwise every row with
      that email gets the token and an expiry of now + 1 hour. The reply
      reports whether the mail went out, but the token is stored either way. */
  function ResetRequestResult(users: map<nat, User>, email: string, token: string, now: int, mailSent: bool)
    : (r: (Reply, map<nat, User>))
    ensures email == "" ==> r.0.code == 400
    ensures email != "" && !EmailTaken(users, email) ==> r.0 == Reply(404, false, "Email not found")
    ensures r.0.success <==> email != "" && EmailTaken(users, email) && mailSent
    ensures r.1.Keys == users.Keys
    ensures forall id :: id in users ==> (r.1[id] ==
      if email != "" && users[id].email == email
      then users[id].(resetToken := Some(token), resetTokenExpiry := Some(now + ResetTokenLifetime))
      else users[id])
  {
    if email == "" then (Reply(400, false, "Email is required"), users)
    else if !EmailTaken(users, email) then (Reply(404, false, "Email not found"), users)
    else
      var issued := map id | id in users ::
        if users[id].email == email
        then users[id].(resetToken := Some(token), resetTokenExpiry := Some(now + ResetTokenLifetime))
        else users[id];
      if mailSent then (Reply(200, true, "Password reset link sent to your email"), issued)
      else (Reply(500, false, "Failed to send reset email"), issued)
  }

  /** `reset_token = ? AND reset_token_expiry > NOW()` on one row. */
  function TokenValid(u: User, token: string, now: int): (valid: bool)
    ensures valid ==> u.resetToken == Some(token) && u.resetTokenExpiry.Some?
    ensures u.resetToken == Some(token) && u.resetTokenExpiry.Some? ==> (valid <==> now < u.resetTokenExpiry.value)
  {
    u.resetToken == Some(token) && u.resetTokenExpiry.Some? && u.resetTokenExpiry.value > now
  }

  /** The emails GET /verify-reset-token/:token may answer with. */
  function ValidTokenEmails(users: map<nat, User>, token: string, now: int): (r: set<string>)
    ensures forall e :: e in r <==> exists id :: id in users && TokenValid(users[id], token, now) && users[id].email == e
  {
    set id | id in users && TokenValid(users[id], token, now) :: users[id].email
  }

  /** POST /update-password: both fields are required; some row must hold
      the token unexpired; then every row holding the token (the UPDATE does
      not re-check the expiry) gets the new password and loses the token. */
  function UpdatePasswordResult(users: map<nat, User>, token: string, newPassword: string, now: int)
    : (r: (Reply, map<nat, User>))
    ensures token == "" || newPassword == "" ==> r.0 == Reply(400, false, "Token and new password are required")
    ensures r.0.success <==> token != "" && newPassword != "" && ValidTokenEmails(users, token, now) != {}
    ensures !r.0.success ==> r.1 == users
    ensures r.1.Keys == users.Keys
    ensures r.0.success ==> forall id :: id in users ==> (r.1[id] ==
      if users[id].resetToken == Some(token)
      then users[id].(password := newPassword, resetToken := None, resetTokenExpiry := None)
      else users[id])
  {
    if token == "" || newPassword == "" then (Reply(400, false, "Token and new password are required"), users)
    else if ValidTokenEmails(users, token, now) == {} then (Reply(400, false, "Invalid or expired reset token"), users)
    else
      var updated := map id | id in users ::
        if users[id].resetToken == Some(token)
        then users[id].(password := newPassword, resetToken := None, resetTokenExpiry := None)
        else users[id];
      (Reply(200, true, "Password updated successfully"), updated)
  }

  // --------------------------------------------------------------- store

  class BookingStore {
    var users: map<nat, User>
    var halls: map<nat, Hall>
    var bookings: map<nat, Booking>
    var nextUserId: nat
    var nextHallId: nat
    var nextBookingId: nat

    /** Auto-increment counters lie above every id in use; emails are unique. */
    ghost predicate Valid()
      reads this
    {
      && (forall id :: id in users ==> id < nextUserId)
      && (forall id :: id in halls ==> id < nextHallId)
      && (forall id :: id in bookings ==> id < nextBookingId)
      && EmailsUnique(users)
    }

    /** A store over existing tables (admin accounts, for one, are only
        ever created outside the routes). */
    constructor (seedUsers: map<nat, User>, seedHalls: map<nat, Hall>, seedBookings: map<nat, Booking>,
                 firstUserId: nat, firstHallId: nat, firstBookingId: nat)
      requires forall id :: id in seedUsers ==> id < firstUserId
      requires forall id :: id in seedHalls ==> id < firstHallId
      requires forall id :: id in seedBookings ==> id < firstBookingId
      requires EmailsUnique(seedUsers)
      ensures Valid()
      ensures users == seedUsers && halls == seedHalls && bookings == seedBookings
    {
      users, halls, bookings := seedUsers, seedHalls, seedBookings;
      nextUserId, nextHallId, nextBookingId := firstUserId, firstHallId, firstBookingId;
    }

    method CreateBooking(req: BookingRequest, now: int) returns (reply: Reply)
      requires Valid()
      modifies this
      ensures Valid()
      ensures (reply, bookings) == CreateResult(old(bookings), old(nextBookingId), req, now)
      ensures nextBookingId == old(nextBookingId) + (if reply.success then 1 else 0)
      ensures users == old(users) && halls == old(halls) && nextUserId == old(nextUserId) && nextHallId == old(nextHallId)
    {
      if exists id :: id in bookings && bookings[id].status == "approved"
                      && SlotOf(bookings[id]) == (req.hallId, req.date, req.time) {
        return Reply(200, false, "Hall is already booked for this date and time");
      }
      bookings := bookings[nextBookingId := NewBooking(req, now)];
      nextBookingId := nextBookingId + 1;
      reply := Reply(200, true, "Booking created successfully");
    }

    method DeleteBooking(id: nat, route: DeleteRoute) returns (reply: Reply)
      requires Valid()
      modifies this
      ensures Valid()
      ensures (reply, bookings) == DeleteResult(old(bookings), id, route)
      ensures users == old(users) && halls == old(halls)
      ensures nextUserId == old(nextUserId) && nextHallId == old(nextHallId) && nextBookingId == old(nextBookingId)
    {
      if id !in bookings {
        return Reply(404, false, "Booking not found");
      }
      bookings := bookings - {id};
      reply := Reply(200, true, if route == CancelRoute then "Booking cancelled successfully"
                                else "Booking removed from history successfully");
    }

    method UpdateBookingStatus(id: nat, status: string) returns (reply: Reply)
      requires Valid()
      modifies this
      ensures Valid()
      ensures (reply, bookings) == StatusResult(old(bookings), id, status)
      ensures users == old(users) && halls == old(halls)
      ensures nextUserId == old(nextUserId) && nextHallId == old(nextHallId) && nextBookingId == old(nextBookingId)
    {
      if id in bookings {
        bookings := bookings[id := bookings[id].(status := status)];
      }
      reply := Reply(200, true, "Booking status updated");
    }

    method CompletePayment(id: nat, intentId: string, lookup: IntentLookup, now: int) returns (reply: Reply)
      requires Valid()
      modifies this
      ensures Valid()
      ensures (reply, bookings) == PaymentResult(old(bookings), id, intentId, lookup, now)
      ensures users == old(users) && halls == old(halls)
      ensures nextUserId == old(nextUserId) && nextHallId == old(nextHallId) && nextBookingId == old(nextBookingId)
    {
      if lookup.RetrieveFailed? {
        return Reply(500, false, "Payment completion failed");
      }
      if lookup.status != "succeeded" {
        return Reply(400, false, "Payment not completed");
      }
      if id !in bookings {
        return Reply(404, false, "Booking not found");
      }
      bookings := bookings[id := bookings[id].(paymentStatus := "paid", paymentIntentId := Some(intentId), updatedAt := now)];
      reply := Reply(200, true, "Payment completed successfully");
    }

    /** POST /admin/halls: a new active hall. */
    method AddHall(fields: HallFields, now: int) returns (reply: Reply)
      requires Valid()
      modifies this
      ensures Valid()
      ensures halls == old(halls)[old(nextHallId) := Hall(fields, true, now)]
      ensures reply == Reply(200, true, "Hall added successfully")
      ensures nextHallId == old(nextHallId) + 1
      ensures users == old(users) && bookings == old(bookings) && nextUserId == old(nextUserId) && nextBookingId == old(nextBookingId)
    {
      halls := halls[nextHallId := Hall(fields, true, now)];
      nextHallId := nextHallId + 1;
      reply := Reply(200, true, "Hall added successfully");
    }

    method UpdateHall(id: nat, fields: HallFields) returns (reply: Reply)
      requires Valid()
      modifies this
      ensures Valid()
      ensures halls == EditHall(old(halls), id, fields)
      ensures reply == Reply(200, true, "Hall updated successfully")
      ensures users == old(users) && bookings == old(bookings)
      ensures nextHallId == old(nextHallId) && nextUserId == old(nextUserId) && nextBookingId == old(nextBookingId)
    {
      if id in halls {
        halls := halls[id := halls[id].(fields := fields)];
      }
      reply := Reply(200, true, "Hall updated successfully");
    }

    method DeleteHall(id: nat) returns (reply: Reply)
      requires Valid()
      modifies this
      ensures Valid()
      ensures halls == SetActive(old(halls), id, false)
      ensures reply == Reply(200, true, "Hall deleted successfully")
      ensures users == old(users) && bookings == old(bookings)
      ensures nextHallId == old(nextHallId) && nextUserId == old(nextUserId) && nextBookingId == old(nextBookingId)
    {
      if id in halls {
        halls := halls[id := halls[id].(isActive := false)];
      }
      reply := Reply(200, true, "Hall deleted successfully");
    }

    method RestoreHall(id: nat) returns (reply: Reply)
      requires Valid()
      modifies this
      ensures Valid()
      ensures halls == SetActive(old(halls), id, true)
      ensures reply == Reply(200, true, "Hall restored successfully")
      ensures users == old(users) && bookings == old(bookings)
      ensures nextHallId == old(nextHallId) && nextUserId == old(nextUserId) && nextBookingId == old(nextBookingId)
    {
      if id in halls {
        halls := halls[id := halls[id].(isActive := true)];
      }
      reply := Reply(200, true, "Hall restored successfully");
    }

    /** GET /halls-with-bookings: every active hall with its decoded
        `bookedDates`; `order` is the order in which the join yields the
        bookings. */
    method HallsWithBookings(order: seq<nat>) returns (result: map<nat, HallListing>)
      requires JoinOrder(bookings, order)
      ensures result.Keys == ActiveHalls(halls).Keys
      ensures forall id :: id in result ==>
        result[id] == HallListing(halls[id], SlotCodec.DecodeSlots(BookedSlotsColumn(bookings, order, id)))
    {
      result := map[];
      var todo := ActiveHalls(halls).Keys;
      while todo != {}
        invariant todo <= ActiveHalls(halls).Keys
        invariant result.Keys == ActiveHalls(halls).Keys - todo
        invariant forall id :: id in result ==>
          result[id] == HallListing(halls[id], SlotCodec.DecodeSlots(BookedSlotsColumn(bookings, order, id)))
        decreases todo
      {
        var id :| id in todo;
        var bookedDates := SlotCodec.DecodeBookedSlots(BookedSlotsColumn(bookings, order, id));
        result := result[id := HallListing(halls[id], bookedDates)];
        todo := todo - {id};
      }
    }

    method Register(name: string, email: string, password: string, phone: string) returns (reply: Reply)
      requires Valid()
      modifies this
      ensures Valid()
      ensures (reply, users) == RegisterResult(old(users), old(nextUserId), name, email, password, phone)
      ensures nextUserId == old(nextUserId) + (if reply.success then 1 else 0)
      ensures halls == old(halls) && bookings == old(bookings) && nextHallId == old(nextHallId) && nextBookingId == old(nextBookingId)
    {
      if exists id :: id in users && users[id].email == email {
        return Reply(200, false, "Email already exists");
      }
      users := users[nextUserId := User(name, email, password, phone, "user", None, None)];
      nextUserId := nextUserId + 1;
      reply := Reply(200, true, "User registered successfully");
    }

    method Login(email: string, password: string, role: string) returns (reply: Reply, user: Option<PublicUser>)
      requires Valid()
      ensures (reply, user) == LoginResult(users, email, password, role)
    {
      if !exists id :: id in users && users[id].email == email && users[id].role == role {
        return Reply(200, false, "Invalid credentials"), None;
      }
      var id :| id in users && users[id].email == email && users[id].role == role;
      if password != users[id].password {
        return Reply(200, false, "Invalid credentials"), None;
      }
      reply, user := Reply(200, true, "Login successful"), Some(Public(id, users[id]));
    }

    method RequestPasswordReset(email: string, token: string, now: int, mailSent: bool) returns (reply: Reply)
      requires Valid()
      modifies this
      ensures Valid()
      ensures (reply, users) == ResetRequestResult(old(users), email, token, now, mailSent)
      ensures halls == old(halls) && bookings == old(bookings)
      ensures nextUserId == old(nextUserId) && nextHallId == old(nextHallId) && nextBookingId == old(nextBookingId)
    {
      if email == "" {
        return Reply(400, false, "Email is required");
      }
      if !exists id :: id in users && users[id].email == email {
        return Reply(404, false, "Email not found");
      }
      var expiry := now + ResetTokenLifetime;
      users := map id | id in users ::
        if users[id].email == email then users[id].(resetToken := Some(token), resetTokenExpiry := Some(expiry))
        else users[id];
      if !mailSent {
        return Reply(500, false, "Failed to send reset email");
      }
      reply := Reply(200, true, "Password reset link sent to your email");
    }

    /** GET /verify-reset-token/:token: the email of one row holding the
        token unexpired (the first row of the query, any of them). */
    method VerifyResetToken(token: string, now: int) returns (reply: Reply, email: Option<string>)
      ensures reply.success <==> ValidTokenEmails(users, token, now) != {}
      ensures email.Some? <==> reply.success
      ensures email.Some? ==> email.value in ValidTokenEmails(users, token, now)
      ensures !reply.success ==> reply == Reply(400, false, "Invalid or expired reset token")
    {
      var found := ValidTokenEmails(users, token, now);
      if found == {} {
        return Reply(400, false, "Invalid or expired reset token"), None;
      }
      var e :| e in found;
      reply, email := Reply(200, true, "Valid reset token"), Some(e);
    }

    method UpdatePassword(token: string, newPassword: string, now: int) returns (reply: Reply)
      requires Valid()
      modifies this
      ensures Valid()
      ensures (reply, users) == UpdatePasswordResult(old(users), token, newPassword, now)
      ensures halls == old(halls) && bookings == old(bookings)
      ensures nextUserId == old(nextUserId) && nextHallId == old(nextHallId) && nextBookingId == old(nextBookingId)
    {
      if token == "" || newPassword == "" {
        return Reply(400, false, "Token and new password are required");
      }
      if ValidTokenEmails(users, token, now) == {} {
        return Reply(400, false, "Invalid or expired reset token");
      }
      users := map id | id in users ::
        if users[id].resetToken == Some(token)
        then users[id].(password := newPassword, resetToken := None, resetTokenExpiry := None)
        else users[id];
      reply := Reply(200, true, "Password updated successfully");
    }
  }
}
