# Event hall booking: a verified model

This project models the core of an event-hall booking web application.
Users browse marriage halls and book a hall for a date and time slot.
An admin approves or rejects each booking. The user then pays for an
approved booking. The project has two halves.

**The backend** (`backend/server.js`) keeps three MySQL tables: `users`,
`halls` and `bookings`.

- Module `Store` models each table as a map from the auto-increment id to
  the row, inside class `BookingStore`.
- Each route that writes a table is a method of that class. Its reply and
  new tables are tied to a pure transition function (`CreateResult`,
  `PaymentResult`, `UpdatePasswordResult`, …), which states what the route
  promises. The method leaves the other tables and their auto-increment
  counters as they were.
- The read-only routes are plain functions over the tables: the hall lists
  (`ActiveHalls` for /halls and GET /admin/halls, the `halls` map itself for /admin/halls/all)
  and the search (`SearchHalls`). So is the request check of
  /create-payment-intent (`CheckIntentRequest`).
- Anything from outside the tables is a parameter:
  - the current time (`NOW()`, `Date.now()`), in milliseconds;
  - the random reset token;
  - the payment intent status the gateway reports;
  - whether the mailer succeeded;
  - the order in which the SQL join yields booking rows.
- Module `StoreLaws` states properties that span several routes:
  - the slot guard on booking creation;
  - how admin approval can still put two approved bookings on one slot;
  - hall soft-delete and restore;
  - register-then-login;
  - the reset-token lifecycle.
- Module `SlotCodec` covers the `booked_slots` column of
  `/halls-with-bookings`. SQL encodes each approved booking as
  `date|time|id` and GROUP_CONCATs them with `,`. JavaScript splits on `,`
  and then on `|`. The module proves that decoding gives back exactly the
  approved slots, in order.
- Module `GeminiRetry` models `callGeminiWithRetry`, the loop that retries
  the assistant's language-model call on 503 with a doubling delay. The
  lemmas there pin down the retry schedule.

**The frontend** (React) holds pure decision rules and small state
machines, one module per component:

- `AdminDashboard`: the payment/status filter, the two status labels, the
  Approve/Reject rule and the handlers that change the `bookings` list.
- `MyBookings`: the ten-minute cancel window, the status message, the Pay
  Now, Cancel and payment-line rules, and the list and payment-modal state.
- `ResetPassword`: the token check on mount and the `handleSubmit`
  sequence over `message`, `messageType` and `loading`.
- `AppRoutes`: the `ProtectedRoute` guard and which routes it wraps.
- `HallCard`: the Book Now gate, `hasBookedDates` and the booking-form
  state.
- `ChatBox`: the assistant's message log (send, clear, mount, logout
  event) and `String.prototype.trim`.
- `BookingViews`: the booking row both booking pages display, and the
  order-preserving `Array.prototype.filter` they share.
- `Common`: `Option`, ASCII case mapping and substring search.

## Model

| member | source | states |
|---|---|---|
| Store.CreateResult | backend/server.js:646-671 | The booking is refused, with the tables unchanged, iff an approved booking holds the same (hall, date, time); pending and rejected bookings never block it. Otherwise exactly one row is added: the request's columns, the default status and payment_status 'pending'. Existing rows are unchanged. |
| Store.SlotTaken | backend/server.js:649 | The slot is taken iff some booking of the table is an approved booking of that hall with the same date and time. |
| Store.BookingStore.CreateBooking | backend/server.js:646-671 | Reply and new bookings table equal CreateResult under the next auto-increment id. The bookings counter advances by one exactly when a row is inserted. The users and halls tables and their counters are unchanged, and the store invariant is kept. |
| Store.DeleteResult | backend/server.js:673-689 | Deletes exactly the row with that id, whatever its status or payment status. Every other row is kept. 404 iff no row has the id. |
| Store.BookingStore.DeleteBooking | backend/server.js:284-319 | The two remove-from-history routes and the cancel route delete by id as DeleteResult says. The other tables and all three auto-increment counters are unchanged. |
| Store.StatusResult | backend/server.js:709-720 | Overwrites only that row's status with whatever value was sent. There is no pending check and no slot re-check. Always 200 with success, even for an unknown id. |
| Store.BookingStore.UpdateBookingStatus | backend/server.js:709-720 | New bookings table and reply equal StatusResult. The other tables and all three auto-increment counters are unchanged. |
| Store.PaymentResult | backend/server.js:87-174 | Success iff the gateway status is exactly "succeeded" and the row exists. A different status gives 400 and changes nothing; a gateway error gives 500; an unknown id gives 404. On success only payment_status, payment_intent_id and updated_at of that row change. |
| Store.BookingStore.CompletePayment | backend/server.js:87-174 | New bookings table and reply equal PaymentResult. The other tables and all three auto-increment counters are unchanged. |
| Store.CheckIntentRequest | backend/server.js:59-73 | The request is accepted iff the amount and the booking id are both present and non-zero; otherwise 400. The amount is rounded half up (it lies within half a unit of the input). The currency is lower-cased and defaults to "pkr". |
| Store.ActiveHalls | backend/server.js:634-643 | /halls (and /admin/halls) list exactly the halls with is_active set, with their rows unchanged. |
| Store.SearchHalls | backend/server.js:177-193 | An empty location gives 400. Otherwise the result is exactly the active halls whose location contains the text, ignoring ASCII letter case. |
| Store.SetActive | backend/server.js:767-778 | Soft delete and restore set is_active of that hall to the given value and change no other column or row. |
| Store.BookingStore.RestoreHall | backend/server.js:408-420 | Restore sets is_active true on that hall only; always 200. The other tables and all three auto-increment counters are unchanged. |
| Store.BookingStore.DeleteHall | backend/server.js:767-778 | The halls table becomes SetActive(…, false); always reports success. The other tables and all three auto-increment counters are unchanged. |
| Store.EditHall | backend/server.js:749-765 | The seven editable columns of that hall are overwritten. is_active, created_at and every other hall are kept. |
| Store.BookingStore.UpdateHall | backend/server.js:749-765 | The halls table becomes EditHall(…); always reports success. The other tables and all three auto-increment counters are unchanged. |
| Store.BookingStore.AddHall | backend/server.js:733-747 | A new active hall is added under the next id, and the halls counter advances by one. The other halls, the other tables and their counters are unchanged. |
| Store.ApprovedSlots | backend/server.js:347-357 | A slot is in a hall's GROUP_CONCAT input iff some joined booking of that hall is approved and the slot is its (date, time, id). |
| Store.BookedSlotsColumn | backend/server.js:347-353 | The GROUP_CONCAT of the encoded approved slots; NULL exactly when the join meets no approved booking of the hall. |
| Store.BookingStore.HallsWithBookings | backend/server.js:343-393 | Given a join order that meets every booking row exactly once, the loop lists every active hall, and only those, each with the decoded bookedDates of its booked_slots column. |
| Store.RegisterResult | backend/server.js:574-601 | An email already present is refused with the table unchanged. Otherwise one row is added with role 'user' and the password as given. |
| Store.BookingStore.Register | backend/server.js:574-601 | Users table and reply equal RegisterResult under the next id. The users counter advances by one exactly when a row is inserted. The other tables and their counters are unchanged, and email uniqueness is kept. |
| Store.LoginResult | backend/server.js:603-631 | Login succeeds iff a row matches the (email, role) pair and its password is exactly equal. The user returned is that row without a password field. |
| Store.BookingStore.Login | backend/server.js:603-631 | Reply and user equal LoginResult; the tables are unchanged. |
| Store.ResetRequestResult | backend/server.js:422-484 | An empty email gives 400 and an unknown email 404. Otherwise every row with that email gets the token and an expiry of now + 3600000 ms. The token is stored even when the mail fails, and success iff the mail went out. |
| Store.BookingStore.RequestPasswordReset | backend/server.js:422-484 | Users table and reply equal ResetRequestResult. The other tables and all three auto-increment counters are unchanged. |
| Store.ValidTokenEmails | backend/server.js:486-502 | An email is answered iff some row holds the token with expiry strictly later than now. |
| Store.TokenValid | backend/server.js:489 | A row verifies a token only when it holds that token with an expiry; it then verifies iff the expiry is strictly after now. |
| Store.BookingStore.VerifyResetToken | backend/server.js:486-502 | Success iff some row holds the token unexpired; the email returned belongs to such a row; otherwise 400. |
| Store.UpdatePasswordResult | backend/server.js:504-539 | Both fields are required (400). Success iff some row holds the token unexpired. Then every row holding the token gets the new password and loses token and expiry. On failure nothing changes. |
| Store.BookingStore.UpdatePassword | backend/server.js:504-539 | Users table and reply equal UpdatePasswordResult. The other tables and all three auto-increment counters are unchanged. |
| StoreLaws.CreateKeepsOneApprovedPerSlot | backend/server.js:649-668 | Creating a booking never puts two approved bookings on one slot. |
| StoreLaws.ApprovingTakenSlotDoubleBooks | backend/server.js:709-720 | Approving a booking whose slot another approved booking holds breaks the one-approved-per-slot rule. |
| StoreLaws.TwoApprovalsForOneSlotReachable | backend/server.js:646-720 | Two creates of the same slot both succeed, and approving both leaves two approved bookings on one slot. |
| StoreLaws.PaymentTouchesOnlyPaymentColumns | backend/server.js:93-116 | Payment never changes the booking request, its status or created_at. A gateway status other than "succeeded" leaves the row untouched. |
| StoreLaws.DeleteThenRestore | backend/server.js:396-420 | A deleted hall leaves the public lists and every search but stays in the full admin list with its columns. Restore returns it to the public list. For an active hall, delete then restore is the identity. |
| StoreLaws.BookedDatesOfHall | backend/server.js:343-393 | When no date or time holds `,` or `|` and the join meets every booking once, a hall's bookedDates are its approved bookings' (date, time, id) in join order. Every approved booking of the hall in the table appears, nothing else does, and no entry repeats. The list is empty iff the hall has no approved booking. |
| StoreLaws.ApprovedSlotsExact | backend/server.js:347-357 | When the join meets every booking once, the expected entries of a hall's approved slots are exactly its approved bookings, each once. |
| StoreLaws.ApprovedSlotsDistinct | backend/server.js:347-357 | When the join meets no booking twice, the rows GROUP_CONCAT sees for a hall hold no repeats, because their id fields differ. |
| StoreLaws.RegisterKeepsEmailsUnique | backend/server.js:578-596 | Registration keeps emails unique. |
| StoreLaws.RegisterThenLogin | backend/server.js:574-631 | A freshly registered account logs in as 'user' with the password given, returning the new row, and never logs in as 'admin'. |
| StoreLaws.IssuedTokenLifetime | backend/server.js:422-502 | When no row held the token before, a freshly issued token verifies for exactly the requested email, and no other, strictly before now + 1 hour. It verifies for no email at or after that instant. |
| StoreLaws.UpdatedPasswordConsumesToken | backend/server.js:504-539 | After a successful update the token verifies for nobody at any time. Every account that held it unexpired logs in with the new password. |
| SlotCodec.DecodeBookedSlots | backend/server.js:367-389 | The forEach loop builds exactly DecodeSlots of the column. |
| SlotCodec.DecodeSlots | backend/server.js:367-389 | A NULL or empty column gives no entries. Otherwise every entry is the parse of a non-empty `,`-segment of the column. |
| SlotCodec.DecodeSegments | backend/server.js:371-386 | At most one entry per segment, each the parse of a non-empty segment. |
| SlotCodec.ParseSlot | backend/server.js:374 | A bookingId only comes with a time, and a segment without `|` gives a date alone. |
| SlotCodec.DecimalTextInjective | backend/server.js:350 | Two ids render as the same decimal text iff they are equal. |
| SlotCodec.SplitJoin | backend/server.js:371-374 | Splitting undoes joining for parts free of the separator. |
| SlotCodec.Split | backend/server.js:371-374 | At least one part, and joining the parts with the separator gives back the string. |
| SlotCodec.EncodeSlot | backend/server.js:350 | The segment is date, `|`, time, `|`, id. |
| SlotCodec.GroupConcat | backend/server.js:347-353 | NULL iff there are no rows; one row gives itself; otherwise the rows joined by `,`. |
| SlotCodec.SlotRoundTrip | backend/server.js:347-380 | A separator-free slot encodes to a non-empty, comma-free segment that parses back to the same three fields. |
| SlotCodec.DecodeGroupConcat | backend/server.js:347-389 | Decoding the GROUP_CONCAT of encoded separator-free slots yields exactly those slots in order; none gives an empty list. |
| GeminiRetry.CallWithRetry | backend/server.js:196-218 | The loop's ending, sleeps and attempt count equal the reference run RunFrom. |
| GeminiRetry.RunFrom | backend/server.js:196-218 | The reference run from attempt i: it falls through, with no attempt made, iff no attempt is left. |
| GeminiRetry.RunShape | backend/server.js:196-218 | Attempts are bounded by maxRetries. Every attempt but the last failed with 503. The last attempt decides between response and rethrow. Nothing stops early on a retryable 503. The k-th sleep is delay·2^k. |
| GeminiRetry.NoAttemptWithoutRetries | backend/server.js:196-218 | A non-positive maxRetries makes no attempt and resolves to undefined. |
| GeminiRetry.DefaultSchedule | backend/server.js:196-218 | With the defaults: at most 3 attempts and never undefined. The sleeps are a prefix of [2000, 4000]. A response is returned iff one arrives within 3 attempts after only 503s. |
| BookingViews.Select | frontend/src/Pages/AdminDashboard.jsx:180-195 | filter keeps exactly the passing elements, each as often as in the input, as an order-preserving sub-list. |
| BookingViews.WithoutId | frontend/src/Pages/AdminDashboard.jsx:92 | Dropping an id removes every entry with that id and keeps every other entry, with its multiplicity and in order. |
| BookingViews.WithoutAbsentId | frontend/src/Pages/MyBookings.jsx:43 | Dropping an id no entry carries leaves the list unchanged. |
| AdminDashboard.FilteredBookings | frontend/src/Pages/AdminDashboard.jsx:180-195 | "paid" keeps exactly the paid bookings, "unpaid" exactly the rest. "pending", "approved" and "rejected" keep exactly that status. Any other value returns the list. Every result is an order-preserving sub-list. |
| AdminDashboard.PaidUnpaidPartition | frontend/src/Pages/AdminDashboard.jsx:182-185 | The paid and unpaid filters partition the list, as multisets and in length. |
| AdminDashboard.PaymentStatusDisplay | frontend/src/Pages/AdminDashboard.jsx:198-206 | 'N/A' iff rejected. 'Awaiting Approval' iff pending. Otherwise 'Paid' iff paid, else 'Payment Pending'. |
| AdminDashboard.Capitalize | frontend/src/Pages/AdminDashboard.jsx:216 | Only the case of the first letter changes, and it is never a lower-case letter. |
| AdminDashboard.BookingStatusDisplay | frontend/src/Pages/AdminDashboard.jsx:209-217 | For an approved booking: 'Confirmed & Paid' iff paid, else 'Approved - Payment Pending'. Any other status is shown capitalised. |
| AdminDashboard.KnownStatusLabel | frontend/src/Pages/AdminDashboard.jsx:209-217 | A pending booking is labelled 'Pending' and a rejected one 'Rejected'. |
| AdminDashboard.StatusLabelIdentifiesBooking | frontend/src/Pages/AdminDashboard.jsx:209-217 | For the three server statuses, equal labels mean equal status and, when approved, the same paid-ness. |
| AdminDashboard.ApproveRejectOnlyAwaitingApproval | frontend/src/Pages/AdminDashboard.jsx:337-356 | Approve/Reject show iff the payment label reads 'Awaiting Approval', and exactly on the rows the "pending" filter keeps. |
| AdminDashboard.ApproveRejectVisible | frontend/src/Pages/AdminDashboard.jsx:337 | Approve/Reject show iff the booking is pending, and then its status label reads 'Pending'. |
| AdminDashboard.DashboardState.FetchBookings | frontend/src/Pages/AdminDashboard.jsx:29-36 | A fetched list replaces the state; a failed fetch keeps it. |
| AdminDashboard.DashboardState.RemoveBookingFromHistory | frontend/src/Pages/AdminDashboard.jsx:84-101 | Only a confirmed removal that the server answers with success drops the entries with that id. Otherwise the list is unchanged. |
| AdminDashboard.DashboardState.UpdateBookingStatus | frontend/src/Pages/AdminDashboard.jsx:49-82 | The approval email is requested iff the PUT succeeded and the new status is "approved". A failed PUT or email skips the refetch. |
| MyBookings.IsCancelable | frontend/src/Pages/MyBookings.jsx:100-106 | False without a usable created_at. Otherwise true iff at most 600000 ms have elapsed, exactly ten minutes included. |
| MyBookings.CancelableInMinutes | frontend/src/Pages/MyBookings.jsx:100-106 | The integer test agrees with dividing by 60000 and comparing the minutes with 10 over exact arithmetic. |
| MyBookings.CancelWindowMonotone | frontend/src/Pages/MyBookings.jsx:100-106 | Once the window has closed it stays closed. |
| MyBookings.StatusMessage | frontend/src/Pages/MyBookings.jsx:108-119 | pending gives the approval wait text. approved gives 'Confirmed & Paid' iff paid, else 'Approved - Payment Required'. rejected gives 'Booking rejected'. Anything else is shown raw. |
| MyBookings.RowActions | frontend/src/Pages/MyBookings.jsx:143-173 | A paid booking shows neither Pay Now nor Cancel, and Pay Now comes with the payment line. For the server's statuses, Pay Now shows iff the message asks for payment. Cancel never shows for a rejected booking or after the window. |
| MyBookings.PaymentLineVisible | frontend/src/Pages/MyBookings.jsx:143 | For the server's statuses, the payment line shows iff the status message is one of the two approved messages. |
| MyBookings.PayNowVisible | frontend/src/Pages/MyBookings.jsx:153 | Pay Now shows iff the payment line shows and the booking is not paid. |
| MyBookings.CancelVisible | frontend/src/Pages/MyBookings.jsx:163-165 | Cancel shows iff the booking is pending or approved, not paid, has a creation time, and `now` is within ten minutes of it. |
| MyBookings.MyBookingsState.FetchUserBookings | frontend/src/Pages/MyBookings.jsx:16-34 | A fetched list replaces the state, a failure keeps it, and loading ends either way. |
| MyBookings.MyBookingsState.CancelBooking | frontend/src/Pages/MyBookings.jsx:36-51 | A successful cancel drops exactly the entries with that id; a failure leaves the list unchanged. |
| MyBookings.MyBookingsState.RemoveFromHistory | frontend/src/Pages/MyBookings.jsx:53-70 | A confirmed, successful removal drops exactly the entries with that id; otherwise the list is unchanged. |
| MyBookings.MyBookingsState.HandlePayNow | frontend/src/Pages/MyBookings.jsx:72-75 | Opens the payment modal on that booking. |
| MyBookings.MyBookingsState.HandlePaymentSuccess | frontend/src/Pages/MyBookings.jsx:77-84 | Closes the modal, clears selectedBooking, then refetches. |
| MyBookings.MyBookingsState.HandlePaymentCancel | frontend/src/Pages/MyBookings.jsx:86-89 | Closes the modal and clears selectedBooking; the list is unchanged. |
| ResetPassword.MessageOr | frontend/src/Pages/ResetPassword.jsx:105 | A missing or empty server message falls back to the fixed text. |
| ResetPassword.SubmitCheck | frontend/src/Pages/ResetPassword.jsx:68-80 | A mismatch is reported first, then a password shorter than 6. The request goes out iff the passwords match and have at least 6 characters. |
| ResetPassword.SubmitChecksDistinct | frontend/src/Pages/ResetPassword.jsx:68-80 | Each error message occurs iff its own check fails. |
| ResetPassword.ResetPasswordState.VerifyOnMount | frontend/src/Pages/ResetPassword.jsx:21-52 | Without a token: no request and 'Invalid reset link'. With one, the token is valid iff the server says so, and the error text follows the reply. Verifying ends on every path. |
| ResetPassword.ResetPasswordState.HandleSubmit | frontend/src/Pages/ResetPassword.jsx:62-115 | The request is sent iff both checks pass. messageType is 'success' only for a successful reply, which also schedules the redirect. loading is false on every exit. |
| ResetPassword.ResetPasswordState.ShowsForm | frontend/src/Pages/ResetPassword.jsx:117-127 | The form is drawn only with a valid token, and under the page invariant (no valid token while verifying) exactly then. |
| AppRoutes.Guard | frontend/src/App.jsx:15-27 | Redirects to /login iff no user is stored. Redirects to / iff the route is admin-only and the role is not 'admin'. Otherwise it shows the page. |
| AppRoutes.RouteGuard | frontend/src/App.jsx:42-57 | Only /mybookings and /admin-dashboard are guarded, and only /admin-dashboard is admin-only. |
| AppRoutes.Visit | frontend/src/App.jsx:33-57 | An unguarded path always shows its page. Only a guarded path redirects, and only to a declared path. |
| AppRoutes.WhoSeesWhat | frontend/src/App.jsx:15-57 | Unguarded pages are open to all. My Bookings is open to anyone logged in, and the dashboard only to a stored admin. A logged-out visitor goes to /login and a non-admin goes from the dashboard to /. |
| HallCard.BookNowDecision | frontend/src/Components/HallCard.jsx:10-27 | No stored user means login is required. A role other than 'user' is refused. Only role 'user' opens the form. |
| HallCard.HasBookedDates | frontend/src/Components/HallCard.jsx:42 | True iff `bookedDates` is present and not empty. |
| HallCard.BookingAndRoutesAgree | frontend/src/Components/HallCard.jsx:10-27 | Whoever may book can open My Bookings and not the dashboard. An admin is refused booking but sees the dashboard. A logged-out visitor is sent to login by both. |
| HallCard.BookedDatesShownIffApproved | frontend/src/Components/HallCard.jsx:42 | When the join meets every booking once, a card lists booked dates iff the bookings table holds an approved booking of its hall. |
| HallCard.HallCardState.HandleBookNow | frontend/src/Components/HallCard.jsx:10-27 | The outcome is BookNowDecision. The form opens only for a 'user'; a refusal leaves it as it was. |
| HallCard.HallCardState.CloseBookingForm | frontend/src/Components/HallCard.jsx:29-31 | The form is closed. |
| HallCard.HallCardState.HandleBookingSuccess | frontend/src/Components/HallCard.jsx:33-39 | The form is closed, and the parent callback runs iff one was passed. |
| ChatBox.Welcome | frontend/src/Components/ChatBox.jsx:19-23 | A single bot message with the welcome text. |
| ChatBox.TrimEmptyIffBlank | frontend/src/Components/ChatBox.jsx:87 | trim gives "" iff the input is only ECMAScript white space and line terminators. |
| ChatBox.BlankEverywhere | frontend/src/Components/ChatBox.jsx:87 | Blank input is exactly input whose every character is one that trim removes. |
| ChatBox.Trim | frontend/src/Components/ChatBox.jsx:87 | The result is no longer than the input and starts and ends with a character trim keeps. |
| ChatBox.BotMessage | frontend/src/Components/ChatBox.jsx:111-125 | A bot message carrying the server's result, or the apology text when the request fails. |
| ChatBox.ChatBoxState.Mount | frontend/src/Components/ChatBox.jsx:13-49 | The saved log is restored only for a logged-in user whose saved entry parses. Otherwise the log is the welcome message. |
| ChatBox.ChatBoxState.SetInput | frontend/src/Components/ChatBox.jsx:209 | Replaces the input only. |
| ChatBox.ChatBoxState.Toggle | frontend/src/Components/ChatBox.jsx:158 | Flips the window open or closed only. |
| ChatBox.ChatBoxState.BeginSend | frontend/src/Components/ChatBox.jsx:86-104 | Blank input or no logged-in user changes nothing. Otherwise the untrimmed input is appended as the user's message, the input is cleared and loading starts. |
| ChatBox.ChatBoxState.FinishSend | frontend/src/Components/ChatBox.jsx:106-128 | Exactly one bot message is appended and loading ends. |
| ChatBox.ChatBoxState.SendMessage | frontend/src/Components/ChatBox.jsx:86-129 | A send happens iff the input is not blank and a user is logged in. It appends the user message, then exactly one bot message, clears the input and ends loading. |
| ChatBox.ChatBoxState.ClearChatHistory | frontend/src/Components/ChatBox.jsx:131-139 | The log becomes exactly the welcome message. |
| ChatBox.ChatBoxState.OnStorageEvent | frontend/src/Components/ChatBox.jsx:60-72 | Removing the `user` entry resets the log to the welcome message and closes the window. Any other event changes nothing. |

## Left out

- The MySQL connection, Express routing, CORS and JSON body parsing are not modelled. Neither are database errors: every 500 "Database error" reply and the failed-insert replies are out.
- The check-then-insert race between concurrent POST /bookings requests is out of scope: the model runs one request at a time.
- `ORDER BY` clauses and the column projections of the joins are presentation. So are the GET /mybookings/:userId and GET /admin/bookings listings, which only read the tables. The order in which `/halls-with-bookings` meets the bookings is the `order` parameter. Store.JoinOrder requires it to list every booking row once, as the join does.
- The Stripe SDK, nodemailer and the language-model client are outside the model. Their outcomes are parameters. The payment confirmation email is out: the source ignores a failure to send it. The mail sending of POST /sendBookingEmail is out too. Its 500 reply on a mail failure is modelled on the dashboard side, as the `emailOk` outcome of `DashboardState.UpdateBookingStatus`. So is POST /geminiPrompt beyond the retry helper.
- Store.CheckIntentRequest: it models only the validation and the values handed to the gateway. The gateway call and its 500 are out. The JavaScript falsiness of non-numeric bodies (NaN, strings) is out: the amount is taken as a number or absent.
- Store.ResetRequestResult: the 500 reply on a mail failure carries "Failed to send reset email" without the mailer's error text appended.
- Store.SearchHalls: `LIKE` is modelled as an ASCII case-insensitive substring test. `%` and `_` typed by the user are taken literally, and the full collation rules (accents, non-ASCII case) are out.
- Store.LoginResult: it requires unique emails, which Register keeps as a store invariant. With duplicate (email, role) rows the route checks only the first row the query returns, and the model does not order rows.
- `=` comparisons are modelled as exact string equality: email, role and token in the user routes, and hall_id, date, time and status = 'approved' in the slot guard and the GROUP_CONCAT `CASE` (Store.SlotTaken, Store.ApprovedFor, Store.CreateResult). Under a case-insensitive collation, values differing only in letter case would also match. For example, a row whose status was set to 'Approved' does not block a new booking in the model, while MySQL with a `_ci` collation would block it.
- The GROUP_CONCAT length limit (`group_concat_max_len`) is out: a truncated column is not modelled.
- The table schema is not part of this model. The status default of a new booking is taken as 'pending', and a new hall as active.
- Store.BookingStore.AddHall: created_at is the `now` parameter.
- Store.NewBooking: the insert names neither created_at nor updated_at. The model sets both to `now`, which assumes the schema defaults them to the current time. The payment route's updated_at is modelled as written.
- Store.ValidTokenEmails: the expiry is compared with `now` to the millisecond. The source stores `Date.now() + 3600000` in a column of unknown fractional-second precision and time zone and compares it with `NOW()`, so the real boundary can move by up to a second or by a time-zone offset.
- String lengths count Unicode scalar values, while JavaScript `.length` counts UTF-16 code units. Case mapping (`toLowerCase`, `toUpperCase`) is ASCII-only.
- `crypto.randomBytes`, `Date.now()` and `setTimeout` are parameters or recorded values. The retry sleeps are recorded in `waits`, and the redirect after a password reset is the `redirectScheduled` flag.
- MyBookings.IsCancelable: the page divides the elapsed milliseconds by 60000 in floating point. The model compares the elapsed milliseconds with 600000, which CancelableInMinutes shows equal over exact arithmetic; rounding of the float division is out.
- localStorage, JSON.parse, window.confirm, window.alert, navigation, scrolling and all rendering are out. The stored user, the saved chat log, the confirmation answer and each server reply are parameters.
- Chat message timestamps are out. A saved chat entry that parses to something other than a message list is out.
- The admin hall form (add, edit, delete, restore buttons and their refetch) is out: it only forwards to the hall routes modelled in Store.
