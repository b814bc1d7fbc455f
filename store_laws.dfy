/** Properties that relate the backend routes to each other: the slot
    guard and what admin approval can do to it, hall soft-delete and
    restore, the `bookedDates` round trip, register/login and the
    reset-token lifecycle. */
module StoreLaws {
  import opened Common
  import SlotCodec
  import opened Store

  // ------------------------------------------------------------ bookings

  /** Creating a booking never breaks the one-approved-booking-per-slot
      rule: the new row is not approved. */
  lemma CreateKeepsOneApprovedPerSlot(bookings: map<nat, Booking>, freshId: nat, req: BookingRequest, now: int)
    requires freshId !in bookings
    requires OneApprovedPerSlot(bookings)
    ensures OneApprovedPerSlot(CreateResult(bookings, freshId, req, now).1)
  {
  }

  /** Approval re-checks nothing: approving a booking whose slot another
      approved booking already holds leaves two approved bookings there. */
  lemma ApprovingTakenSlotDoubleBooks(bookings: map<nat, Booking>, id: nat)
    requires id in bookings && bookings[id].status != "approved"
    requires SlotTaken(bookings, bookings[id].request.hallId, bookings[id].request.date, bookings[id].request.time)
    ensures !OneApprovedPerSlot(StatusResult(bookings, id, "approved").1)
  {
  }

  /** The whole sequence is reachable through the routes: two users book
      the same free slot (both pass the guard, neither is approved yet) and
      the admin approves both. */
  lemma TwoApprovalsForOneSlotReachable(req: BookingRequest, now: int)
    ensures var first := CreateResult(map[], 0, req, now);
      var second := CreateResult(first.1, 1, req, now);
      var approved := StatusResult(StatusResult(second.1, 0, "approved").1, 1, "approved").1;
      && first.0.success && second.0.success
      && !OneApprovedPerSlot(approved)
  {
  }

  /** A refused payment leaves the row as it was; a completed one touches
      only the payment columns of that row, whatever its booking status. */
  lemma PaymentTouchesOnlyPaymentColumns(bookings: map<nat, Booking>, id: nat, intentId: string, lookup: IntentLookup, now: int)
    requires id in bookings
    ensures var after := PaymentResult(bookings, id, intentId, lookup, now).1;
      && after[id].request == bookings[id].request
      && after[id].status == bookings[id].status
      && after[id].createdAt == bookings[id].createdAt
      && (lookup != Retrieved("succeeded") ==> after[id] == bookings[id])
  {
  }

  // --------------------------------------------------------------- halls

  /** Soft delete hides a hall from every public list but keeps it in the
      admin's full list; restoring brings it back, and for a hall that was
      active the pair changes nothing at all. */
  lemma DeleteThenRestore(halls: map<nat, Hall>, id: nat, text: string)
    requires id in halls
    ensures var deleted := SetActive(halls, id, false);
      && id !in ActiveHalls(deleted)
      && id !in SearchHalls(deleted, text).1
      && id in deleted && deleted[id].fields == halls[id].fields
      && ActiveHalls(SetActive(deleted, id, true)) == ActiveHalls(halls)[id := halls[id].(isActive := true)]
      && (halls[id].isActive ==> SetActive(deleted, id, true) == halls)
  {
    var deleted := SetActive(halls, id, false);
    var restored := SetActive(deleted, id, true);
    assert restored == halls[id := halls[id].(isActive := true)];
    var shown := ActiveHalls(halls)[id := halls[id].(isActive := true)];
    assert ActiveHalls(restored).Keys == shown.Keys;
  }

  // ------------------------------------------- halls with booking status

  /** Over a join order without repeats the approved slots hold no
      repeats: their id fields differ. */
  lemma {:induction false} ApprovedSlotsDistinct(bookings: map<nat, Booking>, order: seq<nat>, hallId: nat)
    requires NoRepeats(order)
    ensures NoRepeats(ApprovedSlots(bookings, order, hallId))
    decreases |order|
  {
    if order != [] {
      var tail := order[1..];
      ApprovedSlotsDistinct(bookings, tail, hallId);
      var rest := ApprovedSlots(bookings, tail, hallId);
      if ApprovedFor(bookings, hallId, order[0]) {
        var head := SlotFor(order[0], bookings[order[0]]);
        forall s | s in rest ensures s != head {
          var j :| 0 <= j < |tail| && ApprovedFor(bookings, hallId, tail[j]) && s == SlotFor(tail[j], bookings[tail[j]]);
          assert tail[j] == order[j + 1];
          SlotCodec.DecimalTextInjective(tail[j], order[0]);
        }
        var slots := [head] + rest;
        assert ApprovedSlots(bookings, order, hallId) == slots;
        forall i, j | 0 <= i < j < |slots| ensures slots[i] != slots[j] {
          assert slots[j] == rest[j - 1] && rest[j - 1] in rest;
          if i > 0 {
            assert slots[i] == rest[i - 1];
          }
        }
      } else {
        assert ApprovedSlots(bookings, order, hallId) == rest;
      }
    }
  }

  /** Every approved slot of a hall comes from one of its approved bookings. */
  lemma ApprovedIdAt(bookings: map<nat, Booking>, order: seq<nat>, hallId: nat, k: nat) returns (id: nat)
    requires k < |ApprovedSlots(bookings, order, hallId)|
    ensures ApprovedFor(bookings, hallId, id)
    ensures SlotCodec.Expected(ApprovedSlots(bookings, order, hallId))[k] == BookedDateOf(id, bookings[id])
  {
    var slots := ApprovedSlots(bookings, order, hallId);
    assert slots[k] in slots;
    var j :| 0 <= j < |order| && ApprovedFor(bookings, hallId, order[j]) && slots[k] == SlotFor(order[j], bookings[order[j]]);
    id := order[j];
  }

  /** `dates` lists the approved bookings of the hall, each exactly once:
      every entry is the entry of an approved booking, every approved
      booking has its entry, and no entry repeats. */
  ghost predicate ExactlyApproved(bookings: map<nat, Booking>, hallId: nat, dates: seq<SlotCodec.BookedDate>)
  {
    && (forall k :: 0 <= k < |dates| ==>
          exists id :: ApprovedFor(bookings, hallId, id) && dates[k] == BookedDateOf(id, bookings[id]))
    && (forall id :: ApprovedFor(bookings, hallId, id) ==> BookedDateOf(id, bookings[id]) in dates)
    && NoRepeats(dates)
  }

  /** Every approved booking of the hall has its entry among the expected
      entries of the approved slots. */
  lemma ApprovedDatesListed(bookings: map<nat, Booking>, order: seq<nat>, hallId: nat)
    requires JoinOrder(bookings, order)
    ensures forall id :: ApprovedFor(bookings, hallId, id) ==>
      BookedDateOf(id, bookings[id]) in SlotCodec.Expected(ApprovedSlots(bookings, order, hallId))
  {
    var slots := ApprovedSlots(bookings, order, hallId);
    var dates := SlotCodec.Expected(slots);
    forall id | ApprovedFor(bookings, hallId, id) ensures BookedDateOf(id, bookings[id]) in dates {
      var j :| 0 <= j < |order| && order[j] == id;
      assert SlotFor(id, bookings[id]) in slots;
      var k :| 0 <= k < |slots| && slots[k] == SlotFor(id, bookings[id]);
      assert dates[k] == BookedDateOf(id, bookings[id]);
    }
  }

  /** The expected entries of the approved slots repeat no booking. */
  lemma ApprovedDatesDistinct(bookings: map<nat, Booking>, order: seq<nat>, hallId: nat)
    requires JoinOrder(bookings, order)
    ensures NoRepeats(SlotCodec.Expected(ApprovedSlots(bookings, order, hallId)))
  {
    var slots := ApprovedSlots(bookings, order, hallId);
    var dates := SlotCodec.Expected(slots);
    ApprovedSlotsDistinct(bookings, order, hallId);
    forall k, l | 0 <= k < l < |dates| ensures dates[k] != dates[l] {
      assert slots[k] != slots[l];
    }
  }

  /** The expected entries of the approved slots, over a join order that
      meets every booking once, are the hall's approved bookings, each once. */
  lemma ApprovedSlotsExact(bookings: map<nat, Booking>, order: seq<nat>, hallId: nat)
    requires JoinOrder(bookings, order)
    ensures ExactlyApproved(bookings, hallId, SlotCodec.Expected(ApprovedSlots(bookings, order, hallId)))
  {
    var slots := ApprovedSlots(bookings, order, hallId);
    var dates := SlotCodec.Expected(slots);
    forall k | 0 <= k < |dates|
      ensures exists id :: ApprovedFor(bookings, hallId, id) && dates[k] == BookedDateOf(id, bookings[id])
    {
      var id := ApprovedIdAt(bookings, order, hallId, k);
    }
    ApprovedDatesListed(bookings, order, hallId);
    ApprovedDatesDistinct(bookings, order, hallId);
  }

  /** The approved slots of a hall hold neither separator when the dates
      and times do not. */
  lemma ApprovedSlotsClean(bookings: map<nat, Booking>, order: seq<nat>, hallId: nat)
    requires SeparatorFree(bookings)
    ensures forall i :: 0 <= i < |ApprovedSlots(bookings, order, hallId)| ==>
      SlotCodec.Clean(ApprovedSlots(bookings, order, hallId)[i])
  {
    var slots := ApprovedSlots(bookings, order, hallId);
    forall i | 0 <= i < |slots| ensures SlotCodec.Clean(slots[i]) {
      var id := ApprovedIdAt(bookings, order, hallId, i);
      assert slots[i] == SlotFor(id, bookings[id]);
      var text := SlotCodec.DecimalText(id);
      assert Free(text, ',') && Free(text, '|');
    }
  }

  /** Over a join order that meets every booking once, the `bookedDates`
      of a hall are its approved bookings, each exactly once, as (date,
      time, id text), in join order; pending and rejected bookings and
      other halls' bookings never appear, and a hall without approved
      bookings gets an empty list. */
  lemma BookedDatesOfHall(bookings: map<nat, Booking>, order: seq<nat>, hallId: nat)
    requires SeparatorFree(bookings)
    requires JoinOrder(bookings, order)
    ensures SlotCodec.DecodeSlots(BookedSlotsColumn(bookings, order, hallId)) == SlotCodec.Expected(ApprovedSlots(bookings, order, hallId))
    ensures ExactlyApproved(bookings, hallId, SlotCodec.DecodeSlots(BookedSlotsColumn(bookings, order, hallId)))
    ensures SlotCodec.DecodeSlots(BookedSlotsColumn(bookings, order, hallId)) == [] <==>
      forall id :: !ApprovedFor(bookings, hallId, id)
  {
    var slots := ApprovedSlots(bookings, order, hallId);
    ApprovedSlotsClean(bookings, order, hallId);
    SlotCodec.DecodeGroupConcat(slots);
    ApprovedSlotsExact(bookings, order, hallId);
    var dates := SlotCodec.DecodeSlots(BookedSlotsColumn(bookings, order, hallId));
    if dates != [] {
      var id := ApprovedIdAt(bookings, order, hallId, 0);
    }
  }

  // --------------------------------------------------------------- users

  lemma RegisterKeepsEmailsUnique(users: map<nat, User>, freshId: nat, name: string, email: string, password: string, phone: string)
    requires freshId !in users
    requires EmailsUnique(users)
    ensures EmailsUnique(RegisterResult(users, freshId, name, email, password, phone).1)
  {
  }

  /** Register then log in: the new account logs in on the user path with
      the password as given, and never on the admin path. */
  lemma RegisterThenLogin(users: map<nat, User>, freshId: nat, name: string, email: string, password: string, phone: string)
    requires freshId !in users
    requires EmailsUnique(users)
    requires !EmailTaken(users, email)
    ensures var after := RegisterResult(users, freshId, name, email, password, phone).1;
      && EmailsUnique(after)
      && LoginResult(after, email, password, "user").1 == Some(Public(freshId, after[freshId]))
      && !LoginResult(after, email, password, "admin").0.success
  {
  }

  /** A token issued now verifies now, for the requested email and no
      other, right up to one hour later; at the hour and after it no longer
      does (given that no row held the same token before). */
  lemma IssuedTokenLifetime(users: map<nat, User>, email: string, token: string, now: int, mailSent: bool, later: int)
    requires email != "" && EmailTaken(users, email)
    requires forall id :: id in users ==> users[id].resetToken != Some(token)
    ensures var after := ResetRequestResult(users, email, token, now, mailSent).1;
      && (later < now + ResetTokenLifetime ==> ValidTokenEmails(after, token, later) == {email})
      && (later >= now + ResetTokenLifetime ==> ValidTokenEmails(after, token, later) == {})
  {
    var after := ResetRequestResult(users, email, token, now, mailSent).1;
    var id :| id in users && users[id].email == email;
    if later < now + ResetTokenLifetime {
      assert TokenValid(after[id], token, later);
    }
  }

  /** A successful password update consumes the token: it never verifies
      again, and the account it belonged to logs in with the new password. */
  lemma UpdatedPasswordConsumesToken(users: map<nat, User>, token: string, newPassword: string, now: int, later: int)
    requires EmailsUnique(users)
    requires UpdatePasswordResult(users, token, newPassword, now).0.success
    ensures var after := UpdatePasswordResult(users, token, newPassword, now).1;
      && ValidTokenEmails(after, token, later) == {}
      && EmailsUnique(after)
      && forall id :: id in users && TokenValid(users[id], token, now) ==>
           LoginResult(after, users[id].email, newPassword, users[id].role).0.success
  {
  }
}
