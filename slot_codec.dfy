/** The `booked_slots` column of GET /halls-with-bookings and its decoder.

    The SQL side concatenates every approved booking of a hall as
    `date|time|id` and GROUP_CONCATs those with `,` (NULL when there are
    none); the JavaScript side splits on `,`, skips empty segments and
    destructures each segment split on `|`. */
module SlotCodec {
  import opened Common

  /** String.prototype.split with a one-character separator: always at
      least one part, empty parts kept. */
  function Split(s: string, sep: char): (parts: seq<string>)
    ensures |parts| >= 1
    ensures Join(parts, sep) == s
    decreases |s|
  {
    if s == [] then [""]
    else if s[0] == sep then [""] + Split(s[1..], sep)
    else
      var rest := Split(s[1..], sep);
      [[s[0]] + rest[0]] + rest[1..]
  }

  /** Parts glued with `sep` between neighbours (CONCAT with a literal
      separator, GROUP_CONCAT's default `,`). */
  function Join(parts: seq<string>, sep: char): string
    decreases |parts|
  {
    if parts == [] then ""
    else if |parts| == 1 then parts[0]
    else parts[0] + [sep] + Join(parts[1..], sep)
  }

  /** Decimal text of a booking id, as CONCAT renders an integer column. */
  function DecimalText(n: nat): (s: string)
    ensures |s| >= 1
    ensures forall i :: 0 <= i < |s| ==> '0' <= s[i] <= '9'
  {
    if n < 10 then [('0' as int + n) as char]
    else DecimalText(n / 10) + [('0' as int + n % 10) as char]
  }

  /** Different ids render as different texts. */
  lemma {:induction false} DecimalTextInjective(m: nat, n: nat)
    ensures DecimalText(m) == DecimalText(n) <==> m == n
    decreases m
  {
    var sm, sn := DecimalText(m), DecimalText(n);
    if m >= 10 && n >= 10 {
      var pm, pn := DecimalText(m / 10), DecimalText(n / 10);
      var dm, dn := ('0' as int + m % 10) as char, ('0' as int + n % 10) as char;
      assert sm == pm + [dm] && sn == pn + [dn];
      DecimalTextInjective(m / 10, n / 10);
      if sm == sn {
        assert pm == sm[..|sm| - 1] && pn == sn[..|sn| - 1];
        assert dm == sm[|sm| - 1] && dn == sn[|sn| - 1];
      }
    } else if m >= 10 {
      assert |sm| == |DecimalText(m / 10)| + 1 >= 2;
    } else if n >= 10 {
      assert |sn| == |DecimalText(n / 10)| + 1 >= 2;
    }
  }

  /** One approved booking as the SQL sees it. */
  datatype Slot = Slot(date: string, time: string, bookingId: string)

  /** One element of `bookedDates`: `const [date, time, bookingId] = slot.split('|')`
      leaves `time` and `bookingId` undefined when the segment has too few parts. */
  datatype BookedDate = BookedDate(date: string, time: Option<string>, bookingId: Option<string>)

  /** `CONCAT(b.date, '|', b.time, '|', b.id)`. */
  function EncodeSlot(s: Slot): (e: string)
    ensures e == s.date + ['|'] + s.time + ['|'] + s.bookingId
  {
    var parts := [s.date, s.time, s.bookingId];
    assert parts[1..] == [s.time, s.bookingId] && parts[1..][1..] == [s.bookingId];
    assert Join(parts[1..], '|') == s.time + ['|'] + s.bookingId;
    Join(parts, '|')
  }

  function Encoded(slots: seq<Slot>): (r: seq<string>)
    ensures |r| == |slots|
  {
    seq(|slots|, i requires 0 <= i < |slots| => EncodeSlot(slots[i]))
  }

  lemma EncodedSnoc(slots: seq<Slot>)
    requires slots != []
    ensures Encoded(slots) == Encoded(slots[..|slots| - 1]) + [EncodeSlot(slots[|slots| - 1])]
  {
  }

  /** GROUP_CONCAT: NULL over no rows, otherwise the rows joined by `,`. */
  function GroupConcat(items: seq<string>): (column: Option<string>)
    ensures column.None? <==> items == []
    ensures |items| == 1 ==> column == Some(items[0])
    ensures column.Some? ==> column.value == Join(items, ',')
  {
    if items == [] then None else Some(Join(items, ','))
  }

  /** `slot.split('|')` destructured: a bookingId only comes with a time,
      and a segment without `|` is a date alone. */
  function ParseSlot(segment: string): (d: BookedDate)
    ensures d.bookingId.Some? ==> d.time.Some?
    ensures Free(segment, '|') ==> d == BookedDate(segment, None, None)
  {
    SplitFree(segment, '|');
    var parts := Split(segment, '|');
    BookedDate(parts[0],
               if |parts| > 1 then Some(parts[1]) else None,
               if |parts| > 2 then Some(parts[2]) else None)
  }

  /** The `forEach` over the `,`-segments: empty segments push nothing. */
  function DecodeSegments(segments: seq<string>): (r: seq<BookedDate>)
    ensures |r| <= |segments|
    ensures forall k :: 0 <= k < |r| ==> exists j :: 0 <= j < |segments| && segments[j] != "" && r[k] == ParseSlot(segments[j])
    decreases |segments|
  {
    if segments == [] then []
    else
      var before := DecodeSegments(segments[..|segments| - 1]);
      var last := segments[|segments| - 1];
      if last == "" then before else before + [ParseSlot(last)]
  }

  /** One more segment: pushes its entry unless it is empty. */
  lemma DecodeSegmentsSnoc(segments: seq<string>, last: string)
    ensures DecodeSegments(segments + [last]) ==
      if last == "" then DecodeSegments(segments) else DecodeSegments(segments) + [ParseSlot(last)]
  {
    assert (segments + [last])[..|segments|] == segments;
  }

  /** `bookedDates` for one hall: empty when the column is NULL or empty. */
  function DecodeSlots(bookedSlots: Option<string>): (r: seq<BookedDate>)
    ensures bookedSlots.None? || bookedSlots.value == "" ==> r == []
    ensures bookedSlots.Some? ==> forall k :: 0 <= k < |r| ==>
      exists segment :: segment in Split(bookedSlots.value, ',') && segment != "" && r[k] == ParseSlot(segment)
  {
    if bookedSlots.None? || bookedSlots.value == "" then []
    else DecodeSegments(Split(bookedSlots.value, ','))
  }

  /** The decoder as the route runs it: a loop that pushes one entry per
      non-empty segment. */
  method DecodeBookedSlots(bookedSlots: Option<string>) returns (bookedDates: seq<BookedDate>)
    ensures bookedDates == DecodeSlots(bookedSlots)
  {
    bookedDates := [];
    if bookedSlots.Some? && bookedSlots.value != "" {
      var slots := Split(bookedSlots.value, ',');
      var i := 0;
      while i < |slots|
        invariant 0 <= i <= |slots|
        invariant bookedDates == DecodeSegments(slots[..i])
      {
        var slot := slots[i];
        assert slots[..i + 1] == slots[..i] + [slot];
        DecodeSegmentsSnoc(slots[..i], slot);
        if slot != "" {
          var parts := Split(slot, '|');
          var time := if |parts| > 1 then Some(parts[1]) else None;
          var bookingId := if |parts| > 2 then Some(parts[2]) else None;
          assert BookedDate(parts[0], time, bookingId) == ParseSlot(slot);
          bookedDates := bookedDates + [BookedDate(parts[0], time, bookingId)];
        }
        i := i + 1;
      }
      assert slots[..|slots|] == slots;
    }
  }

  /** What the decoder should give back for a list of approved slots. */
  function Expected(slots: seq<Slot>): (r: seq<BookedDate>)
    ensures |r| == |slots|
  {
    seq(|slots|, i requires 0 <= i < |slots| =>
      BookedDate(slots[i].date, Some(slots[i].time), Some(slots[i].bookingId)))
  }

  lemma ExpectedSnoc(slots: seq<Slot>)
    requires slots != []
    ensures var last := slots[|slots| - 1];
      Expected(slots) == Expected(slots[..|slots| - 1]) + [BookedDate(last.date, Some(last.time), Some(last.bookingId))]
  {
  }

  /** No field holds either separator. */
  predicate Clean(s: Slot)
  {
    Free(s.date, ',') && Free(s.date, '|') &&
    Free(s.time, ',') && Free(s.time, '|') &&
    Free(s.bookingId, ',') && Free(s.bookingId, '|')
  }

  lemma {:induction false} SplitFree(a: string, sep: char)
    ensures Free(a, sep) ==> Split(a, sep) == [a]
    decreases |a|
  {
    if a != [] && Free(a, sep) {
      assert Free(a[1..], sep);
      SplitFree(a[1..], sep);
      assert [a[0]] + a[1..] == a;
    }
  }

  lemma {:induction false} SplitAfterFree(a: string, sep: char, rest: string)
    requires Free(a, sep)
    ensures Split(a + [sep] + rest, sep) == [a] + Split(rest, sep)
    decreases |a|
  {
    var s := a + [sep] + rest;
    if a == [] {
      assert s[0] == sep && s[1..] == rest;
    } else {
      assert s[0] == a[0] && s[1..] == a[1..] + [sep] + rest;
      SplitAfterFree(a[1..], sep, rest);
      assert [a[0]] + a[1..] == a;
    }
  }

  /** Splitting undoes joining when no part holds the separator. */
  lemma {:induction false} SplitJoin(parts: seq<string>, sep: char)
    requires |parts| >= 1
    requires forall i :: 0 <= i < |parts| ==> Free(parts[i], sep)
    ensures Split(Join(parts, sep), sep) == parts
    decreases |parts|
  {
    if |parts| == 1 {
      SplitFree(parts[0], sep);
    } else {
      SplitJoin(parts[1..], sep);
      SplitAfterFree(parts[0], sep, Join(parts[1..], sep));
      assert [parts[0]] + parts[1..] == parts;
    }
  }

  lemma {:induction false} JoinFree(parts: seq<string>, sep: char, c: char)
    requires sep != c
    requires forall i :: 0 <= i < |parts| ==> Free(parts[i], c)
    ensures Free(Join(parts, sep), c)
    decreases |parts|
  {
    if |parts| > 1 {
      JoinFree(parts[1..], sep, c);
    }
  }

  /** A clean slot encodes to a non-empty, comma-free segment that
      decodes to the same three fields. */
  lemma SlotRoundTrip(s: Slot)
    requires Clean(s)
    ensures EncodeSlot(s) != ""
    ensures Free(EncodeSlot(s), ',')
    ensures ParseSlot(EncodeSlot(s)) == BookedDate(s.date, Some(s.time), Some(s.bookingId))
  {
    var parts := [s.date, s.time, s.bookingId];
    SplitJoin(parts, '|');
    JoinFree(parts, '|', ',');
    assert Join(parts, '|') == s.date + ['|'] + Join(parts[1..], '|');
  }

  lemma {:induction false} DecodeEncodedSegments(slots: seq<Slot>)
    requires forall i :: 0 <= i < |slots| ==> Clean(slots[i])
    ensures DecodeSegments(Encoded(slots)) == Expected(slots)
    decreases |slots|
  {
    if slots != [] {
      var n := |slots|;
      var init := slots[..n - 1];
      var last := slots[n - 1];
      calc {
        DecodeSegments(Encoded(slots));
        { EncodedSnoc(slots); }
        DecodeSegments(Encoded(init) + [EncodeSlot(last)]);
        { SlotRoundTrip(last); DecodeSegmentsSnoc(Encoded(init), EncodeSlot(last)); }
        DecodeSegments(Encoded(init)) + [ParseSlot(EncodeSlot(last))];
        { DecodeEncodedSegments(init); SlotRoundTrip(last); }
        Expected(init) + [BookedDate(last.date, Some(last.time), Some(last.bookingId))];
        { ExpectedSnoc(slots); }
        Expected(slots);
      }
    }
  }

  /** Round trip of the whole column: decoding the GROUP_CONCAT of the
      encoded slots yields exactly those slots, in order; no slots gives an
      empty list. */
  lemma DecodeGroupConcat(slots: seq<Slot>)
    requires forall i :: 0 <= i < |slots| ==> Clean(slots[i])
    ensures DecodeSlots(GroupConcat(Encoded(slots))) == Expected(slots)
  {
    if slots != [] {
      var items := Encoded(slots);
      forall i | 0 <= i < |items| ensures Free(items[i], ',') {
        SlotRoundTrip(slots[i]);
      }
      SplitJoin(items, ',');
      SlotRoundTrip(slots[0]);
      assert Join(items, ',') != "" by {
        if |items| > 1 {
          assert Join(items, ',') == items[0] + [','] + Join(items[1..], ',');
        }
      }
      DecodeEncodedSegments(slots);
    }
  }
}
