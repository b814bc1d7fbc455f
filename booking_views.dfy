/** The booking rows the two booking pages hold in their `bookings` state,
    and the order-preserving `Array.prototype.filter` both pages use. */
module BookingViews {
  import opened Common

  /** The columns of a booking row the page logic looks at. `createdAt` is
      `created_at` as milliseconds; None stands for a missing or
      unparsable value (both make `new Date(...)` useless). */
  datatype BookingView = BookingView(id: int, status: string, paymentStatus: string, createdAt: Option<int>)

  /** `a` is `b` with some elements left out, order kept. */
  predicate SubsequenceOf<T(==)>(a: seq<T>, b: seq<T>)
    decreases |b|
  {
    if a == [] then true
    else if b == [] then false
    else (a[0] == b[0] && SubsequenceOf(a[1..], b[1..])) || SubsequenceOf(a, b[1..])
  }

  lemma {:induction false} SubsequenceOfSelf<T>(s: seq<T>)
    ensures SubsequenceOf(s, s)
    decreases |s|
  {
    if s != [] {
      SubsequenceOfSelf(s[1..]);
    }
  }

  /** `s.filter(keep)`: the elements that pass, in their original order,
      each as often as it occurs in `s`. */
  function Select<T(==,!new)>(s: seq<T>, keep: T -> bool): (r: seq<T>)
    ensures |r| <= |s|
    ensures forall x :: x in r <==> x in s && keep(x)
    ensures forall x :: multiset(r)[x] == if keep(x) then multiset(s)[x] else 0
    ensures SubsequenceOf(r, s)
    decreases |s|
  {
    if s == [] then []
    else
      var rest := Select(s[1..], keep);
      assert s == [s[0]] + s[1..];
      if keep(s[0]) then [s[0]] + rest else rest
  }

  /** `prev.filter(booking => booking.id !== id)`. */
  function WithoutId(bookings: seq<BookingView>, id: int): (r: seq<BookingView>)
    ensures forall b :: b in r ==> b.id != id
    ensures forall b :: b in bookings && b.id != id ==> multiset(r)[b] == multiset(bookings)[b]
    ensures SubsequenceOf(r, bookings)
  {
    Select(bookings, (b: BookingView) => b.id != id)
  }

  /** Removing an id that no row carries changes nothing. */
  lemma {:induction false} WithoutAbsentId(bookings: seq<BookingView>, id: int)
    requires forall b :: b in bookings ==> b.id != id
    ensures WithoutId(bookings, id) == bookings
    decreases |bookings|
  {
    if bookings != [] {
      WithoutAbsentId(bookings[1..], id);
      assert bookings == [bookings[0]] + bookings[1..];
    }
  }
}
