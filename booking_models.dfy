/**
 * Bookings and the resource rows attached to them (backend/bookings/models.py).
 * The booking table and the resource table are plain sequences of rows; a
 * resource row points to its booking by id.
 */
module BookingModels {
  import opened Wrappers
  import opened TimeOfDay
  import opened ResourceModels

  const CONFIRMED := "CONFIRMED"
  const CANCELLED := "CANCELLED"

  const COURT := "COURT"
  const EQUIPMENT := "EQUIPMENT"
  const COACH := "COACH"

  datatype Booking = Booking(
    id: int,
    userId: int,
    date: Date,
    startTime: Time,
    endTime: Time,
    totalPrice: real,
    status: string)

  /** A booking created without a status gets the default one. */
  function NewBooking(id: int, userId: int, date: Date, startTime: Time, endTime: Time, totalPrice: real): (b: Booking)
    ensures b.status == CONFIRMED
    ensures b.id == id && b.userId == userId && b.date == date
    ensures b.startTime == startTime && b.endTime == endTime && b.totalPrice == totalPrice
  {
    Booking(id, userId, date, startTime, endTime, totalPrice, CONFIRMED)
  }

  predicate ValidStatus(s: string)
  {
    s == CONFIRMED || s == CANCELLED
  }

  /**
   * `Booking.clean`: the interval must be non-empty, then the date must not be
   * before today; the first failing check decides the error.
   */
  function CleanBooking(b: Booking, today: Date): (r: Outcome<ValidationError>)
    ensures r.Pass? <==> b.startTime < b.endTime && b.date >= today
    ensures b.startTime >= b.endTime ==> r == Fail(StartNotBeforeEnd)
    ensures b.startTime < b.endTime && b.date < today ==> r == Fail(DateInPast)
  {
    if b.startTime >= b.endTime then Fail(StartNotBeforeEnd)
    else if b.date < today then Fail(DateInPast)
    else Pass
  }

  /** A resource line of a booking; `resourceType` holds the stored tag string. */
  datatype BookingResource = BookingResource(bookingId: int, resourceType: string, resourceId: int, quantity: nat)

  /** A resource line created without a quantity gets the default one. */
  function NewResource(bookingId: int, resourceType: string, resourceId: int): (r: BookingResource)
    ensures r.quantity == 1
    ensures r.bookingId == bookingId && r.resourceType == resourceType && r.resourceId == resourceId
  {
    BookingResource(bookingId, resourceType, resourceId, 1)
  }

  predicate ValidTag(t: string)
  {
    t == COURT || t == EQUIPMENT || t == COACH
  }

  /** The row `get_resource_object` hands back, by kind. */
  datatype ResourceObject = CourtObject(court: Court) | EquipmentObject(equipment: Equipment) | CoachObject(coach: Coach)

  /**
   * `BookingResource.get_resource_object`: the tag picks the table, the id the
   * row; an unknown tag or a missing id gives None.
   */
  function GetResourceObject(r: BookingResource, catalog: Catalog): (o: Option<ResourceObject>)
    ensures !ValidTag(r.resourceType) ==> o.None?
    ensures r.resourceType == COURT ==>
      (o.None? <==> forall i :: 0 <= i < |catalog.courts| ==> catalog.courts[i].id != r.resourceId)
    ensures r.resourceType == EQUIPMENT ==>
      (o.None? <==> forall i :: 0 <= i < |catalog.equipment| ==> catalog.equipment[i].id != r.resourceId)
    ensures r.resourceType == COACH ==>
      (o.None? <==> forall i :: 0 <= i < |catalog.coaches| ==> catalog.coaches[i].id != r.resourceId)
    ensures o.Some? && r.resourceType == COURT ==>
      o.value.CourtObject? && o.value.court in catalog.courts && o.value.court.id == r.resourceId
    ensures o.Some? && r.resourceType == EQUIPMENT ==>
      o.value.EquipmentObject? && o.value.equipment in catalog.equipment && o.value.equipment.id == r.resourceId
    ensures o.Some? && r.resourceType == COACH ==>
      o.value.CoachObject? && o.value.coach in catalog.coaches && o.value.coach.id == r.resourceId
  {
    if r.resourceType == COURT then
      match FindCourt(catalog.courts, r.resourceId)
      case Some(c) => Some(CourtObject(c))
      case None => None
    else if r.resourceType == EQUIPMENT then
      match FindEquipment(catalog.equipment, r.resourceId)
      case Some(e) => Some(EquipmentObject(e))
      case None => None
    else if r.resourceType == COACH then
      match FindCoach(catalog.coaches, r.resourceId)
      case Some(c) => Some(CoachObject(c))
      case None => None
    else None
  }

  predicate RowMatches(r: BookingResource, bookingId: int, tag: string, resourceId: int)
  {
    r.bookingId == bookingId && r.resourceType == tag && r.resourceId == resourceId
  }

  /** `booking.resources.filter(resource_type=tag, resource_id=resourceId)`, in table order. */
  function RowsFor(rows: seq<BookingResource>, bookingId: int, tag: string, resourceId: int): (m: seq<BookingResource>)
    ensures |m| <= |rows|
    ensures forall r :: r in m <==> r in rows && RowMatches(r, bookingId, tag, resourceId)
  {
    if |rows| == 0 then []
    else
      var last := rows[|rows| - 1];
      RowsFor(rows[..|rows| - 1], bookingId, tag, resourceId)
        + (if RowMatches(last, bookingId, tag, resourceId) then [last] else [])
  }

  lemma {:induction false} RowsForAppend(a: seq<BookingResource>, b: seq<BookingResource>, bookingId: int, tag: string, resourceId: int)
    ensures RowsFor(a + b, bookingId, tag, resourceId) == RowsFor(a, bookingId, tag, resourceId) + RowsFor(b, bookingId, tag, resourceId)
  {
    if |b| > 0 {
      var ab := a + b;
      assert ab[..|ab| - 1] == a + b[..|b| - 1];
      RowsForAppend(a, b[..|b| - 1], bookingId, tag, resourceId);
    } else {
      assert a + b == a;
    }
  }

  /** Rows of other bookings do not change what a booking's filter returns. */
  lemma RowsForOtherBooking(rows: seq<BookingResource>, extra: seq<BookingResource>, bookingId: int, tag: string, resourceId: int)
    requires forall k :: 0 <= k < |extra| ==> extra[k].bookingId != bookingId
    ensures RowsFor(rows + extra, bookingId, tag, resourceId) == RowsFor(rows, bookingId, tag, resourceId)
  {
    RowsForAppend(rows, extra, bookingId, tag, resourceId);
    NoRowsForOtherBooking(extra, bookingId, tag, resourceId);
  }

  lemma {:induction false} NoRowsForOtherBooking(rows: seq<BookingResource>, bookingId: int, tag: string, resourceId: int)
    requires forall k :: 0 <= k < |rows| ==> rows[k].bookingId != bookingId
    ensures RowsFor(rows, bookingId, tag, resourceId) == []
  {
    if |rows| > 0 {
      NoRowsForOtherBooking(rows[..|rows| - 1], bookingId, tag, resourceId);
    }
  }

  /** The booking references the resource through at least one row. */
  predicate HasRow(rows: seq<BookingResource>, bookingId: int, tag: string, resourceId: int)
  {
    RowsFor(rows, bookingId, tag, resourceId) != []
  }

  /** The sum of the quantities of some rows. */
  function TotalQuantity(rows: seq<BookingResource>): nat
  {
    if |rows| == 0 then 0 else TotalQuantity(rows[..|rows| - 1]) + rows[|rows| - 1].quantity
  }

  lemma {:induction false} TotalQuantityAppend(a: seq<BookingResource>, b: seq<BookingResource>)
    ensures TotalQuantity(a + b) == TotalQuantity(a) + TotalQuantity(b)
  {
    if |b| > 0 {
      var ab := a + b;
      assert ab[..|ab| - 1] == a + b[..|b| - 1];
      TotalQuantityAppend(a, b[..|b| - 1]);
    } else {
      assert a + b == a;
    }
  }

  /** Quantity a booking holds of one resource. */
  function HeldQuantity(rows: seq<BookingResource>, bookingId: int, tag: string, resourceId: int): nat
  {
    TotalQuantity(RowsFor(rows, bookingId, tag, resourceId))
  }

  /** `booking.resources.all()`, in table order. */
  function ResourcesOf(rows: seq<BookingResource>, bookingId: int): (m: seq<BookingResource>)
    ensures forall r :: r in m <==> r in rows && r.bookingId == bookingId
  {
    if |rows| == 0 then []
    else
      var last := rows[|rows| - 1];
      ResourcesOf(rows[..|rows| - 1], bookingId) + (if last.bookingId == bookingId then [last] else [])
  }

  /** The booking has a COURT row for some court. */
  predicate HasCourtRow(rows: seq<BookingResource>, bookingId: int)
  {
    exists k :: 0 <= k < |rows| && rows[k].bookingId == bookingId && rows[k].resourceType == COURT
  }

  /** The default ordering of bookings: later date first, then later start first. */
  predicate NewerOrSame(a: Booking, b: Booking)
  {
    a.date > b.date || (a.date == b.date && a.startTime >= b.startTime)
  }

  predicate NewestFirst(s: seq<Booking>)
  {
    forall i, j :: 0 <= i < j < |s| ==> NewerOrSame(s[i], s[j])
  }

  /** Putting in front a booking at least as new as all the others keeps the order. */
  lemma ConsNewestFirst(x: Booking, s: seq<Booking>)
    requires NewestFirst(s)
    requires forall y :: y in s ==> NewerOrSame(x, y)
    ensures NewestFirst([x] + s)
  {
    var r := [x] + s;
    forall i, j | 0 <= i < j < |r|
      ensures NewerOrSame(r[i], r[j])
    {
      assert r[j] == s[j - 1];
      if i > 0 {
        assert r[i] == s[i - 1];
      } else {
        assert s[j - 1] in s;
      }
    }
  }

  /** In a newest-first list, the head is at least as new as every element. */
  lemma HeadIsNewest(s: seq<Booking>, x: Booking)
    requires NewestFirst(s) && |s| > 0 && NewerOrSame(x, s[0])
    ensures forall y :: y in s ==> NewerOrSame(x, y)
  {
    forall y | y in s
      ensures NewerOrSame(x, y)
    {
      var k :| 0 <= k < |s| && s[k] == y;
      if k > 0 {
        assert NewerOrSame(s[0], s[k]);
      }
    }
  }

  /** A bound on every element of a list and on `x` bounds every element of a permutation of both. */
  lemma BoundedPermutation(a: Booking, x: Booking, tail: seq<Booking>, rest: seq<Booking>)
    requires multiset(rest) == multiset(tail) + multiset{x}
    requires NewerOrSame(a, x) && forall y :: y in tail ==> NewerOrSame(a, y)
    ensures forall y :: y in rest ==> NewerOrSame(a, y)
  {
    forall y | y in rest
      ensures NewerOrSame(a, y)
    {
      assert y in multiset(rest);
      if y != x {
        assert y in multiset(tail);
      }
    }
  }

  function Insert(x: Booking, s: seq<Booking>): (r: seq<Booking>)
    requires NewestFirst(s)
    ensures NewestFirst(r)
    ensures multiset(r) == multiset(s) + multiset{x}
  {
    if |s| == 0 then [x]
    else if NewerOrSame(x, s[0]) then
      HeadIsNewest(s, x);
      ConsNewestFirst(x, s);
      [x] + s
    else
      var tail := s[1..];
      var rest := Insert(x, tail);
      assert s == [s[0]] + tail;
      HeadIsNewest(s, s[0]);
      BoundedPermutation(s[0], x, tail, rest);
      ConsNewestFirst(s[0], rest);
      [s[0]] + rest
  }

  /** `Meta.ordering = ['-date', '-start_time']`: the bookings reordered (ties follow the table). */
  function OrderNewestFirst(s: seq<Booking>): (r: seq<Booking>)
    ensures NewestFirst(r)
    ensures multiset(r) == multiset(s)
  {
    if |s| == 0 then []
    else
      assert s == [s[0]] + s[1..];
      Insert(s[0], OrderNewestFirst(s[1..]))
  }
}
