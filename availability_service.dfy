/**
 * The availability engine (backend/resources/services/availability_service.py):
 * whether a court, a coach or a quantity of equipment is free for a half-open
 * interval on a date, judged against the CONFIRMED bookings in the tables.
 */
module AvailabilityService {
  import opened Wrappers
  import opened TimeOfDay
  import opened SeqFacts
  import opened ResourceModels
  import opened BookingModels

  /** `.exclude(id=...)` is applied only when the id is truthy. */
  predicate Excluded(b: Booking, exclude: Option<int>)
  {
    Truthy(exclude) && b.id == exclude.value
  }

  /**
   * The booking is returned by the overlap query for resource (tag, id):
   * same date, CONFIRMED, one of its rows names the resource, its interval
   * overlaps [startTime, endTime), and it is not the excluded booking.
   */
  predicate Blocks(b: Booking, rows: seq<BookingResource>, tag: string, resourceId: int,
                   date: Date, startTime: Time, endTime: Time, exclude: Option<int>)
  {
    && b.date == date
    && b.status == CONFIRMED
    && HasRow(rows, b.id, tag, resourceId)
    && Overlaps(startTime, endTime, b.startTime, b.endTime)
    && !Excluded(b, exclude)
  }

  /** `not overlapping_bookings.exists()`. */
  predicate NoBlockingBooking(bookings: seq<Booking>, rows: seq<BookingResource>, tag: string, resourceId: int,
                              date: Date, startTime: Time, endTime: Time, exclude: Option<int>)
  {
    forall k :: 0 <= k < |bookings| ==> !Blocks(bookings[k], rows, tag, resourceId, date, startTime, endTime, exclude)
  }

  /** `check_court_availability`. */
  function CheckCourtAvailability(catalog: Catalog, bookings: seq<Booking>, rows: seq<BookingResource>,
                                  courtId: int, date: Date, startTime: Time, endTime: Time, exclude: Option<int>): (ok: bool)
    ensures ok <==>
      && (exists i :: 0 <= i < |catalog.courts| && catalog.courts[i].id == courtId && catalog.courts[i].isActive)
      && forall k :: 0 <= k < |bookings| && bookings[k].date == date && bookings[k].status == CONFIRMED
           && HasRow(rows, bookings[k].id, COURT, courtId) && !Excluded(bookings[k], exclude)
           ==> !Overlaps(startTime, endTime, bookings[k].startTime, bookings[k].endTime)
  {
    FindActiveCourt(catalog.courts, courtId).Some?
    && NoBlockingBooking(bookings, rows, COURT, courtId, date, startTime, endTime, exclude)
  }

  /** The coach's availability records for one date. */
  predicate HasScheduleOn(recs: seq<CoachAvailability>, coachId: int, date: Date)
  {
    exists i :: 0 <= i < |recs| && recs[i].coachId == coachId && recs[i].date == date
  }

  /**
   * The schedule test: inside one of that date's records when there are any,
   * otherwise inside the default window 06:00-22:00.
   */
  predicate WithinSchedule(recs: seq<CoachAvailability>, coachId: int, date: Date, startTime: Time, endTime: Time)
  {
    if HasScheduleOn(recs, coachId, date) then
      exists i :: 0 <= i < |recs| && recs[i].coachId == coachId && recs[i].date == date
                  && recs[i].startTime <= startTime && endTime <= recs[i].endTime
    else
      At(6, 0, 0) <= startTime && endTime <= At(22, 0, 0)
  }

  /** `check_coach_availability`. */
  function CheckCoachAvailability(catalog: Catalog, bookings: seq<Booking>, rows: seq<BookingResource>,
                                  coachId: int, date: Date, startTime: Time, endTime: Time, exclude: Option<int>): (ok: bool)
    ensures ok ==> exists i :: 0 <= i < |catalog.coaches| && catalog.coaches[i].id == coachId && catalog.coaches[i].isActive
    ensures ok && !HasScheduleOn(catalog.coachAvailability, coachId, date) ==>
      At(6, 0, 0) <= startTime && endTime <= At(22, 0, 0)
    ensures ok && HasScheduleOn(catalog.coachAvailability, coachId, date) ==>
      exists i :: 0 <= i < |catalog.coachAvailability|
        && catalog.coachAvailability[i].coachId == coachId && catalog.coachAvailability[i].date == date
        && catalog.coachAvailability[i].startTime <= startTime && endTime <= catalog.coachAvailability[i].endTime
    ensures ok ==> (forall k :: 0 <= k < |bookings| && bookings[k].date == date && bookings[k].status == CONFIRMED
                     && HasRow(rows, bookings[k].id, COACH, coachId) && !Excluded(bookings[k], exclude)
                     ==> !Overlaps(startTime, endTime, bookings[k].startTime, bookings[k].endTime))
    ensures !ok ==>
      || FindActiveCoach(catalog.coaches, coachId).None?
      || !WithinSchedule(catalog.coachAvailability, coachId, date, startTime, endTime)
      || exists k :: 0 <= k < |bookings| && Blocks(bookings[k], rows, COACH, coachId, date, startTime, endTime, exclude)
  {
    FindActiveCoach(catalog.coaches, coachId).Some?
    && WithinSchedule(catalog.coachAvailability, coachId, date, startTime, endTime)
    && NoBlockingBooking(bookings, rows, COACH, coachId, date, startTime, endTime, exclude)
  }

  /**
   * `booked_quantity` of `check_equipment_availability`: the join in the query
   * yields a booking once per matching row, and each copy contributes the
   * quantities of all of that booking's matching rows.
   */
  function BookedQuantity(bookings: seq<Booking>, rows: seq<BookingResource>, equipmentId: int,
                          date: Date, startTime: Time, endTime: Time, exclude: Option<int>): nat
  {
    if |bookings| == 0 then 0
    else
      var b := bookings[|bookings| - 1];
      BookedQuantity(bookings[..|bookings| - 1], rows, equipmentId, date, startTime, endTime, exclude)
        + (if Blocks(b, rows, EQUIPMENT, equipmentId, date, startTime, endTime, exclude)
           then |RowsFor(rows, b.id, EQUIPMENT, equipmentId)| * HeldQuantity(rows, b.id, EQUIPMENT, equipmentId)
           else 0)
  }

  /** `check_equipment_availability`. */
  function CheckEquipmentAvailability(catalog: Catalog, bookings: seq<Booking>, rows: seq<BookingResource>,
                                      equipmentId: int, quantity: int, date: Date, startTime: Time, endTime: Time,
                                      exclude: Option<int>): (ok: bool)
    ensures ok <==> (exists i :: 0 <= i < |catalog.equipment| && catalog.equipment[i].id == equipmentId
                      && FindEquipment(catalog.equipment, equipmentId) == Some(catalog.equipment[i])
                      && catalog.equipment[i].availableQuantity >= quantity
                      && catalog.equipment[i].totalQuantity
                         - BookedQuantity(bookings, rows, equipmentId, date, startTime, endTime, exclude) >= quantity)
  {
    match FindEquipment(catalog.equipment, equipmentId)
    case None => false
    case Some(e) =>
      e.availableQuantity >= quantity
      && e.totalQuantity - BookedQuantity(bookings, rows, equipmentId, date, startTime, endTime, exclude) >= quantity
  }

  /**
   * The quantity of one equipment item held, at instant t of a date, by the
   * CONFIRMED bookings whose interval covers t.
   */
  function CoveringQuantity(bookings: seq<Booking>, rows: seq<BookingResource>, equipmentId: int, date: Date, t: int): nat
  {
    if |bookings| == 0 then 0
    else
      var b := bookings[|bookings| - 1];
      CoveringQuantity(bookings[..|bookings| - 1], rows, equipmentId, date, t)
        + (if b.status == CONFIRMED && b.date == date && Covers(b.startTime, b.endTime, t)
           then HeldQuantity(rows, b.id, EQUIPMENT, equipmentId)
           else 0)
  }

  /**
   * What any instant of a query interval holds is at most what the query
   * counts as booked: every covering booking overlaps the interval, and the
   * join only ever counts a booking's quantity once or more.
   */
  lemma {:induction false} CoveringAtMostBooked(bookings: seq<Booking>, rows: seq<BookingResource>, equipmentId: int,
                                                date: Date, startTime: Time, endTime: Time, t: int)
    requires startTime <= t < endTime
    ensures CoveringQuantity(bookings, rows, equipmentId, date, t)
            <= BookedQuantity(bookings, rows, equipmentId, date, startTime, endTime, None)
  {
    if |bookings| > 0 {
      var b := bookings[|bookings| - 1];
      CoveringAtMostBooked(bookings[..|bookings| - 1], rows, equipmentId, date, startTime, endTime, t);
      CoveringBookingAtMostJoined(b, rows, equipmentId, date, startTime, endTime, t);
    }
  }

  lemma AtLeastOnce(copies: nat, quantity: nat)
    requires copies >= 1
    ensures copies * quantity >= quantity
  {
  }

  /** One booking's share of the covering quantity is at most its share of the booked sum. */
  lemma CoveringBookingAtMostJoined(b: Booking, rows: seq<BookingResource>, equipmentId: int,
                                    date: Date, startTime: Time, endTime: Time, t: int)
    requires startTime <= t < endTime
    ensures (if b.status == CONFIRMED && b.date == date && Covers(b.startTime, b.endTime, t)
             then HeldQuantity(rows, b.id, EQUIPMENT, equipmentId) else 0)
            <= (if Blocks(b, rows, EQUIPMENT, equipmentId, date, startTime, endTime, None)
                then |RowsFor(rows, b.id, EQUIPMENT, equipmentId)| * HeldQuantity(rows, b.id, EQUIPMENT, equipmentId)
                else 0)
  {
    if b.status == CONFIRMED && b.date == date && Covers(b.startTime, b.endTime, t) {
      var m := RowsFor(rows, b.id, EQUIPMENT, equipmentId);
      if m != [] {
        assert Overlaps(startTime, endTime, b.startTime, b.endTime);
        AtLeastOnce(|m|, TotalQuantity(m));
      }
    }
  }

  /** Cancelled bookings never block: a CANCELLED booking at the end of the table changes no court, coach or equipment answer. */
  lemma CancelledNeverBlocks(catalog: Catalog, bookings: seq<Booking>, b: Booking, rows: seq<BookingResource>,
                             resourceId: int, date: Date, startTime: Time, endTime: Time, exclude: Option<int>)
    requires b.status == CANCELLED
    ensures CheckCourtAvailability(catalog, bookings + [b], rows, resourceId, date, startTime, endTime, exclude)
            == CheckCourtAvailability(catalog, bookings, rows, resourceId, date, startTime, endTime, exclude)
    ensures CheckCoachAvailability(catalog, bookings + [b], rows, resourceId, date, startTime, endTime, exclude)
            == CheckCoachAvailability(catalog, bookings, rows, resourceId, date, startTime, endTime, exclude)
    ensures BookedQuantity(bookings + [b], rows, resourceId, date, startTime, endTime, exclude)
            == BookedQuantity(bookings, rows, resourceId, date, startTime, endTime, exclude)
  {
    var all := bookings + [b];
    assert all[..|all| - 1] == bookings;
    assert forall k :: 0 <= k < |bookings| ==> all[k] == bookings[k];
  }

  /**
   * Excluding a booking id is the same as querying the table without the
   * bookings carrying that id: for the equipment sum ...
   */
  lemma {:induction false} ExcludedBookedQuantity(bookings: seq<Booking>, rows: seq<BookingResource>,
                                                  equipmentId: int, date: Date, startTime: Time, endTime: Time, x: int)
    requires x != 0
    ensures BookedQuantity(bookings, rows, equipmentId, date, startTime, endTime, Some(x))
            == BookedQuantity(WithoutBooking(bookings, x), rows, equipmentId, date, startTime, endTime, None)
  {
    if |bookings| > 0 {
      var init := bookings[..|bookings| - 1];
      var b := bookings[|bookings| - 1];
      ExcludedBookedQuantity(init, rows, equipmentId, date, startTime, endTime, x);
      var w := WithoutBooking(bookings, x);
      assert bookings[..|bookings| - 1] == init;
      if b.id != x {
        assert w == WithoutBooking(init, x) + [b];
        assert w[..|w| - 1] == WithoutBooking(init, x);
        assert Blocks(b, rows, EQUIPMENT, equipmentId, date, startTime, endTime, Some(x))
               == Blocks(b, rows, EQUIPMENT, equipmentId, date, startTime, endTime, None);
      } else {
        assert w == WithoutBooking(init, x);
      }
    }
  }

  /** ... and for the court and coach conflict test. */
  lemma ExcludedNoBlocking(bookings: seq<Booking>, rows: seq<BookingResource>, tag: string, resourceId: int,
                           date: Date, startTime: Time, endTime: Time, x: int)
    requires x != 0
    ensures NoBlockingBooking(bookings, rows, tag, resourceId, date, startTime, endTime, Some(x))
            <==> NoBlockingBooking(WithoutBooking(bookings, x), rows, tag, resourceId, date, startTime, endTime, None)
  {
    var w := WithoutBooking(bookings, x);
    WithoutBookingMembers(bookings, x);
    if NoBlockingBooking(bookings, rows, tag, resourceId, date, startTime, endTime, Some(x)) {
      forall k | 0 <= k < |w| ensures !Blocks(w[k], rows, tag, resourceId, date, startTime, endTime, None) {
        assert w[k] in w;
      }
    }
    if NoBlockingBooking(w, rows, tag, resourceId, date, startTime, endTime, None) {
      forall k | 0 <= k < |bookings| ensures !Blocks(bookings[k], rows, tag, resourceId, date, startTime, endTime, Some(x)) {
        if bookings[k].id != x {
          assert bookings[k] in w;
        }
      }
    }
  }

  /** The table without the bookings that carry one id. */
  function WithoutBooking(bookings: seq<Booking>, x: int): (r: seq<Booking>)
  {
    if |bookings| == 0 then []
    else
      var b := bookings[|bookings| - 1];
      WithoutBooking(bookings[..|bookings| - 1], x) + (if b.id == x then [] else [b])
  }

  lemma {:induction false} WithoutBookingMembers(bookings: seq<Booking>, x: int)
    ensures forall b :: b in WithoutBooking(bookings, x) <==> b in bookings && b.id != x
  {
    if |bookings| > 0 {
      WithoutBookingMembers(bookings[..|bookings| - 1], x);
      assert bookings == bookings[..|bookings| - 1] + [bookings[|bookings| - 1]];
    }
  }

  /** `get_available_courts`: the active courts passing the check, in the order of `courts`. */
  function AvailableCourts(catalog: Catalog, courts: seq<Court>, bookings: seq<Booking>, rows: seq<BookingResource>,
                           date: Date, startTime: Time, endTime: Time): (r: seq<Court>)
    ensures forall c :: c in r <==> c in courts && c.isActive
                                    && CheckCourtAvailability(catalog, bookings, rows, c.id, date, startTime, endTime, None)
    ensures SortedBy(courts, CourtName) ==> SortedBy(r, CourtName)
  {
    if |courts| == 0 then []
    else
      var init := courts[..|courts| - 1];
      var c := courts[|courts| - 1];
      var r := AvailableCourts(catalog, init, bookings, rows, date, startTime, endTime);
      if c.isActive && CheckCourtAvailability(catalog, bookings, rows, c.id, date, startTime, endTime, None) then
        SortedFilterStep(courts, r, CourtName);
        r + [c]
      else
        r
  }

  /** Walking one court further extends the list by that court exactly when it passes. */
  lemma AvailableCourtsStep(catalog: Catalog, courts: seq<Court>, bookings: seq<Booking>, rows: seq<BookingResource>,
                            date: Date, startTime: Time, endTime: Time, i: int)
    requires 0 <= i < |courts|
    ensures AvailableCourts(catalog, courts[..i + 1], bookings, rows, date, startTime, endTime)
            == AvailableCourts(catalog, courts[..i], bookings, rows, date, startTime, endTime)
               + (if courts[i].isActive && CheckCourtAvailability(catalog, bookings, rows, courts[i].id, date, startTime, endTime, None)
                  then [courts[i]] else [])
  {
    assert courts[..i + 1][..i] == courts[..i];
  }

  method GetAvailableCourts(catalog: Catalog, bookings: seq<Booking>, rows: seq<BookingResource>,
                            date: Date, startTime: Time, endTime: Time) returns (available: seq<Court>)
    ensures available == AvailableCourts(catalog, SortBy(catalog.courts, CourtName), bookings, rows, date, startTime, endTime)
    ensures SortedBy(available, CourtName)
    ensures forall c :: c in available <==>
      (c in catalog.courts && c.isActive && NoBlockingBooking(bookings, rows, COURT, c.id, date, startTime, endTime, None))
  {
    var courts := SortBy(catalog.courts, CourtName);
    available := [];
    var i := 0;
    while i < |courts|
      invariant 0 <= i <= |courts|
      invariant available == AvailableCourts(catalog, courts[..i], bookings, rows, date, startTime, endTime)
    {
      var court := courts[i];
      AvailableCourtsStep(catalog, courts, bookings, rows, date, startTime, endTime, i);
      if court.isActive && CheckCourtAvailability(catalog, bookings, rows, court.id, date, startTime, endTime, None) {
        available := available + [court];
      }
      i := i + 1;
    }
    assert courts[..i] == courts;
    AvailableCourtsAreFree(catalog, bookings, rows, date, startTime, endTime);
  }

  /** A court is offered exactly when it is an active catalog court with no blocking booking. */
  lemma AvailableCourtsAreFree(catalog: Catalog, bookings: seq<Booking>, rows: seq<BookingResource>,
                               date: Date, startTime: Time, endTime: Time)
    ensures forall c :: c in AvailableCourts(catalog, SortBy(catalog.courts, CourtName), bookings, rows, date, startTime, endTime) <==>
      (c in catalog.courts && c.isActive && NoBlockingBooking(bookings, rows, COURT, c.id, date, startTime, endTime, None))
  {
    SortByMembers(catalog.courts, CourtName);
    forall c | c in catalog.courts && c.isActive
      ensures FindActiveCourt(catalog.courts, c.id).Some?
    {
      var j :| 0 <= j < |catalog.courts| && catalog.courts[j] == c;
    }
  }

  /** `get_available_coaches`: the active coaches passing the check, in the order of `coaches`. */
  function AvailableCoaches(catalog: Catalog, coaches: seq<Coach>, bookings: seq<Booking>, rows: seq<BookingResource>,
                            date: Date, startTime: Time, endTime: Time): (r: seq<Coach>)
    ensures forall c :: c in r <==> c in coaches && c.isActive
                                    && CheckCoachAvailability(catalog, bookings, rows, c.id, date, startTime, endTime, None)
    ensures SortedBy(coaches, CoachName) ==> SortedBy(r, CoachName)
  {
    if |coaches| == 0 then []
    else
      var init := coaches[..|coaches| - 1];
      var c := coaches[|coaches| - 1];
      var r := AvailableCoaches(catalog, init, bookings, rows, date, startTime, endTime);
      if c.isActive && CheckCoachAvailability(catalog, bookings, rows, c.id, date, startTime, endTime, None) then
        SortedFilterStep(coaches, r, CoachName);
        r + [c]
      else
        r
  }

  /** Walking one coach further extends the list by that coach exactly when they pass. */
  lemma AvailableCoachesStep(catalog: Catalog, coaches: seq<Coach>, bookings: seq<Booking>, rows: seq<BookingResource>,
                             date: Date, startTime: Time, endTime: Time, i: int)
    requires 0 <= i < |coaches|
    ensures AvailableCoaches(catalog, coaches[..i + 1], bookings, rows, date, startTime, endTime)
            == AvailableCoaches(catalog, coaches[..i], bookings, rows, date, startTime, endTime)
               + (if coaches[i].isActive && CheckCoachAvailability(catalog, bookings, rows, coaches[i].id, date, startTime, endTime, None)
                  then [coaches[i]] else [])
  {
    assert coaches[..i + 1][..i] == coaches[..i];
  }

  method GetAvailableCoaches(catalog: Catalog, bookings: seq<Booking>, rows: seq<BookingResource>,
                             date: Date, startTime: Time, endTime: Time) returns (available: seq<Coach>)
    ensures available == AvailableCoaches(catalog, SortBy(catalog.coaches, CoachName), bookings, rows, date, startTime, endTime)
    ensures SortedBy(available, CoachName)
    ensures forall c :: c in available <==>
      (c in catalog.coaches && c.isActive
       && WithinSchedule(catalog.coachAvailability, c.id, date, startTime, endTime)
       && NoBlockingBooking(bookings, rows, COACH, c.id, date, startTime, endTime, None))
  {
    var coaches := SortBy(catalog.coaches, CoachName);
    available := [];
    var i := 0;
    while i < |coaches|
      invariant 0 <= i <= |coaches|
      invariant available == AvailableCoaches(catalog, coaches[..i], bookings, rows, date, startTime, endTime)
    {
      var coach := coaches[i];
      AvailableCoachesStep(catalog, coaches, bookings, rows, date, startTime, endTime, i);
      if coach.isActive && CheckCoachAvailability(catalog, bookings, rows, coach.id, date, startTime, endTime, None) {
        available := available + [coach];
      }
      i := i + 1;
    }
    assert coaches[..i] == coaches;
    SortByMembers(catalog.coaches, CoachName);
    forall c | c in catalog.coaches && c.isActive
      ensures FindActiveCoach(catalog.coaches, c.id).Some?
    {
      var j :| 0 <= j < |catalog.coaches| && catalog.coaches[j] == c;
    }
  }

  /** One entry of `get_equipment_availability`. */
  datatype EquipmentAvailability = EquipmentAvailability(equipment: Equipment, availableQuantity: int, totalQuantity: nat)

  /**
   * `get_equipment_availability`: one entry per equipment row, in name
   * order, whose available quantity is the total minus what the overlap
   * query counts as booked (not clamped at zero).
   */
  method GetEquipmentAvailability(catalog: Catalog, bookings: seq<Booking>, rows: seq<BookingResource>,
                                  date: Date, startTime: Time, endTime: Time) returns (result: seq<EquipmentAvailability>)
    ensures |result| == |catalog.equipment|
    ensures forall i :: 0 <= i < |result| ==>
      && result[i].equipment == SortBy(catalog.equipment, EquipmentName)[i]
      && result[i].totalQuantity == result[i].equipment.totalQuantity
      && result[i].availableQuantity + BookedQuantity(bookings, rows, result[i].equipment.id, date, startTime, endTime, None)
         == result[i].equipment.totalQuantity
    ensures forall i, j :: 0 <= i < j < |result| ==> StringLe(result[i].equipment.name, result[j].equipment.name)
    ensures forall e :: e in catalog.equipment <==> exists i :: 0 <= i < |result| && result[i].equipment == e
  {
    var items := SortBy(catalog.equipment, EquipmentName);
    assert |items| == |multiset(items)| == |catalog.equipment|;
    result := [];
    var i := 0;
    while i < |items|
      invariant 0 <= i <= |items|
      invariant |result| == i
      invariant forall j :: 0 <= j < i ==>
        && result[j].equipment == items[j]
        && result[j].totalQuantity == items[j].totalQuantity
        && result[j].availableQuantity
           == items[j].totalQuantity - BookedQuantity(bookings, rows, items[j].id, date, startTime, endTime, None)
    {
      var equipment := items[i];
      var booked := BookedQuantity(bookings, rows, equipment.id, date, startTime, endTime, None);
      result := result + [EquipmentAvailability(equipment, equipment.totalQuantity - booked, equipment.totalQuantity)];
      i := i + 1;
    }
    SortByMembers(catalog.equipment, EquipmentName);
    forall e | e in catalog.equipment
      ensures exists i :: 0 <= i < |result| && result[i].equipment == e
    {
      var j :| 0 <= j < |items| && items[j] == e;
      assert result[j].equipment == e;
    }
  }

  // ------------------------------------------------------------------
  // Worked examples

  /** One active coach with no schedule records, so the default 06:00-22:00 window applies. */
  function CoachCatalog(): Catalog
  {
    Catalog([], [Coach(1, "Coach", true)], [], [])
  }

  /** A CONFIRMED 10:00-11:00 booking of coach 1 on day 10. */
  function CoachBooking(): Booking
  {
    Booking(1, 7, 10, At(10, 0, 0), At(11, 0, 0), 500.0, CONFIRMED)
  }

  /**
   * Coach granularity: the coach is free for 10:00-11:00 before the booking,
   * busy for 10:00-11:00 after it, and still free for the back-to-back
   * 11:00-12:00 slot.
   */
  lemma CoachGranularityExample()
    ensures CheckCoachAvailability(CoachCatalog(), [], [], 1, 10, At(10, 0, 0), At(11, 0, 0), None)
    ensures !CheckCoachAvailability(CoachCatalog(), [CoachBooking()], [BookingResource(1, COACH, 1, 1)],
                                    1, 10, At(10, 0, 0), At(11, 0, 0), None)
    ensures CheckCoachAvailability(CoachCatalog(), [CoachBooking()], [BookingResource(1, COACH, 1, 1)],
                                   1, 10, At(11, 0, 0), At(12, 0, 0), None)
  {
    var catalog := CoachCatalog();
    var rows := [BookingResource(1, COACH, 1, 1)];
    assert FindActiveCoach(catalog.coaches, 1) == Some(catalog.coaches[0]);
    assert !HasScheduleOn(catalog.coachAvailability, 1, 10);
    assert rows[..0] == [];
    assert HasRow(rows, 1, COACH, 1);
    var bs := [CoachBooking()];
    assert Blocks(bs[0], rows, COACH, 1, 10, At(10, 0, 0), At(11, 0, 0), None);
    assert !NoBlockingBooking(bs, rows, COACH, 1, 10, At(10, 0, 0), At(11, 0, 0), None);
  }

  /** Two back-to-back bookings of the whole stock of 2 of equipment 1: 10:00-11:00 and 11:00-12:00. */
  function SequentialBookings(): seq<Booking>
  {
    [Booking(1, 7, 10, At(10, 0, 0), At(11, 0, 0), 0.0, CONFIRMED),
     Booking(2, 7, 10, At(11, 0, 0), At(12, 0, 0), 0.0, CONFIRMED)]
  }

  function SequentialRows(): seq<BookingResource>
  {
    [BookingResource(1, EQUIPMENT, 1, 2), BookingResource(2, EQUIPMENT, 1, 2)]
  }

  lemma SequentialHeld()
    ensures HeldQuantity(SequentialRows(), 1, EQUIPMENT, 1) == 2 && |RowsFor(SequentialRows(), 1, EQUIPMENT, 1)| == 1
    ensures HeldQuantity(SequentialRows(), 2, EQUIPMENT, 1) == 2 && |RowsFor(SequentialRows(), 2, EQUIPMENT, 1)| == 1
  {
    var rows := SequentialRows();
    assert rows[..1][..0] == [] && rows[..1] == [rows[0]];
    assert RowsFor(rows, 1, EQUIPMENT, 1) == [rows[0]];
    assert RowsFor(rows, 2, EQUIPMENT, 1) == [rows[1]];
    assert [rows[0]][..0] == [] && [rows[1]][..0] == [];
  }

  /** At no instant do the two sequential bookings hold more than the stock of 2. */
  lemma SequentialCovering(d: Date, t: int)
    ensures CoveringQuantity(SequentialBookings(), SequentialRows(), 1, d, t) <= 2
  {
    var bs := SequentialBookings();
    var rows := SequentialRows();
    SequentialHeld();
    assert bs[..1][..0] == [] && bs[..1] == [bs[0]];
    assert CoveringQuantity(bs[..1], rows, 1, d, t) == if bs[0].date == d && Covers(bs[0].startTime, bs[0].endTime, t) then 2 else 0;
  }

  /** The overlap query for 10:00-12:00 counts both bookings. */
  lemma SequentialBooked()
    ensures BookedQuantity(SequentialBookings(), SequentialRows(), 1, 10, At(10, 0, 0), At(12, 0, 0), None) == 4
  {
    var bs := SequentialBookings();
    var rows := SequentialRows();
    SequentialHeld();
    assert bs[..1][..0] == [] && bs[..1] == [bs[0]];
    assert Blocks(bs[0], rows, EQUIPMENT, 1, 10, At(10, 0, 0), At(12, 0, 0), None);
    assert Blocks(bs[1], rows, EQUIPMENT, 1, 10, At(10, 0, 0), At(12, 0, 0), None);
  }

  /**
   * The overlap query sums bookings that never run at the same time: at no
   * instant are more than 2 of the stock of 2 held, yet for 10:00-12:00 it
   * counts 4 booked, so `get_equipment_availability` reports -2 available
   * and even one more item is refused.
   */
  lemma SequentialBookingsCountedTogether()
    ensures forall d: Date, t: int :: CoveringQuantity(SequentialBookings(), SequentialRows(), 1, d, t) <= 2
    ensures 2 - BookedQuantity(SequentialBookings(), SequentialRows(), 1, 10, At(10, 0, 0), At(12, 0, 0), None) == -2
    ensures !CheckEquipmentAvailability(Catalog([], [], [Equipment(1, "Racket", 2, 2)], []),
                                        SequentialBookings(), SequentialRows(), 1, 1, 10, At(10, 0, 0), At(12, 0, 0), None)
  {
    forall d: Date, t: int ensures CoveringQuantity(SequentialBookings(), SequentialRows(), 1, d, t) <= 2 {
      SequentialCovering(d, t);
    }
    SequentialBooked();
    var e := Equipment(1, "Racket", 2, 2);
    assert FindEquipment([e], 1) == Some(e);
  }
}
