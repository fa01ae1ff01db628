/**
 * The booking transaction core (backend/bookings/services/booking_service.py):
 * creating a booking with its resource rows, all or nothing; cancelling one;
 * listing a user's bookings. The database is a `BookingStore` object holding
 * the booking table and the resource-row table; the resource tables and the
 * pricing configuration are read-only here.
 */
module BookingService {
  import opened Wrappers
  import opened TimeOfDay
  import opened SeqFacts
  import opened ResourceModels
  import opened PricingModels
  import opened BookingModels
  import opened AvailabilityService
  import opened PricingService

  /** The `ValidationError`s the service raises. */
  datatype BookingError =
    | InvalidInterval
    | PastDate
    | CourtNotFound(courtId: int)
    | CourtUnavailable(courtId: int)
    | EquipmentNotFound(equipmentId: int)
    | EquipmentUnavailable(equipmentId: int, quantity: nat)
    | CoachNotFound(coachId: int)
    | CoachUnavailable(coachId: int)
    | BookingNotFound(bookingId: int)
    | PermissionDenied
    | AlreadyCancelled
    | AlreadyOccurred

  /** The requesting user: its primary key and the staff flag. */
  datatype User = User(id: int, isStaff: bool)

  // ------------------------------------------------------------------
  // Table invariants

  /** The booking table is kept in id order. */
  predicate IdsAscending(bookings: seq<Booking>)
  {
    forall i, j :: 0 <= i < j < |bookings| ==> bookings[i].id < bookings[j].id
  }

  predicate BookingsWellFormed(bookings: seq<Booking>, nextId: int)
  {
    forall k :: 0 <= k < |bookings| ==>
      && 0 < bookings[k].id < nextId
      && ValidStatus(bookings[k].status)
      && bookings[k].totalPrice >= 0.0
  }

  /** Every row belongs to an already issued booking id and carries a known tag. */
  predicate RowsWellFormed(rows: seq<BookingResource>, nextId: int)
  {
    forall k :: 0 <= k < |rows| ==> 0 < rows[k].bookingId < nextId && ValidTag(rows[k].resourceType)
  }

  /** Two CONFIRMED bookings hold the same resource at overlapping times of one date. */
  predicate Clash(a: Booking, b: Booking, rows: seq<BookingResource>, tag: string, resourceId: int)
  {
    && a.status == CONFIRMED && b.status == CONFIRMED
    && a.date == b.date
    && Overlaps(a.startTime, a.endTime, b.startTime, b.endTime)
    && HasRow(rows, a.id, tag, resourceId)
    && HasRow(rows, b.id, tag, resourceId)
  }

  /** No double booking of any resource of kind `tag`. */
  ghost predicate Exclusive(bookings: seq<Booking>, rows: seq<BookingResource>, tag: string)
  {
    forall i, j, rid :: 0 <= i < j < |bookings| ==> !Clash(bookings[i], bookings[j], rows, tag, rid)
  }

  ghost predicate TablesValid(catalog: Catalog, config: PricingConfig, bookings: seq<Booking>, rows: seq<BookingResource>, nextId: int)
  {
    && CatalogValid(catalog)
    && ConfigValid(config)
    && 1 <= nextId
    && IdsAscending(bookings)
    && BookingsWellFormed(bookings, nextId)
    && RowsWellFormed(rows, nextId)
    && Exclusive(bookings, rows, COURT)
    && Exclusive(bookings, rows, COACH)
  }

  /** For every equipment item, date and instant, the covering CONFIRMED quantity fits the stock. */
  ghost predicate WithinCapacity(catalog: Catalog, bookings: seq<Booking>, rows: seq<BookingResource>)
  {
    forall i, d, t :: 0 <= i < |catalog.equipment| ==>
      CoveringQuantity(bookings, rows, catalog.equipment[i].id, d, t) <= catalog.equipment[i].totalQuantity
  }

  // ------------------------------------------------------------------
  // create_booking: what it decides and what it writes

  /** The check of one equipment line against the persisted bookings. */
  function LineError(catalog: Catalog, bookings: seq<Booking>, rows: seq<BookingResource>,
                     date: Date, startTime: Time, endTime: Time, item: EquipmentRequest): Option<BookingError>
  {
    if FindEquipment(catalog.equipment, item.id).None? then Some(EquipmentNotFound(item.id))
    else if !CheckEquipmentAvailability(catalog, bookings, rows, item.id, item.quantity, date, startTime, endTime, None)
    then Some(EquipmentUnavailable(item.id, item.quantity))
    else None
  }

  /** The error of the first failing equipment line, if any. */
  function EquipmentError(catalog: Catalog, bookings: seq<Booking>, rows: seq<BookingResource>,
                          date: Date, startTime: Time, endTime: Time, items: seq<EquipmentRequest>): Option<BookingError>
  {
    if |items| == 0 then None
    else
      var before := EquipmentError(catalog, bookings, rows, date, startTime, endTime, items[..|items| - 1]);
      if before.Some? then before else LineError(catalog, bookings, rows, date, startTime, endTime, items[|items| - 1])
  }

  /**
   * The decision of `create_booking`, checks taken in the order of the code,
   * given the outcome of its equipment loop; None when it succeeds.
   */
  function Decide(catalog: Catalog, bookings: seq<Booking>, rows: seq<BookingResource>,
                  date: Date, startTime: Time, endTime: Time, courtId: int,
                  equipmentError: Option<BookingError>, coachId: Option<int>, today: Date): Option<BookingError>
  {
    if startTime >= endTime then Some(InvalidInterval)
    else if date < today then Some(PastDate)
    else if FindActiveCourt(catalog.courts, courtId).None? then Some(CourtNotFound(courtId))
    else if !CheckCourtAvailability(catalog, bookings, rows, courtId, date, startTime, endTime, None) then Some(CourtUnavailable(courtId))
    else if equipmentError.Some? then equipmentError
    else if Truthy(coachId) && FindActiveCoach(catalog.coaches, coachId.value).None? then Some(CoachNotFound(coachId.value))
    else if Truthy(coachId) && !CheckCoachAvailability(catalog, bookings, rows, coachId.value, date, startTime, endTime, None)
    then Some(CoachUnavailable(coachId.value))
    else None
  }

  /** The error `create_booking` raises, each equipment line checked on its own; None when it succeeds. */
  function CreateError(catalog: Catalog, bookings: seq<Booking>, rows: seq<BookingResource>,
                       date: Date, startTime: Time, endTime: Time, courtId: int,
                       items: seq<EquipmentRequest>, coachId: Option<int>, today: Date): Option<BookingError>
  {
    Decide(catalog, bookings, rows, date, startTime, endTime, courtId,
           EquipmentError(catalog, bookings, rows, date, startTime, endTime, items), coachId, today)
  }

  /** One EQUIPMENT row per requested line, carrying its quantity, in request order. */
  function EquipmentRows(bookingId: int, items: seq<EquipmentRequest>): (r: seq<BookingResource>)
    ensures |r| == |items|
    ensures forall k :: 0 <= k < |r| ==> r[k] == BookingResource(bookingId, EQUIPMENT, items[k].id, items[k].quantity)
  {
    if |items| == 0 then []
    else
      var last := items[|items| - 1];
      EquipmentRows(bookingId, items[..|items| - 1]) + [BookingResource(bookingId, EQUIPMENT, last.id, last.quantity)]
  }

  /** The COACH row, present iff a coach was given. */
  function CoachRows(bookingId: int, coachId: Option<int>): seq<BookingResource>
  {
    if Truthy(coachId) then [BookingResource(bookingId, COACH, coachId.value, 1)] else []
  }

  /** The rows a successful create writes: the court, the equipment lines, the coach. */
  function NewRows(bookingId: int, courtId: int, items: seq<EquipmentRequest>, coachId: Option<int>): seq<BookingResource>
  {
    [BookingResource(bookingId, COURT, courtId, 1)] + EquipmentRows(bookingId, items) + CoachRows(bookingId, coachId)
  }

  /** The booking a successful create inserts. */
  function CreatedBooking(config: PricingConfig, catalog: Catalog, id: int, userId: int, date: Date,
                          startTime: Time, endTime: Time, courtId: int,
                          items: seq<EquipmentRequest>, coachId: Option<int>): Booking
  {
    Booking(id, userId, date, startTime, endTime,
            BookingPrice(config, catalog, date, startTime, endTime, courtId, items, coachId), CONFIRMED)
  }

  /** The equipment ids of a request, in order. */
  function RequestIds(items: seq<EquipmentRequest>): (ids: seq<int>)
    ensures |ids| == |items|
    ensures forall k :: 0 <= k < |items| ==> ids[k] == items[k].id
  {
    seq(|items|, k requires 0 <= k < |items| => items[k].id)
  }

  /** The total quantity a request asks for of one equipment item, over all its lines. */
  function RequestedQuantity(items: seq<EquipmentRequest>, equipmentId: int): nat
  {
    if |items| == 0 then 0
    else
      RequestedQuantity(items[..|items| - 1], equipmentId)
        + (if items[|items| - 1].id == equipmentId then items[|items| - 1].quantity else 0)
  }

  // ------------------------------------------------------------------
  // Facts about the decision

  /** The first failing line wins: the check of a longer list keeps an earlier error. */
  lemma {:induction false} EquipmentErrorAppend(catalog: Catalog, bookings: seq<Booking>, rows: seq<BookingResource>,
                                                date: Date, startTime: Time, endTime: Time,
                                                a: seq<EquipmentRequest>, b: seq<EquipmentRequest>)
    ensures EquipmentError(catalog, bookings, rows, date, startTime, endTime, a + b)
            == if EquipmentError(catalog, bookings, rows, date, startTime, endTime, a).Some?
               then EquipmentError(catalog, bookings, rows, date, startTime, endTime, a)
               else EquipmentError(catalog, bookings, rows, date, startTime, endTime, b)
  {
    if |b| == 0 {
      assert a + b == a;
    } else {
      var ab := a + b;
      assert ab[..|ab| - 1] == a + b[..|b| - 1];
      EquipmentErrorAppend(catalog, bookings, rows, date, startTime, endTime, a, b[..|b| - 1]);
    }
  }

  /** The equipment check passes iff every line passes on its own. */
  lemma {:induction false} EquipmentErrorNone(catalog: Catalog, bookings: seq<Booking>, rows: seq<BookingResource>,
                                              date: Date, startTime: Time, endTime: Time, items: seq<EquipmentRequest>)
    ensures EquipmentError(catalog, bookings, rows, date, startTime, endTime, items).None?
            <==> forall k :: 0 <= k < |items| ==> LineError(catalog, bookings, rows, date, startTime, endTime, items[k]).None?
  {
    if |items| > 0 {
      var init := items[..|items| - 1];
      EquipmentErrorNone(catalog, bookings, rows, date, startTime, endTime, init);
      assert forall k :: 0 <= k < |init| ==> init[k] == items[k];
    }
  }

  /** An accepted request has passed every check the code makes outside the equipment loop. */
  lemma DecidePassedChecks(catalog: Catalog, bookings: seq<Booking>, rows: seq<BookingResource>,
                           date: Date, startTime: Time, endTime: Time, courtId: int,
                           equipmentError: Option<BookingError>, coachId: Option<int>, today: Date)
    requires Decide(catalog, bookings, rows, date, startTime, endTime, courtId, equipmentError, coachId, today).None?
    ensures startTime < endTime && today <= date && equipmentError.None?
    ensures CheckCourtAvailability(catalog, bookings, rows, courtId, date, startTime, endTime, None)
    ensures Truthy(coachId) ==> CheckCoachAvailability(catalog, bookings, rows, coachId.value, date, startTime, endTime, None)
  {
  }

  /** A successful create has passed every availability check the code makes. */
  lemma CreateSucceededChecks(catalog: Catalog, bookings: seq<Booking>, rows: seq<BookingResource>,
                              date: Date, startTime: Time, endTime: Time, courtId: int,
                              items: seq<EquipmentRequest>, coachId: Option<int>, today: Date)
    requires CreateError(catalog, bookings, rows, date, startTime, endTime, courtId, items, coachId, today).None?
    ensures startTime < endTime && today <= date
    ensures CheckCourtAvailability(catalog, bookings, rows, courtId, date, startTime, endTime, None)
    ensures forall k :: 0 <= k < |items| ==>
      CheckEquipmentAvailability(catalog, bookings, rows, items[k].id, items[k].quantity, date, startTime, endTime, None)
    ensures Truthy(coachId) ==> CheckCoachAvailability(catalog, bookings, rows, coachId.value, date, startTime, endTime, None)
  {
    EquipmentErrorNone(catalog, bookings, rows, date, startTime, endTime, items);
  }

  /** With no request line for an item, the request asks for none of it. */
  lemma {:induction false} RequestedQuantityAbsent(items: seq<EquipmentRequest>, equipmentId: int)
    requires forall k :: 0 <= k < |items| ==> items[k].id != equipmentId
    ensures RequestedQuantity(items, equipmentId) == 0
  {
    if |items| > 0 {
      RequestedQuantityAbsent(items[..|items| - 1], equipmentId);
    }
  }

  /** Only items named by some line are requested. */
  lemma {:induction false} RequestedQuantityNamed(items: seq<EquipmentRequest>, equipmentId: int)
    requires RequestedQuantity(items, equipmentId) > 0
    ensures exists k :: 0 <= k < |items| && items[k].id == equipmentId
  {
    var init := items[..|items| - 1];
    if items[|items| - 1].id != equipmentId {
      RequestedQuantityNamed(init, equipmentId);
      var k :| 0 <= k < |init| && init[k].id == equipmentId;
      assert items[k] == init[k];
    }
  }

  /** With distinct ids, the requested total of an item is the quantity of its only line. */
  lemma {:induction false} RequestedQuantityDistinct(items: seq<EquipmentRequest>, k: int)
    requires Distinct(RequestIds(items)) && 0 <= k < |items|
    ensures RequestedQuantity(items, items[k].id) == items[k].quantity
  {
    var init := items[..|items| - 1];
    var ids := RequestIds(items);
    assert RequestIds(init) == ids[..|items| - 1];
    assert Distinct(RequestIds(init));
    if k == |items| - 1 {
      forall j | 0 <= j < |init| ensures init[j].id != items[k].id {
        assert ids[j] != ids[k];
      }
      RequestedQuantityAbsent(init, items[k].id);
    } else {
      assert ids[k] != ids[|items| - 1];
      assert init[k] == items[k];
      RequestedQuantityDistinct(init, k);
    }
  }

  // ------------------------------------------------------------------
  // Facts about the rows written

  lemma NewRowsOwner(bookingId: int, courtId: int, items: seq<EquipmentRequest>, coachId: Option<int>)
    ensures forall k :: 0 <= k < |NewRows(bookingId, courtId, items, coachId)| ==>
      NewRows(bookingId, courtId, items, coachId)[k].bookingId == bookingId
      && ValidTag(NewRows(bookingId, courtId, items, coachId)[k].resourceType)
  {
    var x := NewRows(bookingId, courtId, items, coachId);
    var e := EquipmentRows(bookingId, items);
    forall k | 0 <= k < |x| ensures x[k].bookingId == bookingId && ValidTag(x[k].resourceType) {
      if 1 <= k < 1 + |e| {
        assert x[k] == e[k - 1];
      }
    }
  }

  lemma TagsDiffer()
    ensures COURT != EQUIPMENT && COURT != COACH && EQUIPMENT != COACH
  {
    assert COURT[0] != EQUIPMENT[0];
    assert COURT[2] != COACH[2];
    assert EQUIPMENT[0] != COACH[0];
  }

  /** The only court the new booking holds is the requested one. */
  lemma NewRowsCourt(bookingId: int, courtId: int, items: seq<EquipmentRequest>, coachId: Option<int>, rid: int)
    requires HasRow(NewRows(bookingId, courtId, items, coachId), bookingId, COURT, rid)
    ensures rid == courtId
  {
    TagsDiffer();
    var x := NewRows(bookingId, courtId, items, coachId);
    var m := RowsFor(x, bookingId, COURT, rid);
    assert m[0] in m;
    var k :| 0 <= k < |x| && x[k] == m[0];
  }

  /** The only coach the new booking holds is the requested one, and only when one was given. */
  lemma NewRowsCoach(bookingId: int, courtId: int, items: seq<EquipmentRequest>, coachId: Option<int>, rid: int)
    requires HasRow(NewRows(bookingId, courtId, items, coachId), bookingId, COACH, rid)
    ensures Truthy(coachId) && rid == coachId.value
  {
    TagsDiffer();
    var x := NewRows(bookingId, courtId, items, coachId);
    var m := RowsFor(x, bookingId, COACH, rid);
    assert m[0] in m;
    var k :| 0 <= k < |x| && x[k] == m[0];
  }

  lemma {:induction false} EquipmentRowsHeld(bookingId: int, items: seq<EquipmentRequest>, equipmentId: int)
    ensures HeldQuantity(EquipmentRows(bookingId, items), bookingId, EQUIPMENT, equipmentId) == RequestedQuantity(items, equipmentId)
  {
    if |items| > 0 {
      var init := items[..|items| - 1];
      var last := items[|items| - 1];
      EquipmentRowsHeld(bookingId, init, equipmentId);
      var rs := EquipmentRows(bookingId, items);
      assert rs[..|rs| - 1] == EquipmentRows(bookingId, init);
      var before := RowsFor(EquipmentRows(bookingId, init), bookingId, EQUIPMENT, equipmentId);
      var addition := if last.id == equipmentId then [BookingResource(bookingId, EQUIPMENT, last.id, last.quantity)] else [];
      TotalQuantityAppend(before, addition);
      if last.id == equipmentId {
        assert addition[..0] == [];
      }
    }
  }

  lemma {:induction false} NoMatchingRows(rows: seq<BookingResource>, bookingId: int, tag: string, resourceId: int)
    requires forall k :: 0 <= k < |rows| ==> !RowMatches(rows[k], bookingId, tag, resourceId)
    ensures RowsFor(rows, bookingId, tag, resourceId) == []
  {
    if |rows| > 0 {
      NoMatchingRows(rows[..|rows| - 1], bookingId, tag, resourceId);
    }
  }

  /** The quantity of an item the new booking holds is the total the request asked for. */
  lemma NewRowsHeld(bookingId: int, courtId: int, items: seq<EquipmentRequest>, coachId: Option<int>, equipmentId: int)
    ensures HeldQuantity(NewRows(bookingId, courtId, items, coachId), bookingId, EQUIPMENT, equipmentId)
            == RequestedQuantity(items, equipmentId)
  {
    TagsDiffer();
    var court := [BookingResource(bookingId, COURT, courtId, 1)];
    var e := EquipmentRows(bookingId, items);
    var c := CoachRows(bookingId, coachId);
    RowsForAppend(court + e, c, bookingId, EQUIPMENT, equipmentId);
    RowsForAppend(court, e, bookingId, EQUIPMENT, equipmentId);
    NoMatchingRows(court, bookingId, EQUIPMENT, equipmentId);
    NoMatchingRows(c, bookingId, EQUIPMENT, equipmentId);
    assert court + e + c == NewRows(bookingId, courtId, items, coachId);
    assert RowsFor(court + e, bookingId, EQUIPMENT, equipmentId) == RowsFor(e, bookingId, EQUIPMENT, equipmentId);
    assert RowsFor(court + e + c, bookingId, EQUIPMENT, equipmentId) == RowsFor(e, bookingId, EQUIPMENT, equipmentId);
    EquipmentRowsHeld(bookingId, items, equipmentId);
  }

  // ------------------------------------------------------------------
  // Invariants kept by appending a booking with its rows

  /** Rows of a booking id not in the table change nothing the table's bookings cover. */
  lemma {:induction false} CoveringRowsExtended(bookings: seq<Booking>, rows: seq<BookingResource>, extra: seq<BookingResource>,
                                                newId: int, equipmentId: int, d: Date, t: int)
    requires forall k :: 0 <= k < |extra| ==> extra[k].bookingId == newId
    requires forall j :: 0 <= j < |bookings| ==> bookings[j].id != newId
    ensures CoveringQuantity(bookings, rows + extra, equipmentId, d, t) == CoveringQuantity(bookings, rows, equipmentId, d, t)
  {
    if |bookings| > 0 {
      var init := bookings[..|bookings| - 1];
      var b := bookings[|bookings| - 1];
      CoveringRowsExtended(init, rows, extra, newId, equipmentId, d, t);
      RowsForOtherBooking(rows, extra, b.id, EQUIPMENT, equipmentId);
    }
  }

  /** What an appended booking adds to the covering quantity of one item at one instant. */
  lemma AppendCovering(bookings: seq<Booking>, rows: seq<BookingResource>, b: Booking, extra: seq<BookingResource>,
                       equipmentId: int, d: Date, t: int)
    requires forall k :: 0 <= k < |extra| ==> extra[k].bookingId == b.id
    requires forall k :: 0 <= k < |rows| ==> rows[k].bookingId != b.id
    requires forall j :: 0 <= j < |bookings| ==> bookings[j].id != b.id
    ensures CoveringQuantity(bookings + [b], rows + extra, equipmentId, d, t)
            == CoveringQuantity(bookings, rows, equipmentId, d, t)
               + (if b.status == CONFIRMED && b.date == d && Covers(b.startTime, b.endTime, t)
                  then HeldQuantity(extra, b.id, EQUIPMENT, equipmentId) else 0)
  {
    var all := bookings + [b];
    assert all[..|all| - 1] == bookings;
    CoveringRowsExtended(bookings, rows, extra, b.id, equipmentId, d, t);
    RowsForAppend(rows, extra, b.id, EQUIPMENT, equipmentId);
    NoRowsForOtherBooking(rows, b.id, EQUIPMENT, equipmentId);
    assert RowsFor(rows + extra, b.id, EQUIPMENT, equipmentId) == RowsFor(extra, b.id, EQUIPMENT, equipmentId);
    assert HeldQuantity(rows + extra, b.id, EQUIPMENT, equipmentId) == HeldQuantity(extra, b.id, EQUIPMENT, equipmentId);
    assert CoveringQuantity(all, rows + extra, equipmentId, d, t)
           == CoveringQuantity(bookings, rows + extra, equipmentId, d, t)
              + (if b.status == CONFIRMED && b.date == d && Covers(b.startTime, b.endTime, t)
                 then HeldQuantity(rows + extra, b.id, EQUIPMENT, equipmentId) else 0);
  }

  /**
   * Appending a booking keeps the capacity bound when, for every item it
   * holds, what it holds plus what the overlap query counts fits the stock.
   */
  lemma AppendPreservesCapacity(catalog: Catalog, bookings: seq<Booking>, rows: seq<BookingResource>,
                                b: Booking, extra: seq<BookingResource>)
    requires WithinCapacity(catalog, bookings, rows)
    requires forall k :: 0 <= k < |extra| ==> extra[k].bookingId == b.id
    requires forall k :: 0 <= k < |rows| ==> rows[k].bookingId != b.id
    requires forall j :: 0 <= j < |bookings| ==> bookings[j].id != b.id
    requires forall i :: 0 <= i < |catalog.equipment| && HeldQuantity(extra, b.id, EQUIPMENT, catalog.equipment[i].id) > 0 ==>
      BookedQuantity(bookings, rows, catalog.equipment[i].id, b.date, b.startTime, b.endTime, None)
      + HeldQuantity(extra, b.id, EQUIPMENT, catalog.equipment[i].id) <= catalog.equipment[i].totalQuantity
    ensures WithinCapacity(catalog, bookings + [b], rows + extra)
  {
    forall i, d, t | 0 <= i < |catalog.equipment|
      ensures CoveringQuantity(bookings + [b], rows + extra, catalog.equipment[i].id, d, t) <= catalog.equipment[i].totalQuantity
    {
      var eid := catalog.equipment[i].id;
      AppendCovering(bookings, rows, b, extra, eid, d, t);
      if b.status == CONFIRMED && b.date == d && Covers(b.startTime, b.endTime, t) && HeldQuantity(extra, b.id, EQUIPMENT, eid) > 0 {
        CoveringAtMostBooked(bookings, rows, eid, d, b.startTime, b.endTime, t);
      } else {
        assert CoveringQuantity(bookings, rows, eid, d, t) <= catalog.equipment[i].totalQuantity;
      }
    }
  }

  /** Appending a booking keeps exclusivity when nothing blocks any resource of that kind it holds. */
  lemma AppendPreservesExclusive(bookings: seq<Booking>, rows: seq<BookingResource>, b: Booking,
                                 extra: seq<BookingResource>, tag: string)
    requires Exclusive(bookings, rows, tag)
    requires forall k :: 0 <= k < |extra| ==> extra[k].bookingId == b.id
    requires forall k :: 0 <= k < |rows| ==> rows[k].bookingId != b.id
    requires forall j :: 0 <= j < |bookings| ==> bookings[j].id != b.id
    requires forall rid :: HasRow(extra, b.id, tag, rid) ==>
      NoBlockingBooking(bookings, rows, tag, rid, b.date, b.startTime, b.endTime, None)
    ensures Exclusive(bookings + [b], rows + extra, tag)
  {
    var all := bookings + [b];
    forall i, j, rid | 0 <= i < j < |all| ensures !Clash(all[i], all[j], rows + extra, tag, rid) {
      assert all[i] == bookings[i];
      RowsForOtherBooking(rows, extra, all[i].id, tag, rid);
      if j < |bookings| {
        assert all[j] == bookings[j];
        RowsForOtherBooking(rows, extra, all[j].id, tag, rid);
        assert !Clash(bookings[i], bookings[j], rows, tag, rid);
      } else {
        RowsForAppend(rows, extra, b.id, tag, rid);
        NoRowsForOtherBooking(rows, b.id, tag, rid);
        if HasRow(extra, b.id, tag, rid) {
          assert !Blocks(bookings[i], rows, tag, rid, b.date, b.startTime, b.endTime, None);
        }
      }
    }
  }

  /** Appending the next id with its own rows keeps the id order and the well-formedness of both tables. */
  lemma AppendPreservesWellFormed(bookings: seq<Booking>, rows: seq<BookingResource>, b: Booking,
                                  extra: seq<BookingResource>, nextId: int)
    requires IdsAscending(bookings) && BookingsWellFormed(bookings, nextId) && RowsWellFormed(rows, nextId)
    requires b.id == nextId && 0 < nextId && ValidStatus(b.status) && b.totalPrice >= 0.0
    requires forall k :: 0 <= k < |extra| ==> extra[k].bookingId == nextId && ValidTag(extra[k].resourceType)
    ensures IdsAscending(bookings + [b])
    ensures BookingsWellFormed(bookings + [b], nextId + 1)
    ensures RowsWellFormed(rows + extra, nextId + 1)
  {
  }

  /** A successful create keeps every table invariant, among them no double booking of a court or a coach. */
  lemma CreatePreservesValid(catalog: Catalog, config: PricingConfig, bookings: seq<Booking>, rows: seq<BookingResource>,
                             nextId: int, userId: int, date: Date, startTime: Time, endTime: Time, courtId: int,
                             items: seq<EquipmentRequest>, coachId: Option<int>, today: Date)
    requires TablesValid(catalog, config, bookings, rows, nextId)
    requires CreateError(catalog, bookings, rows, date, startTime, endTime, courtId, items, coachId, today).None?
             || CorrectedCreateError(catalog, bookings, rows, date, startTime, endTime, courtId, items, coachId, today).None?
    ensures TablesValid(catalog, config,
                        bookings + [CreatedBooking(config, catalog, nextId, userId, date, startTime, endTime, courtId, items, coachId)],
                        rows + NewRows(nextId, courtId, items, coachId), nextId + 1)
  {
    var b := CreatedBooking(config, catalog, nextId, userId, date, startTime, endTime, courtId, items, coachId);
    var x := NewRows(nextId, courtId, items, coachId);
    NewRowsOwner(nextId, courtId, items, coachId);
    if CreateError(catalog, bookings, rows, date, startTime, endTime, courtId, items, coachId, today).None? {
      DecidePassedChecks(catalog, bookings, rows, date, startTime, endTime, courtId,
                         EquipmentError(catalog, bookings, rows, date, startTime, endTime, items), coachId, today);
    } else {
      DecidePassedChecks(catalog, bookings, rows, date, startTime, endTime, courtId,
                         CombinedEquipmentError(catalog, bookings, rows, date, startTime, endTime, items, items), coachId, today);
    }
    BookingPriceNonNegative(config, catalog, date, startTime, endTime, courtId, items, coachId);
    forall rid | HasRow(x, nextId, COURT, rid)
      ensures NoBlockingBooking(bookings, rows, COURT, rid, date, startTime, endTime, None)
    {
      NewRowsCourt(nextId, courtId, items, coachId, rid);
    }
    forall rid | HasRow(x, nextId, COACH, rid)
      ensures NoBlockingBooking(bookings, rows, COACH, rid, date, startTime, endTime, None)
    {
      NewRowsCoach(nextId, courtId, items, coachId, rid);
    }
    AppendPreservesExclusive(bookings, rows, b, x, COURT);
    AppendPreservesExclusive(bookings, rows, b, x, COACH);
    AppendPreservesWellFormed(bookings, rows, b, x, nextId);
  }

  /**
   * A successful create keeps the equipment capacity bound, provided the
   * request names each equipment item at most once.
   */
  lemma CreatePreservesCapacity(catalog: Catalog, config: PricingConfig, bookings: seq<Booking>, rows: seq<BookingResource>,
                                nextId: int, userId: int, date: Date, startTime: Time, endTime: Time, courtId: int,
                                items: seq<EquipmentRequest>, coachId: Option<int>, today: Date)
    requires TablesValid(catalog, config, bookings, rows, nextId) && WithinCapacity(catalog, bookings, rows)
    requires CreateError(catalog, bookings, rows, date, startTime, endTime, courtId, items, coachId, today).None?
    requires Distinct(RequestIds(items))
    ensures WithinCapacity(catalog,
                           bookings + [CreatedBooking(config, catalog, nextId, userId, date, startTime, endTime, courtId, items, coachId)],
                           rows + NewRows(nextId, courtId, items, coachId))
  {
    var b := CreatedBooking(config, catalog, nextId, userId, date, startTime, endTime, courtId, items, coachId);
    var x := NewRows(nextId, courtId, items, coachId);
    NewRowsOwner(nextId, courtId, items, coachId);
    CreateSucceededChecks(catalog, bookings, rows, date, startTime, endTime, courtId, items, coachId, today);
    forall i | 0 <= i < |catalog.equipment| && HeldQuantity(x, nextId, EQUIPMENT, catalog.equipment[i].id) > 0
      ensures BookedQuantity(bookings, rows, catalog.equipment[i].id, date, startTime, endTime, None)
              + HeldQuantity(x, nextId, EQUIPMENT, catalog.equipment[i].id) <= catalog.equipment[i].totalQuantity
    {
      var eid := catalog.equipment[i].id;
      NewRowsHeld(nextId, courtId, items, coachId, eid);
      RequestedQuantityNamed(items, eid);
      var k :| 0 <= k < |items| && items[k].id == eid;
      RequestedQuantityDistinct(items, k);
      FindEquipmentAt(catalog.equipment, i);
    }
    AppendPreservesCapacity(catalog, bookings, rows, b, x);
  }

  // ------------------------------------------------------------------
  // Repeated equipment ids (see the findings in the README)

  /**
   * The line check as evidently intended: a line is checked with the total
   * quantity its item is requested for over all lines of the request.
   */
  function CombinedLineError(catalog: Catalog, bookings: seq<Booking>, rows: seq<BookingResource>,
                             date: Date, startTime: Time, endTime: Time,
                             items: seq<EquipmentRequest>, item: EquipmentRequest): Option<BookingError>
  {
    var quantity := RequestedQuantity(items, item.id);
    if FindEquipment(catalog.equipment, item.id).None? then Some(EquipmentNotFound(item.id))
    else if !CheckEquipmentAvailability(catalog, bookings, rows, item.id, quantity, date, startTime, endTime, None)
    then Some(EquipmentUnavailable(item.id, quantity))
    else None
  }

  /** The first failing line of `lines` under the combined check for the request `items`. */
  function CombinedEquipmentError(catalog: Catalog, bookings: seq<Booking>, rows: seq<BookingResource>,
                                  date: Date, startTime: Time, endTime: Time,
                                  items: seq<EquipmentRequest>, lines: seq<EquipmentRequest>): Option<BookingError>
  {
    if |lines| == 0 then None
    else
      var before := CombinedEquipmentError(catalog, bookings, rows, date, startTime, endTime, items, lines[..|lines| - 1]);
      if before.Some? then before else CombinedLineError(catalog, bookings, rows, date, startTime, endTime, items, lines[|lines| - 1])
  }

  /** The corrected decision: the code's, with the combined equipment check. */
  function CorrectedCreateError(catalog: Catalog, bookings: seq<Booking>, rows: seq<BookingResource>,
                                date: Date, startTime: Time, endTime: Time, courtId: int,
                                items: seq<EquipmentRequest>, coachId: Option<int>, today: Date): Option<BookingError>
  {
    Decide(catalog, bookings, rows, date, startTime, endTime, courtId,
           CombinedEquipmentError(catalog, bookings, rows, date, startTime, endTime, items, items), coachId, today)
  }

  lemma {:induction false} CombinedEquipmentErrorNone(catalog: Catalog, bookings: seq<Booking>, rows: seq<BookingResource>,
                                                      date: Date, startTime: Time, endTime: Time,
                                                      items: seq<EquipmentRequest>, lines: seq<EquipmentRequest>)
    ensures CombinedEquipmentError(catalog, bookings, rows, date, startTime, endTime, items, lines).None?
            <==> forall k :: 0 <= k < |lines| ==>
                   CombinedLineError(catalog, bookings, rows, date, startTime, endTime, items, lines[k]).None?
  {
    if |lines| > 0 {
      var init := lines[..|lines| - 1];
      CombinedEquipmentErrorNone(catalog, bookings, rows, date, startTime, endTime, items, init);
      assert forall k :: 0 <= k < |init| ==> init[k] == lines[k];
    }
  }

  /** When no line repeats an id, each line's total is its own quantity and the two checks agree. */
  lemma {:induction false} CombinedAgreesOnLines(catalog: Catalog, bookings: seq<Booking>, rows: seq<BookingResource>,
                                                 date: Date, startTime: Time, endTime: Time,
                                                 items: seq<EquipmentRequest>, lines: seq<EquipmentRequest>)
    requires forall k :: 0 <= k < |lines| ==> RequestedQuantity(items, lines[k].id) == lines[k].quantity
    ensures CombinedEquipmentError(catalog, bookings, rows, date, startTime, endTime, items, lines)
            == EquipmentError(catalog, bookings, rows, date, startTime, endTime, lines)
  {
    if |lines| > 0 {
      var init := lines[..|lines| - 1];
      CombinedAgreesOnLines(catalog, bookings, rows, date, startTime, endTime, items, init);
    }
  }

  /** On requests with distinct equipment ids the correction changes no decision. */
  lemma CorrectedAgreesWhenDistinct(catalog: Catalog, bookings: seq<Booking>, rows: seq<BookingResource>,
                                    date: Date, startTime: Time, endTime: Time, courtId: int,
                                    items: seq<EquipmentRequest>, coachId: Option<int>, today: Date)
    requires Distinct(RequestIds(items))
    ensures CorrectedCreateError(catalog, bookings, rows, date, startTime, endTime, courtId, items, coachId, today)
            == CreateError(catalog, bookings, rows, date, startTime, endTime, courtId, items, coachId, today)
  {
    forall k | 0 <= k < |items| ensures RequestedQuantity(items, items[k].id) == items[k].quantity {
      RequestedQuantityDistinct(items, k);
    }
    CombinedAgreesOnLines(catalog, bookings, rows, date, startTime, endTime, items, items);
  }

  /** The corrected create keeps the capacity bound for every request, repeated ids included. */
  lemma CorrectedCreatePreservesCapacity(catalog: Catalog, config: PricingConfig, bookings: seq<Booking>,
                                         rows: seq<BookingResource>, nextId: int, userId: int, date: Date,
                                         startTime: Time, endTime: Time, courtId: int,
                                         items: seq<EquipmentRequest>, coachId: Option<int>, today: Date)
    requires TablesValid(catalog, config, bookings, rows, nextId) && WithinCapacity(catalog, bookings, rows)
    requires CorrectedCreateError(catalog, bookings, rows, date, startTime, endTime, courtId, items, coachId, today).None?
    ensures WithinCapacity(catalog,
                           bookings + [CreatedBooking(config, catalog, nextId, userId, date, startTime, endTime, courtId, items, coachId)],
                           rows + NewRows(nextId, courtId, items, coachId))
  {
    var b := CreatedBooking(config, catalog, nextId, userId, date, startTime, endTime, courtId, items, coachId);
    var x := NewRows(nextId, courtId, items, coachId);
    NewRowsOwner(nextId, courtId, items, coachId);
    DecidePassedChecks(catalog, bookings, rows, date, startTime, endTime, courtId,
                       CombinedEquipmentError(catalog, bookings, rows, date, startTime, endTime, items, items), coachId, today);
    CombinedEquipmentErrorNone(catalog, bookings, rows, date, startTime, endTime, items, items);
    forall i | 0 <= i < |catalog.equipment| && HeldQuantity(x, nextId, EQUIPMENT, catalog.equipment[i].id) > 0
      ensures BookedQuantity(bookings, rows, catalog.equipment[i].id, date, startTime, endTime, None)
              + HeldQuantity(x, nextId, EQUIPMENT, catalog.equipment[i].id) <= catalog.equipment[i].totalQuantity
    {
      CombinedLineFits(catalog, bookings, rows, nextId, date, startTime, endTime, courtId, items, coachId, i);
    }
    AppendPreservesCapacity(catalog, bookings, rows, b, x);
  }

  /** Under the combined check, what the new booking holds of an item fits beside what is booked. */
  lemma CombinedLineFits(catalog: Catalog, bookings: seq<Booking>, rows: seq<BookingResource>, nextId: int,
                         date: Date, startTime: Time, endTime: Time, courtId: int,
                         items: seq<EquipmentRequest>, coachId: Option<int>, i: int)
    requires CatalogValid(catalog) && 0 <= i < |catalog.equipment|
    requires forall k :: 0 <= k < |items| ==>
               CombinedLineError(catalog, bookings, rows, date, startTime, endTime, items, items[k]).None?
    requires HeldQuantity(NewRows(nextId, courtId, items, coachId), nextId, EQUIPMENT, catalog.equipment[i].id) > 0
    ensures BookedQuantity(bookings, rows, catalog.equipment[i].id, date, startTime, endTime, None)
            + HeldQuantity(NewRows(nextId, courtId, items, coachId), nextId, EQUIPMENT, catalog.equipment[i].id)
            <= catalog.equipment[i].totalQuantity
  {
    var eid := catalog.equipment[i].id;
    NewRowsHeld(nextId, courtId, items, coachId, eid);
    RequestedQuantityNamed(items, eid);
    var k :| 0 <= k < |items| && items[k].id == eid;
    assert CombinedLineError(catalog, bookings, rows, date, startTime, endTime, items, items[k]).None?;
    FindEquipmentAt(catalog.equipment, i);
  }

  /** Two lines for the same racket, each asking for the whole stock of 2. */
  function DuplicateRequest(): seq<EquipmentRequest>
  {
    [EquipmentRequest(1, 2), EquipmentRequest(1, 2)]
  }

  function RacketCatalog(): Catalog
  {
    Catalog([Court(1, "Court 1", INDOOR, true)], [], [Equipment(1, "Racket", 2, 2)], [])
  }

  /** As written, `create_booking` accepts the duplicate request on empty, valid tables. */
  lemma DuplicateLinesAccepted()
    ensures TablesValid(RacketCatalog(), PricingConfig([], []), [], [], 1) && WithinCapacity(RacketCatalog(), [], [])
    ensures CreateError(RacketCatalog(), [], [], 10, At(10, 0, 0), At(11, 0, 0), 1, DuplicateRequest(), None, 10).None?
  {
    var c := RacketCatalog();
    var items := DuplicateRequest();
    var s, e := At(10, 0, 0), At(11, 0, 0);
    assert items[..1][..0] == [];
    assert FindEquipment(c.equipment, 1) == Some(c.equipment[0]);
    assert CheckEquipmentAvailability(c, [], [], 1, 2, 10, s, e, None);
    assert EquipmentError(c, [], [], 10, s, e, items[..1]).None?;
    assert EquipmentError(c, [], [], 10, s, e, items).None?;
  }

  /** The booking the accepted duplicate request writes holds 4 rackets of a stock of 2. */
  lemma DuplicateLinesOverbook()
    ensures !WithinCapacity(RacketCatalog(),
                            [CreatedBooking(PricingConfig([], []), RacketCatalog(), 1, 7, 10, At(10, 0, 0), At(11, 0, 0),
                                            1, DuplicateRequest(), None)],
                            NewRows(1, 1, DuplicateRequest(), None))
  {
    var c := RacketCatalog();
    var items := DuplicateRequest();
    var s, e := At(10, 0, 0), At(11, 0, 0);
    var b := CreatedBooking(PricingConfig([], []), c, 1, 7, 10, s, e, 1, items, None);
    var x := NewRows(1, 1, items, None);
    NewRowsHeld(1, 1, items, None, 1);
    assert [b][..0] == [];
    assert CoveringQuantity([b], x, 1, 10, s) == 4;
  }

  /** The corrected check sums the two lines and refuses the request. */
  lemma DuplicateLinesRefusedWhenCombined()
    ensures CorrectedCreateError(RacketCatalog(), [], [], 10, At(10, 0, 0), At(11, 0, 0), 1, DuplicateRequest(), None, 10)
            == Some(EquipmentUnavailable(1, 4))
  {
    var c := RacketCatalog();
    var items := DuplicateRequest();
    var s, e := At(10, 0, 0), At(11, 0, 0);
    assert items[..1][..0] == [];
    assert FindEquipment(c.equipment, 1) == Some(c.equipment[0]);
    assert !CheckEquipmentAvailability(c, [], [], 1, 4, 10, s, e, None);
    assert RequestedQuantity(items, 1) == 4;
    assert CombinedEquipmentError(c, [], [], 10, s, e, items, items[..1]) == Some(EquipmentUnavailable(1, 4));
  }

  // ------------------------------------------------------------------
  // cancel_booking

  /** `Booking.objects.get(id=...)`: the index of the booking with that id. */
  function FindBookingIndex(bookings: seq<Booking>, bookingId: int): (r: Option<nat>)
    ensures r.Some? ==> r.value < |bookings| && bookings[r.value].id == bookingId
    ensures r.None? <==> forall k :: 0 <= k < |bookings| ==> bookings[k].id != bookingId
  {
    if |bookings| == 0 then None
    else if bookings[|bookings| - 1].id == bookingId then Some(|bookings| - 1)
    else FindBookingIndex(bookings[..|bookings| - 1], bookingId)
  }

  /** The error `cancel_booking` raises, checks in the order of the code; None when it succeeds. */
  function CancelError(bookings: seq<Booking>, bookingId: int, user: User, nowDate: Date, nowTime: Time): Option<BookingError>
  {
    match FindBookingIndex(bookings, bookingId)
    case None => Some(BookingNotFound(bookingId))
    case Some(k) =>
      if bookings[k].userId != user.id && !user.isStaff then Some(PermissionDenied)
      else if bookings[k].status == CANCELLED then Some(AlreadyCancelled)
      else if DateTimeBefore(bookings[k].date, bookings[k].startTime, nowDate, nowTime) then Some(AlreadyOccurred)
      else None
  }

  /** A successful cancel found an upcoming CONFIRMED booking the caller owns or may manage. */
  lemma CancelAccepted(catalog: Catalog, config: PricingConfig, bookings: seq<Booking>, rows: seq<BookingResource>, nextId: int,
                       bookingId: int, user: User, nowDate: Date, nowTime: Time)
    requires TablesValid(catalog, config, bookings, rows, nextId)
    requires CancelError(bookings, bookingId, user, nowDate, nowTime).None?
    ensures exists k :: 0 <= k < |bookings| && bookings[k].id == bookingId
    ensures var k := FindBookingIndex(bookings, bookingId).value;
      && bookings[k].status == CONFIRMED
      && (bookings[k].userId == user.id || user.isStaff)
      && !DateTimeBefore(bookings[k].date, bookings[k].startTime, nowDate, nowTime)
  {
  }

  /** `after` is `before` with some bookings' status set to CANCELLED and nothing else changed. */
  predicate CancelledFrom(before: seq<Booking>, after: seq<Booking>)
  {
    && |after| == |before|
    && forall k :: 0 <= k < |before| ==> after[k] == before[k] || after[k] == before[k].(status := CANCELLED)
  }

  /** The table with booking k's status replaced. */
  function WithStatus(bookings: seq<Booking>, k: nat, status: string): (r: seq<Booking>)
    requires k < |bookings|
    ensures |r| == |bookings| && r[k].status == status
    ensures r[k] == bookings[k].(status := status)
    ensures forall j :: 0 <= j < |bookings| && j != k ==> r[j] == bookings[j]
  {
    bookings[k := bookings[k].(status := status)]
  }

  lemma {:induction false} CoveringNotIncreased(before: seq<Booking>, after: seq<Booking>, rows: seq<BookingResource>,
                                                equipmentId: int, d: Date, t: int)
    requires CancelledFrom(before, after)
    ensures CoveringQuantity(after, rows, equipmentId, d, t) <= CoveringQuantity(before, rows, equipmentId, d, t)
  {
    if |before| > 0 {
      var n := |before| - 1;
      assert CancelledFrom(before[..n], after[..n]);
      CoveringNotIncreased(before[..n], after[..n], rows, equipmentId, d, t);
    }
  }

  /** Cancelling bookings keeps every table invariant. */
  lemma CancelledFromPreservesValid(catalog: Catalog, config: PricingConfig, before: seq<Booking>, after: seq<Booking>,
                                    rows: seq<BookingResource>, nextId: int)
    requires TablesValid(catalog, config, before, rows, nextId) && CancelledFrom(before, after)
    ensures TablesValid(catalog, config, after, rows, nextId)
  {
    forall i, j, rid | 0 <= i < j < |after| ensures !Clash(after[i], after[j], rows, COURT, rid) && !Clash(after[i], after[j], rows, COACH, rid) {
      assert !Clash(before[i], before[j], rows, COURT, rid) && !Clash(before[i], before[j], rows, COACH, rid);
    }
  }

  /** Cancelling bookings keeps the capacity bound: it only ever frees equipment. */
  lemma CancelledFromPreservesCapacity(catalog: Catalog, before: seq<Booking>, after: seq<Booking>, rows: seq<BookingResource>)
    requires WithinCapacity(catalog, before, rows) && CancelledFrom(before, after)
    ensures WithinCapacity(catalog, after, rows)
  {
    forall i, d, t | 0 <= i < |catalog.equipment|
      ensures CoveringQuantity(after, rows, catalog.equipment[i].id, d, t) <= catalog.equipment[i].totalQuantity
    {
      CoveringNotIncreased(before, after, rows, catalog.equipment[i].id, d, t);
    }
  }

  /** A cancelled booking blocks nothing, so a court or coach check it alone failed now passes. */
  lemma CancelFreesResource(bookings: seq<Booking>, rows: seq<BookingResource>, k: nat, tag: string, resourceId: int,
                            date: Date, startTime: Time, endTime: Time)
    requires k < |bookings|
    requires forall j :: 0 <= j < |bookings| && j != k ==> !Blocks(bookings[j], rows, tag, resourceId, date, startTime, endTime, None)
    ensures NoBlockingBooking(WithStatus(bookings, k, CANCELLED), rows, tag, resourceId, date, startTime, endTime, None)
  {
    CancelledIsNotConfirmed();
  }

  lemma CancelledIsNotConfirmed()
    ensures CANCELLED != CONFIRMED
  {
    assert CANCELLED[1] != CONFIRMED[1];
  }

  // ------------------------------------------------------------------
  // get_user_bookings

  /** `Booking.objects.filter(user=user)`, then `.filter(status=status)` when the status is non-empty. */
  function BookingsOf(bookings: seq<Booking>, userId: int, status: string): (r: seq<Booking>)
    ensures forall x :: x in r <==> x in bookings && x.userId == userId && (status != "" ==> x.status == status)
  {
    if |bookings| == 0 then []
    else
      var last := bookings[|bookings| - 1];
      BookingsOf(bookings[..|bookings| - 1], userId, status)
        + (if last.userId == userId && (status != "" ==> last.status == status) then [last] else [])
  }

  /** `get_user_bookings`: the user's bookings, optionally of one status, in the default order, newest first. */
  function UserBookings(bookings: seq<Booking>, userId: int, status: string): (r: seq<Booking>)
    ensures NewestFirst(r)
    ensures multiset(r) == multiset(BookingsOf(bookings, userId, status))
    ensures forall x :: x in r <==> x in bookings && x.userId == userId && (status != "" ==> x.status == status)
  {
    var s := BookingsOf(bookings, userId, status);
    var r := OrderNewestFirst(s);
    assert forall x :: x in r <==> x in multiset(r);
    r
  }

  /** Past a passing prefix, the next line decides: its error is the first error, or the prefix grows. */
  lemma EquipmentErrorStep(catalog: Catalog, bookings: seq<Booking>, rows: seq<BookingResource>,
                           date: Date, startTime: Time, endTime: Time, items: seq<EquipmentRequest>, i: int)
    requires 0 <= i < |items|
    requires EquipmentError(catalog, bookings, rows, date, startTime, endTime, items[..i]).None?
    ensures EquipmentError(catalog, bookings, rows, date, startTime, endTime, items[..i + 1])
            == LineError(catalog, bookings, rows, date, startTime, endTime, items[i])
    ensures LineError(catalog, bookings, rows, date, startTime, endTime, items[i]).Some? ==>
              EquipmentError(catalog, bookings, rows, date, startTime, endTime, items)
              == LineError(catalog, bookings, rows, date, startTime, endTime, items[i])
  {
    assert items[..i + 1][..i] == items[..i];
    EquipmentErrorAppend(catalog, bookings, rows, date, startTime, endTime, items[..i + 1], items[i + 1..]);
    assert items[..i + 1] + items[i + 1..] == items;
  }

  /** The equipment loop of `create_booking`: the first failing line, or the accepted lines. */
  method CheckEquipmentLines(catalog: Catalog, bookings: seq<Booking>, rows: seq<BookingResource>,
                             date: Date, startTime: Time, endTime: Time, items: seq<EquipmentRequest>)
    returns (error: Option<BookingError>, equipmentItems: seq<EquipmentRequest>)
    ensures error == EquipmentError(catalog, bookings, rows, date, startTime, endTime, items)
    ensures error.None? ==> equipmentItems == items
  {
    equipmentItems := [];
    var i := 0;
    while i < |items|
      invariant 0 <= i <= |items|
      invariant EquipmentError(catalog, bookings, rows, date, startTime, endTime, items[..i]).None?
      invariant equipmentItems == items[..i]
    {
      var item := items[i];
      EquipmentErrorStep(catalog, bookings, rows, date, startTime, endTime, items, i);
      var equipment := FindEquipment(catalog.equipment, item.id);
      if equipment.None? {
        return Some(EquipmentNotFound(item.id)), [];
      }
      if !CheckEquipmentAvailability(catalog, bookings, rows, item.id, item.quantity, date, startTime, endTime, None) {
        return Some(EquipmentUnavailable(item.id, item.quantity)), [];
      }
      equipmentItems := equipmentItems + [EquipmentRequest(equipment.value.id, item.quantity)];
      i := i + 1;
    }
    assert items[..i] == items;
    error := None;
  }

  // ------------------------------------------------------------------
  // The store

  /** The booking and resource-row tables, with the read-only resource tables and pricing configuration. */
  class BookingStore {
    const catalog: Catalog
    const config: PricingConfig
    var bookings: seq<Booking>
    var resources: seq<BookingResource>
    var nextId: int

    ghost predicate Valid()
      reads this
    {
      TablesValid(catalog, config, bookings, resources, nextId)
    }

    ghost predicate Capacity()
      reads this
    {
      WithinCapacity(catalog, bookings, resources)
    }

    constructor (catalog: Catalog, config: PricingConfig)
      requires CatalogValid(catalog) && ConfigValid(config)
      ensures Valid() && Capacity()
      ensures this.catalog == catalog && this.config == config
      ensures bookings == [] && resources == [] && nextId == 1
    {
      this.catalog := catalog;
      this.config := config;
      bookings := [];
      resources := [];
      nextId := 1;
    }

    /**
     * The validation phase of `create_booking`: the interval and date
     * guards, then court, equipment lines and coach checked against the
     * persisted CONFIRMED bookings. Returns the first error, or the accepted
     * equipment lines. Nothing is written.
     */
    method CheckRequest(date: Date, startTime: Time, endTime: Time, courtId: int,
                        items: seq<EquipmentRequest>, coachId: Option<int>, today: Date)
      returns (error: Option<BookingError>, equipmentItems: seq<EquipmentRequest>)
      ensures error == CreateError(catalog, bookings, resources, date, startTime, endTime, courtId, items, coachId, today)
      ensures error.None? ==> equipmentItems == items
    {
      equipmentItems := [];
      if startTime >= endTime {
        return Some(InvalidInterval), [];
      }
      if date < today {
        return Some(PastDate), [];
      }
      var court := FindActiveCourt(catalog.courts, courtId);
      if court.None? {
        return Some(CourtNotFound(courtId)), [];
      }
      if !CheckCourtAvailability(catalog, bookings, resources, courtId, date, startTime, endTime, None) {
        return Some(CourtUnavailable(courtId)), [];
      }

      error, equipmentItems := CheckEquipmentLines(catalog, bookings, resources, date, startTime, endTime, items);
      if error.Some? {
        return error, [];
      }

      if Truthy(coachId) {
        var coach := FindActiveCoach(catalog.coaches, coachId.value);
        if coach.None? {
          return Some(CoachNotFound(coachId.value)), [];
        }
        if !CheckCoachAvailability(catalog, bookings, resources, coachId.value, date, startTime, endTime, None) {
          return Some(CoachUnavailable(coachId.value)), [];
        }
      }
      error := None;
    }

    /** The write phase of `create_booking`: the booking, then its COURT, EQUIPMENT and COACH rows. */
    method InsertBooking(booking: Booking, courtId: int, equipmentItems: seq<EquipmentRequest>, coachId: Option<int>)
      requires booking.id == nextId
      modifies this`bookings, this`resources, this`nextId
      ensures bookings == old(bookings) + [booking]
      ensures resources == old(resources) + NewRows(booking.id, courtId, equipmentItems, coachId)
      ensures nextId == old(nextId) + 1
    {
      bookings := bookings + [booking];
      var courtRow := BookingResource(booking.id, COURT, courtId, 1);
      resources := resources + [courtRow];
      var j := 0;
      while j < |equipmentItems|
        invariant 0 <= j <= |equipmentItems|
        invariant bookings == old(bookings) + [booking] && nextId == old(nextId)
        invariant resources == old(resources) + [courtRow] + EquipmentRows(booking.id, equipmentItems[..j])
      {
        var line := equipmentItems[j];
        assert equipmentItems[..j + 1][..j] == equipmentItems[..j];
        resources := resources + [BookingResource(booking.id, EQUIPMENT, line.id, line.quantity)];
        j := j + 1;
      }
      assert equipmentItems[..j] == equipmentItems;
      if Truthy(coachId) {
        resources := resources + [BookingResource(booking.id, COACH, coachId.value, 1)];
      }
      nextId := nextId + 1;
    }

    /**
     * `create_booking`: validates the request, then inserts the booking with
     * its rows; on any error nothing is written.
     */
    method CreateBooking(userId: int, date: Date, startTime: Time, endTime: Time, courtId: int,
                         items: seq<EquipmentRequest>, coachId: Option<int>, today: Date)
      returns (r: Result<Booking, BookingError>)
      requires Valid()
      modifies this
      ensures Valid()
      ensures r.Failure? <==> CreateError(catalog, old(bookings), old(resources), date, startTime, endTime,
                                          courtId, items, coachId, today).Some?
      ensures r.Failure? ==>
        && r.error == CreateError(catalog, old(bookings), old(resources), date, startTime, endTime,
                                  courtId, items, coachId, today).value
        && bookings == old(bookings) && resources == old(resources) && nextId == old(nextId)
      ensures r.Success? ==>
        && r.value == CreatedBooking(config, catalog, old(nextId), userId, date, startTime, endTime, courtId, items, coachId)
        && bookings == old(bookings) + [r.value]
        && resources == old(resources) + NewRows(old(nextId), courtId, items, coachId)
        && nextId == old(nextId) + 1
      ensures r.Success? && Distinct(RequestIds(items)) && old(Capacity()) ==> Capacity()
    {
      var error, equipmentItems := CheckRequest(date, startTime, endTime, courtId, items, coachId, today);
      if error.Some? {
        return Failure(error.value);
      }
      ghost var b0, r0 := bookings, resources;

      var breakdown := CalculateBookingPrice(config, catalog, date, startTime, endTime, courtId, equipmentItems, coachId);
      var booking := NewBooking(nextId, userId, date, startTime, endTime, breakdown.totalPrice);
      InsertBooking(booking, courtId, equipmentItems, coachId);

      CreatePreservesValid(catalog, config, b0, r0, booking.id, userId, date, startTime, endTime, courtId, items, coachId, today);
      if Distinct(RequestIds(items)) && WithinCapacity(catalog, b0, r0) {
        CreatePreservesCapacity(catalog, config, b0, r0, booking.id, userId, date, startTime, endTime, courtId, items, coachId, today);
      }
      r := Success(booking);
    }

    /**
     * `cancel_booking`: the guarded CONFIRMED to CANCELLED transition. The
     * clock is the parameter pair (nowDate, nowTime).
     */
    method CancelBooking(bookingId: int, user: User, nowDate: Date, nowTime: Time) returns (r: Outcome<BookingError>)
      requires Valid()
      modifies this`bookings
      ensures Valid()
      ensures r.Fail? <==> CancelError(old(bookings), bookingId, user, nowDate, nowTime).Some?
      ensures r.Fail? ==> r.error == CancelError(old(bookings), bookingId, user, nowDate, nowTime).value && bookings == old(bookings)
      ensures r.Pass? ==>
        && old(bookings)[FindBookingIndex(old(bookings), bookingId).value].status == CONFIRMED
        && bookings == WithStatus(old(bookings), FindBookingIndex(old(bookings), bookingId).value, CANCELLED)
      ensures old(Capacity()) ==> Capacity()
    {
      var found := FindBookingIndex(bookings, bookingId);
      if found.None? {
        return Fail(BookingNotFound(bookingId));
      }
      var k := found.value;
      var booking := bookings[k];
      if booking.userId != user.id && !user.isStaff {
        return Fail(PermissionDenied);
      }
      if booking.status == CANCELLED {
        return Fail(AlreadyCancelled);
      }
      if DateTimeBefore(booking.date, booking.startTime, nowDate, nowTime) {
        return Fail(AlreadyOccurred);
      }
      ghost var before := bookings;
      bookings := bookings[k := booking.(status := CANCELLED)];
      assert CancelledFrom(before, bookings);
      CancelledFromPreservesValid(catalog, config, before, bookings, resources, nextId);
      if WithinCapacity(catalog, before, resources) {
        CancelledFromPreservesCapacity(catalog, before, bookings, resources);
      }
      r := Pass;
    }
  }
}
