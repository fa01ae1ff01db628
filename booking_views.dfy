/**
 * The per-court hourly grid of the booking screen (DailyAvailabilityView.get
 * in backend/bookings/views.py) and the `parse_time` helper of the add-on
 * availability endpoint.
 */
module BookingViews {
  import opened Wrappers
  import opened TimeOfDay
  import opened Numerals
  import opened ResourceModels
  import opened PricingModels
  import opened BookingModels
  import opened PricingService
  import opened BookingService

  /** `range(6, 22 + 1)`: the hours 06 to 22, 17 slots. */
  const FIRST_SLOT_HOUR := 6
  const SLOT_COUNT := 17

  /** One cell of the grid. */
  datatype Slot = Slot(time: Time, isBooked: bool, bookingId: Option<int>, isUserBooking: bool, price: real)

  /** One row of the grid: a court and its slots. */
  datatype CourtSlots = CourtSlots(id: int, name: string, slots: seq<Slot>)

  /** `Court.objects.filter(is_active=True).order_by('id')`; the court table is kept in id order. */
  function ActiveCourts(courts: seq<Court>): seq<Court>
  {
    if |courts| == 0 then []
    else
      var last := courts[|courts| - 1];
      ActiveCourts(courts[..|courts| - 1]) + (if last.isActive then [last] else [])
  }

  /** The filter keeps exactly the active courts, in table order. */
  lemma {:induction false} ActiveCourtsFacts(courts: seq<Court>)
    ensures forall c :: c in ActiveCourts(courts) <==> c in courts && c.isActive
    ensures CourtIdsAscending(courts) ==> CourtIdsAscending(ActiveCourts(courts))
  {
    if |courts| > 0 {
      var last := courts[|courts| - 1];
      var init := courts[..|courts| - 1];
      ActiveCourtsFacts(init);
      assert courts == init + [last];
      if CourtIdsAscending(courts) {
        forall c | c in init
          ensures c.id < last.id
        {
          var k :| 0 <= k < |init| && init[k] == c;
          assert courts[k] == c;
        }
      }
    }
  }

  function CourtIds(courts: seq<Court>): set<int>
  {
    set c | c in courts :: c.id
  }

  /** The slot starting `h` hours after 06:00. */
  function SlotTime(h: int): (t: Time)
    requires 0 <= h < SLOT_COUNT
    ensures t == 21600 + 3600 * h
  {
    At(FIRST_SLOT_HOUR + h, 0, 0)
  }

  /** `(datetime.combine(date, t) + timedelta(hours=1)).time()`: one hour later, modulo a day. */
  function SlotEnd(t: Time): (e: Time)
    ensures t < 82800 ==> e == t + 3600
    ensures t >= 82800 ==> e == t + 3600 - 86400
  {
    (t + 3600) % 86400
  }

  // The booking query of the view.

  function ConfirmedOn(bookings: seq<Booking>, date: Date): (r: seq<Booking>)
    ensures forall b :: b in r <==> b in bookings && b.date == date && b.status == CONFIRMED
  {
    if |bookings| == 0 then []
    else
      var last := bookings[|bookings| - 1];
      ConfirmedOn(bookings[..|bookings| - 1], date) + (if last.date == date && last.status == CONFIRMED then [last] else [])
  }

  /** Number of COURT rows of a booking: how often the COURT join yields it. */
  function CourtRowCount(rows: seq<BookingResource>, bookingId: int): (n: nat)
    ensures n > 0 <==> HasCourtRow(rows, bookingId)
  {
    if |rows| == 0 then 0
    else
      var init := rows[..|rows| - 1];
      var last := rows[|rows| - 1];
      var n := CourtRowCount(init, bookingId) + (if last.bookingId == bookingId && last.resourceType == COURT then 1 else 0);
      assert HasCourtRow(init, bookingId) ==> HasCourtRow(rows, bookingId) by {
        if HasCourtRow(init, bookingId) {
          var k :| 0 <= k < |init| && init[k].bookingId == bookingId && init[k].resourceType == COURT;
          assert rows[k] == init[k];
        }
      }
      assert HasCourtRow(rows, bookingId) ==> HasCourtRow(init, bookingId) || (last.bookingId == bookingId && last.resourceType == COURT) by {
        if HasCourtRow(rows, bookingId) {
          var k :| 0 <= k < |rows| && rows[k].bookingId == bookingId && rows[k].resourceType == COURT;
          if k < |init| {
            assert init[k] == rows[k];
          }
        }
      }
      n
  }

  function Repeat(b: Booking, n: nat): (r: seq<Booking>)
    ensures |r| == n && forall x :: x in r ==> x == b
  {
    if n == 0 then [] else Repeat(b, n - 1) + [b]
  }

  /** The join on `resources__resource_type='COURT'`: each booking once per COURT row it has. */
  function JoinCourtRows(s: seq<Booking>, rows: seq<BookingResource>): (r: seq<Booking>)
    ensures forall x :: x in r <==> x in s && HasCourtRow(rows, x.id)
  {
    if |s| == 0 then []
    else
      var last := s[|s| - 1];
      JoinCourtRows(s[..|s| - 1], rows) + Repeat(last, CourtRowCount(rows, last.id))
  }

  /**
   * `Booking.objects.filter(date=date, status='CONFIRMED', resources__resource_type='COURT')`,
   * in the default ordering.
   */
  function DayQuery(bookings: seq<Booking>, rows: seq<BookingResource>, date: Date): seq<Booking>
  {
    JoinCourtRows(OrderNewestFirst(ConfirmedOn(bookings, date)), rows)
  }

  /** The query yields the CONFIRMED bookings of the date that have a COURT row. */
  lemma DayQueryMembers(bookings: seq<Booking>, rows: seq<BookingResource>, date: Date)
    ensures forall x :: x in DayQuery(bookings, rows, date) <==>
      x in bookings && x.date == date && x.status == CONFIRMED && HasCourtRow(rows, x.id)
  {
    var confirmed := ConfirmedOn(bookings, date);
    var ordered := OrderNewestFirst(confirmed);
    forall x
      ensures x in ordered <==> x in confirmed
    {
      assert x in ordered <==> x in multiset(ordered);
      assert x in confirmed <==> x in multiset(confirmed);
    }
  }

  // `bookings_by_court`.

  /** What one booking's resource rows append to the list of court `courtId`. */
  function Copies(b: Booking, rs: seq<BookingResource>, courtId: int): (r: seq<Booking>)
    ensures forall x :: x in r ==> x == b
  {
    if |rs| == 0 then []
    else
      var last := rs[|rs| - 1];
      Copies(b, rs[..|rs| - 1], courtId) + (if last.resourceType == COURT && last.resourceId == courtId then [b] else [])
  }

  /** `bookings_by_court[courtId]` after the loop over `day`. */
  function Listed(day: seq<Booking>, rows: seq<BookingResource>, courtId: int): seq<Booking>
  {
    if |day| == 0 then []
    else
      var last := day[|day| - 1];
      Listed(day[..|day| - 1], rows, courtId) + Copies(last, ResourcesOf(rows, last.id), courtId)
  }

  lemma {:induction false} CopiesNonEmpty(b: Booking, rs: seq<BookingResource>, courtId: int)
    ensures Copies(b, rs, courtId) != [] <==> exists k :: 0 <= k < |rs| && rs[k].resourceType == COURT && rs[k].resourceId == courtId
  {
    if |rs| > 0 {
      var init := rs[..|rs| - 1];
      CopiesNonEmpty(b, init, courtId);
      if exists k :: 0 <= k < |init| && init[k].resourceType == COURT && init[k].resourceId == courtId {
        var k :| 0 <= k < |init| && init[k].resourceType == COURT && init[k].resourceId == courtId;
        assert rs[k] == init[k];
      }
      if exists k :: 0 <= k < |rs| && rs[k].resourceType == COURT && rs[k].resourceId == courtId {
        var k :| 0 <= k < |rs| && rs[k].resourceType == COURT && rs[k].resourceId == courtId;
        if k < |init| {
          assert init[k] == rs[k];
        }
      }
    }
  }

  /** A booking's rows reference the court exactly when the booking has a COURT row for it. */
  lemma CopiesIffHasRow(b: Booking, rows: seq<BookingResource>, courtId: int)
    ensures Copies(b, ResourcesOf(rows, b.id), courtId) != [] <==> HasRow(rows, b.id, COURT, courtId)
  {
    var rs := ResourcesOf(rows, b.id);
    var m := RowsFor(rows, b.id, COURT, courtId);
    CopiesNonEmpty(b, rs, courtId);
    if m != [] {
      assert m[0] in m;
      assert m[0] in rs;
      var k :| 0 <= k < |rs| && rs[k] == m[0];
      assert rs[k].resourceType == COURT && rs[k].resourceId == courtId;
    }
    if exists k :: 0 <= k < |rs| && rs[k].resourceType == COURT && rs[k].resourceId == courtId {
      var k :| 0 <= k < |rs| && rs[k].resourceType == COURT && rs[k].resourceId == courtId;
      assert rs[k] in rs;
      assert rs[k] in m;
    }
  }

  /** `bookings_by_court[courtId]` lists exactly the scanned bookings with a COURT row for that court. */
  lemma {:induction false} ListedMembers(day: seq<Booking>, rows: seq<BookingResource>, courtId: int)
    ensures forall x :: x in Listed(day, rows, courtId) <==> x in day && HasRow(rows, x.id, COURT, courtId)
  {
    if |day| > 0 {
      var init := day[..|day| - 1];
      var last := day[|day| - 1];
      ListedMembers(init, rows, courtId);
      CopiesIffHasRow(last, rows, courtId);
      var c := Copies(last, ResourcesOf(rows, last.id), courtId);
      assert Listed(day, rows, courtId) == Listed(init, rows, courtId) + c;
      assert c != [] ==> last in c by {
        if c != [] {
          assert c[0] in c;
        }
      }
      assert day == init + [last];
    }
  }

  /** A COURT row for one particular court is a COURT row. */
  lemma HasRowHasCourtRow(rows: seq<BookingResource>, bookingId: int, courtId: int)
    requires HasRow(rows, bookingId, COURT, courtId)
    ensures HasCourtRow(rows, bookingId)
  {
    var m := RowsFor(rows, bookingId, COURT, courtId);
    assert m[0] in m;
    var k :| 0 <= k < |rows| && rows[k] == m[0];
    assert rows[k].bookingId == bookingId && rows[k].resourceType == COURT;
  }

  /** The bookings the grid shows on court `courtId`. */
  lemma CourtListMembers(bookings: seq<Booking>, rows: seq<BookingResource>, date: Date, courtId: int)
    ensures forall x :: x in Listed(DayQuery(bookings, rows, date), rows, courtId) <==>
      x in bookings && x.date == date && x.status == CONFIRMED && HasRow(rows, x.id, COURT, courtId)
  {
    ListedMembers(DayQuery(bookings, rows, date), rows, courtId);
    DayQueryMembers(bookings, rows, date);
    forall x: Booking | HasRow(rows, x.id, COURT, courtId) {
      HasRowHasCourtRow(rows, x.id, courtId);
    }
  }

  lemma CopiesSnoc(b: Booking, rs: seq<BookingResource>, j: int, courtId: int)
    requires 0 <= j < |rs|
    ensures Copies(b, rs[..j + 1], courtId)
            == Copies(b, rs[..j], courtId) + (if rs[j].resourceType == COURT && rs[j].resourceId == courtId then [b] else [])
  {
    assert rs[..j + 1][..j] == rs[..j];
  }

  lemma ListedSnoc(day: seq<Booking>, rows: seq<BookingResource>, i: int, courtId: int)
    requires 0 <= i < |day|
    ensures Listed(day[..i + 1], rows, courtId) == Listed(day[..i], rows, courtId) + Copies(day[i], ResourcesOf(rows, day[i].id), courtId)
  {
    assert day[..i + 1][..i] == day[..i];
  }

  /** One resource row of the inner loop extends the lists by that row's copy, if any. */
  lemma AppendStep(m0: map<int, seq<Booking>>, before: map<int, seq<Booking>>, after: map<int, seq<Booking>>,
                   b: Booking, rs: seq<BookingResource>, j: int)
    requires 0 <= j < |rs|
    requires before.Keys == m0.Keys
    requires forall courtId :: courtId in before ==> before[courtId] == m0[courtId] + Copies(b, rs[..j], courtId)
    requires after == if rs[j].resourceType == COURT && rs[j].resourceId in before
                      then before[rs[j].resourceId := before[rs[j].resourceId] + [b]] else before
    ensures after.Keys == m0.Keys
    ensures forall courtId :: courtId in after ==> after[courtId] == m0[courtId] + Copies(b, rs[..j + 1], courtId)
  {
    forall courtId | courtId in after
      ensures after[courtId] == m0[courtId] + Copies(b, rs[..j + 1], courtId)
    {
      CopiesSnoc(b, rs, j, courtId);
    }
  }

  /** The inner loop: one booking appended once per COURT row of a court already in the dictionary. */
  method AppendBooking(m0: map<int, seq<Booking>>, b: Booking, rs: seq<BookingResource>)
    returns (m: map<int, seq<Booking>>)
    ensures m.Keys == m0.Keys
    ensures forall courtId :: courtId in m ==> m[courtId] == m0[courtId] + Copies(b, rs, courtId)
  {
    m := m0;
    var j := 0;
    while j < |rs|
      invariant 0 <= j <= |rs|
      invariant m.Keys == m0.Keys
      invariant forall courtId :: courtId in m ==> m[courtId] == m0[courtId] + Copies(b, rs[..j], courtId)
    {
      var r := rs[j];
      ghost var before := m;
      if r.resourceType == COURT && r.resourceId in m {
        m := m[r.resourceId := m[r.resourceId] + [b]];
      }
      AppendStep(m0, before, m, b, rs, j);
      j := j + 1;
    }
    assert rs[..|rs|] == rs;
  }

  /** The dictionary built by the nested loops over the bookings and their resource rows. */
  method BookingsByCourt(courts: seq<Court>, day: seq<Booking>, rows: seq<BookingResource>)
    returns (m: map<int, seq<Booking>>)
    ensures m.Keys == CourtIds(courts)
    ensures forall courtId :: courtId in m ==> m[courtId] == Listed(day, rows, courtId)
  {
    var empty: seq<Booking> := [];
    m := map courtId | courtId in CourtIds(courts) :: empty;
    var i := 0;
    while i < |day|
      invariant 0 <= i <= |day|
      invariant m.Keys == CourtIds(courts)
      invariant forall courtId :: courtId in m ==> m[courtId] == Listed(day[..i], rows, courtId)
    {
      ghost var before := m;
      m := AppendBooking(m, day[i], ResourcesOf(rows, day[i].id));
      forall courtId | courtId in m
        ensures m[courtId] == Listed(day[..i + 1], rows, courtId)
      {
        ListedSnoc(day, rows, i, courtId);
      }
      i := i + 1;
    }
    assert day[..|day|] == day;
  }

  // The scan for the booking covering a slot.

  /** The first booking of the list, in scan order, whose interval contains `t`. */
  function FirstCovering(list: seq<Booking>, t: Time): Option<Booking>
  {
    if |list| == 0 then None
    else if Covers(list[0].startTime, list[0].endTime, t) then Some(list[0])
    else FirstCovering(list[1..], t)
  }

  /** The scan finds the first covering booking of the list, and none when no booking covers `t`. */
  lemma {:induction false} FirstCoveringFacts(list: seq<Booking>, t: Time)
    ensures var r := FirstCovering(list, t);
            && (r.Some? ==> exists k :: 0 <= k < |list| && list[k] == r.value && Covers(list[k].startTime, list[k].endTime, t)
                                       && forall j :: 0 <= j < k ==> !Covers(list[j].startTime, list[j].endTime, t))
            && (r.None? <==> forall b :: b in list ==> !Covers(b.startTime, b.endTime, t))
  {
    if |list| > 0 && !Covers(list[0].startTime, list[0].endTime, t) {
      var tail := list[1..];
      FirstCoveringFacts(tail, t);
      assert list == [list[0]] + tail;
      var r := FirstCovering(tail, t);
      if r.Some? {
        var k :| 0 <= k < |tail| && tail[k] == r.value && Covers(tail[k].startTime, tail[k].endTime, t)
                 && forall j :: 0 <= j < k ==> !Covers(tail[j].startTime, tail[j].endTime, t);
        assert list[k + 1] == r.value;
        forall j | 0 <= j < k + 1
          ensures !Covers(list[j].startTime, list[j].endTime, t)
        {
          if j > 0 {
            assert list[j] == tail[j - 1];
          }
        }
      }
    } else if |list| > 0 {
      assert list[0] in list;
    }
  }

  /** The inner `for booking in court_bookings` loop with its `break`. */
  method FindCovering(list: seq<Booking>, t: Time) returns (found: Option<Booking>)
    ensures found == FirstCovering(list, t)
  {
    found := None;
    var k := 0;
    while k < |list|
      invariant 0 <= k <= |list|
      invariant FirstCovering(list[k..], t) == FirstCovering(list, t)
    {
      if list[k].startTime <= t && list[k].endTime > t {
        assert list[k..][0] == list[k];
        found := Some(list[k]);
        break;
      }
      assert list[k..][1..] == list[k + 1..];
      k := k + 1;
    }
  }

  // The grid.

  /** The price of a one-hour slot of a court: the rules applied to the hourly court price. */
  function SlotPrice(config: PricingConfig, courts: seq<Court>, date: Date, t: Time, courtId: int): real
  {
    RuleAdjustedPrice(GetBasePrice(config.basePrices, COURT_HOUR), config.rules,
                      PriceContext(courts, date, t, SlotEnd(t), Some(courtId)))
  }

  function GridSlot(config: PricingConfig, courts: seq<Court>, list: seq<Booking>, date: Date, t: Time, courtId: int, userId: int): Slot
  {
    var found := FirstCovering(list, t);
    Slot(t, found.Some?, if found.Some? then Some(found.value.id) else None,
         found.Some? && found.value.userId == userId, SlotPrice(config, courts, date, t, courtId))
  }

  function GridSlots(config: PricingConfig, courts: seq<Court>, list: seq<Booking>, date: Date, courtId: int, userId: int): seq<Slot>
  {
    seq(SLOT_COUNT, h requires 0 <= h < SLOT_COUNT => GridSlot(config, courts, list, date, SlotTime(h), courtId, userId))
  }

  function GridRow(catalog: Catalog, config: PricingConfig, day: seq<Booking>, rows: seq<BookingResource>,
                   date: Date, court: Court, userId: int): CourtSlots
  {
    CourtSlots(court.id, court.name, GridSlots(config, catalog.courts, Listed(day, rows, court.id), date, court.id, userId))
  }

  /** The response of the daily availability endpoint for user `userId`. */
  function DailyGrid(catalog: Catalog, config: PricingConfig, bookings: seq<Booking>, rows: seq<BookingResource>,
                     date: Date, userId: int): seq<CourtSlots>
  {
    var courts := ActiveCourts(catalog.courts);
    var day := DayQuery(bookings, rows, date);
    seq(|courts|, i requires 0 <= i < |courts| => GridRow(catalog, config, day, rows, date, courts[i], userId))
  }

  /** One court's slots: the `for slot_time in slots_def` loop. */
  method ComputeSlots(config: PricingConfig, courts: seq<Court>, list: seq<Booking>, date: Date, courtId: int,
                      userId: int, basePrice: real) returns (slots: seq<Slot>)
    requires basePrice == GetBasePrice(config.basePrices, COURT_HOUR)
    ensures slots == GridSlots(config, courts, list, date, courtId, userId)
  {
    slots := [];
    var h := 0;
    while h < SLOT_COUNT
      invariant 0 <= h <= SLOT_COUNT
      invariant |slots| == h
      invariant forall k :: 0 <= k < h ==> slots[k] == GridSlot(config, courts, list, date, SlotTime(k), courtId, userId)
    {
      var t := SlotTime(h);
      var found := FindCovering(list, t);
      var price, applied := ApplyPricingRules(config.rules, basePrice, PriceContext(courts, date, t, SlotEnd(t), Some(courtId)));
      var bookingId := if found.Some? then Some(found.value.id) else None;
      var isUserBooking := if found.Some? then found.value.userId == userId else false;
      slots := slots + [Slot(t, found.Some?, bookingId, isUserBooking, price)];
      h := h + 1;
    }
  }

  /** A list of rows, one per active court and each as `GridRow` builds it, is the grid. */
  lemma GridFromRows(catalog: Catalog, config: PricingConfig, bookings: seq<Booking>, rows: seq<BookingResource>,
                     date: Date, userId: int, result: seq<CourtSlots>)
    requires |result| == |ActiveCourts(catalog.courts)|
    requires forall k :: 0 <= k < |result| ==>
      result[k] == GridRow(catalog, config, DayQuery(bookings, rows, date), rows, date, ActiveCourts(catalog.courts)[k], userId)
    ensures result == DailyGrid(catalog, config, bookings, rows, date, userId)
  {
  }

  /** One court's entry of `result`. */
  method ComputeRow(catalog: Catalog, config: PricingConfig, day: seq<Booking>, rows: seq<BookingResource>,
                    date: Date, court: Court, userId: int, list: seq<Booking>, basePrice: real) returns (row: CourtSlots)
    requires list == Listed(day, rows, court.id)
    requires basePrice == GetBasePrice(config.basePrices, COURT_HOUR)
    ensures row == GridRow(catalog, config, day, rows, date, court, userId)
  {
    var slots := ComputeSlots(config, catalog.courts, list, date, court.id, userId, basePrice);
    row := CourtSlots(court.id, court.name, slots);
  }

  /** The `for court in courts` loop: one row per court, from the dictionary of booking lists. */
  method ComputeRows(catalog: Catalog, config: PricingConfig, day: seq<Booking>, rows: seq<BookingResource>,
                     date: Date, userId: int, courts: seq<Court>, byCourt: map<int, seq<Booking>>, basePrice: real)
    returns (result: seq<CourtSlots>)
    requires forall c :: c in courts ==> c.id in byCourt && byCourt[c.id] == Listed(day, rows, c.id)
    requires basePrice == GetBasePrice(config.basePrices, COURT_HOUR)
    ensures |result| == |courts|
    ensures forall k :: 0 <= k < |courts| ==> result[k] == GridRow(catalog, config, day, rows, date, courts[k], userId)
  {
    result := [];
    var i := 0;
    while i < |courts|
      invariant 0 <= i <= |courts|
      invariant |result| == i
      invariant forall k :: 0 <= k < i ==> result[k] == GridRow(catalog, config, day, rows, date, courts[k], userId)
    {
      var court := courts[i];
      assert court in courts;
      var list := if court.id in byCourt then byCourt[court.id] else [];
      var row := ComputeRow(catalog, config, day, rows, date, court, userId, list, basePrice);
      result := result + [row];
      i := i + 1;
    }
  }

  /** `DailyAvailabilityView.get` for a well-formed date. */
  method DailyAvailability(catalog: Catalog, config: PricingConfig, bookings: seq<Booking>, rows: seq<BookingResource>,
                           date: Date, userId: int) returns (result: seq<CourtSlots>)
    ensures result == DailyGrid(catalog, config, bookings, rows, date, userId)
  {
    var courts := ActiveCourts(catalog.courts);
    var day := DayQuery(bookings, rows, date);
    var byCourt := BookingsByCourt(courts, day, rows);
    var basePrice := GetBasePrice(config.basePrices, COURT_HOUR);
    forall c | c in courts
      ensures c.id in byCourt
    {
      assert c.id in CourtIds(courts);
    }
    result := ComputeRows(catalog, config, day, rows, date, userId, courts, byCourt, basePrice);
    GridFromRows(catalog, config, bookings, rows, date, userId, result);
  }

  // Properties of the grid.

  /** The rows of the grid, one per active court. */
  lemma GridRows(catalog: Catalog, config: PricingConfig, bookings: seq<Booking>, rows: seq<BookingResource>,
                 date: Date, userId: int)
    ensures var g := DailyGrid(catalog, config, bookings, rows, date, userId);
            var courts := ActiveCourts(catalog.courts);
            && |g| == |courts|
            && forall i :: 0 <= i < |g| ==> g[i] == GridRow(catalog, config, DayQuery(bookings, rows, date), rows, date, courts[i], userId)
  {
  }

  /** A grid row carries its court's id and name and the 17 slots 06:00, 07:00, ..., 22:00. */
  lemma GridRowShape(catalog: Catalog, config: PricingConfig, day: seq<Booking>, rows: seq<BookingResource>,
                     date: Date, court: Court, userId: int)
    ensures var row := GridRow(catalog, config, day, rows, date, court, userId);
            && row.id == court.id && row.name == court.name && |row.slots| == 17
            && forall h :: 0 <= h < SLOT_COUNT && h < |row.slots| ==> row.slots[h].time == SlotTime(h)
  {
  }

  /** One row per active court, in table order. */
  lemma GridCourts(catalog: Catalog, config: PricingConfig, bookings: seq<Booking>, rows: seq<BookingResource>,
                   date: Date, userId: int)
    ensures var g := DailyGrid(catalog, config, bookings, rows, date, userId);
            var courts := ActiveCourts(catalog.courts);
            && |g| == |courts|
            && (forall i :: 0 <= i < |g| ==>
                  (courts[i] in catalog.courts && courts[i].isActive && g[i].id == courts[i].id && g[i].name == courts[i].name))
  {
    var courts := ActiveCourts(catalog.courts);
    var day := DayQuery(bookings, rows, date);
    var g := DailyGrid(catalog, config, bookings, rows, date, userId);
    GridRows(catalog, config, bookings, rows, date, userId);
    ActiveCourtsFacts(catalog.courts);
    forall i | 0 <= i < |g|
      ensures courts[i] in catalog.courts && courts[i].isActive && g[i].id == courts[i].id && g[i].name == courts[i].name
    {
      GridRowShape(catalog, config, day, rows, date, courts[i], userId);
      assert courts[i] in courts;
    }
  }

  /** Every active court has a row, under its own id and name. */
  lemma GridListsEveryActiveCourt(catalog: Catalog, config: PricingConfig, bookings: seq<Booking>, rows: seq<BookingResource>,
                                  date: Date, userId: int, c: Court)
    requires c in catalog.courts && c.isActive
    ensures var g := DailyGrid(catalog, config, bookings, rows, date, userId);
            exists i :: 0 <= i < |g| && g[i].id == c.id && g[i].name == c.name
  {
    var courts := ActiveCourts(catalog.courts);
    GridCourts(catalog, config, bookings, rows, date, userId);
    ActiveCourtsFacts(catalog.courts);
    assert c in courts;
    var i :| 0 <= i < |courts| && courts[i] == c;
  }

  /** With the court table in id order, the grid lists the courts in ascending id order. */
  lemma GridAscending(catalog: Catalog, config: PricingConfig, bookings: seq<Booking>, rows: seq<BookingResource>,
                      date: Date, userId: int)
    requires CourtIdsAscending(catalog.courts)
    ensures var g := DailyGrid(catalog, config, bookings, rows, date, userId);
            forall i, j :: 0 <= i < j < |g| ==> g[i].id < g[j].id
  {
    var courts := ActiveCourts(catalog.courts);
    var day := DayQuery(bookings, rows, date);
    var g := DailyGrid(catalog, config, bookings, rows, date, userId);
    GridRows(catalog, config, bookings, rows, date, userId);
    ActiveCourtsFacts(catalog.courts);
    forall i | 0 <= i < |g|
      ensures g[i].id == courts[i].id
    {
      GridRowShape(catalog, config, day, rows, date, courts[i], userId);
    }
  }

  /** Every row has the 17 hourly slots 06:00, 07:00, ..., 22:00, in that order. */
  lemma GridSlotTimes(catalog: Catalog, config: PricingConfig, bookings: seq<Booking>, rows: seq<BookingResource>,
                      date: Date, userId: int)
    ensures var g := DailyGrid(catalog, config, bookings, rows, date, userId);
            && (forall i :: 0 <= i < |g| ==> |g[i].slots| == 17)
            && (forall i, h :: 0 <= i < |g| && 0 <= h < SLOT_COUNT && h < |g[i].slots| ==> g[i].slots[h].time == SlotTime(h))
  {
    var courts := ActiveCourts(catalog.courts);
    var day := DayQuery(bookings, rows, date);
    var g := DailyGrid(catalog, config, bookings, rows, date, userId);
    GridRows(catalog, config, bookings, rows, date, userId);
    forall i | 0 <= i < |g|
      ensures |g[i].slots| == 17
      ensures forall h :: 0 <= h < SLOT_COUNT && h < |g[i].slots| ==> g[i].slots[h].time == SlotTime(h)
    {
      GridRowShape(catalog, config, day, rows, date, courts[i], userId);
    }
  }

  /** A booking occupies a slot of a court. */
  predicate BlocksSlot(b: Booking, rows: seq<BookingResource>, date: Date, courtId: int, t: Time)
  {
    b.status == CONFIRMED && b.date == date && HasRow(rows, b.id, COURT, courtId) && Covers(b.startTime, b.endTime, t)
  }

  /** A slot of the grid is the slot `GridSlot` computes from the court's booking list. */
  lemma GridSlotAt(catalog: Catalog, config: PricingConfig, bookings: seq<Booking>, rows: seq<BookingResource>,
                   date: Date, userId: int, i: int, h: int)
    requires 0 <= i < |DailyGrid(catalog, config, bookings, rows, date, userId)| && 0 <= h < SLOT_COUNT
    ensures var g := DailyGrid(catalog, config, bookings, rows, date, userId);
            var court := ActiveCourts(catalog.courts)[i];
            && g[i].id == court.id && |g[i].slots| == SLOT_COUNT
            && g[i].slots[h] == GridSlot(config, catalog.courts, Listed(DayQuery(bookings, rows, date), rows, court.id),
                                         date, SlotTime(h), court.id, userId)
  {
  }

  /**
   * A slot is booked iff some CONFIRMED booking on that date with a COURT row for the court
   * covers it; a booked slot reports such a booking and whether it is the requester's, a free
   * slot reports no booking and not the requester's.
   */
  lemma SlotBookedIff(catalog: Catalog, config: PricingConfig, bookings: seq<Booking>, rows: seq<BookingResource>,
                      date: Date, userId: int, i: int, h: int)
    requires 0 <= i < |DailyGrid(catalog, config, bookings, rows, date, userId)| && 0 <= h < SLOT_COUNT
    ensures var g := DailyGrid(catalog, config, bookings, rows, date, userId);
            var slot := g[i].slots[h];
            && (slot.isBooked <==> exists k :: 0 <= k < |bookings| && BlocksSlot(bookings[k], rows, date, g[i].id, slot.time))
            && (slot.isBooked ==> exists k :: 0 <= k < |bookings| && BlocksSlot(bookings[k], rows, date, g[i].id, slot.time)
                                   && slot.bookingId == Some(bookings[k].id) && (slot.isUserBooking <==> bookings[k].userId == userId))
            && (!slot.isBooked ==> slot.bookingId.None? && !slot.isUserBooking)
  {
    var g := DailyGrid(catalog, config, bookings, rows, date, userId);
    var court := ActiveCourts(catalog.courts)[i];
    var t := SlotTime(h);
    var list := Listed(DayQuery(bookings, rows, date), rows, court.id);
    GridSlotAt(catalog, config, bookings, rows, date, userId, i, h);
    CourtListMembers(bookings, rows, date, court.id);
    FirstCoveringFacts(list, t);
    var found := FirstCovering(list, t);
    if found.Some? {
      var b := found.value;
      assert b in list;
      var k :| 0 <= k < |bookings| && bookings[k] == b;
      assert BlocksSlot(bookings[k], rows, date, g[i].id, t);
    } else {
      assert forall k :: 0 <= k < |bookings| && BlocksSlot(bookings[k], rows, date, g[i].id, t) ==> bookings[k] in list;
    }
  }

  /** A slot reports the booking the scan found, and whether it is the requester's. */
  lemma GridSlotReports(config: PricingConfig, courts: seq<Court>, list: seq<Booking>, date: Date, t: Time,
                        courtId: int, userId: int, b: Booking)
    requires FirstCovering(list, t) == Some(b)
    ensures var slot := GridSlot(config, courts, list, date, t, courtId, userId);
            slot.isBooked && slot.bookingId == Some(b.id) && (slot.isUserBooking <==> b.userId == userId)
  {
  }

  /** Under the no-double-booking invariant, two bookings blocking the same slot are one booking. */
  lemma OneBlockerPerSlot(bookings: seq<Booking>, rows: seq<BookingResource>, date: Date, courtId: int, t: Time,
                          k: int, k': int)
    requires Exclusive(bookings, rows, COURT)
    requires 0 <= k < |bookings| && 0 <= k' < |bookings|
    requires BlocksSlot(bookings[k], rows, date, courtId, t) && BlocksSlot(bookings[k'], rows, date, courtId, t)
    ensures k == k'
  {
    var lo := if k < k' then k else k';
    var hi := if k < k' then k' else k;
    var first, second := bookings[lo], bookings[hi];
    assert Clash(first, second, rows, COURT, courtId);
  }

  /** Under the no-double-booking invariant, every booking that blocks a slot is the one the slot reports. */
  lemma SlotReportsTheBooking(catalog: Catalog, config: PricingConfig, bookings: seq<Booking>, rows: seq<BookingResource>,
                              date: Date, userId: int, i: int, h: int, k: int)
    requires Exclusive(bookings, rows, COURT)
    requires 0 <= i < |DailyGrid(catalog, config, bookings, rows, date, userId)| && 0 <= h < SLOT_COUNT
    requires 0 <= k < |bookings|
    requires BlocksSlot(bookings[k], rows, date, DailyGrid(catalog, config, bookings, rows, date, userId)[i].id, SlotTime(h))
    ensures var slot := DailyGrid(catalog, config, bookings, rows, date, userId)[i].slots[h];
            slot.bookingId == Some(bookings[k].id) && (slot.isUserBooking <==> bookings[k].userId == userId)
  {
    var court := ActiveCourts(catalog.courts)[i];
    var t := SlotTime(h);
    var list := Listed(DayQuery(bookings, rows, date), rows, court.id);
    GridSlotAt(catalog, config, bookings, rows, date, userId, i, h);
    CourtListMembers(bookings, rows, date, court.id);
    FirstCoveringFacts(list, t);
    assert bookings[k] in list;
    var found := FirstCovering(list, t).value;
    assert found in list;
    var k' :| 0 <= k' < |bookings| && bookings[k'] == found;
    OneBlockerPerSlot(bookings, rows, date, court.id, t, k, k');
    GridSlotReports(config, catalog.courts, list, date, t, court.id, userId, found);
  }

  /**
   * A slot's price is the rules applied to the hourly court price for that hour and court; it
   * does not depend on the bookings, the requester, or whether the slot is booked, and it is
   * never below the hourly price when the configuration is valid.
   */
  lemma SlotPriceIndependentOfBookings(catalog: Catalog, config: PricingConfig,
                                       bookings1: seq<Booking>, rows1: seq<BookingResource>, user1: int,
                                       bookings2: seq<Booking>, rows2: seq<BookingResource>, user2: int,
                                       date: Date, i: int, h: int)
    requires 0 <= i < |DailyGrid(catalog, config, bookings1, rows1, date, user1)| && 0 <= h < SLOT_COUNT
    ensures var g1 := DailyGrid(catalog, config, bookings1, rows1, date, user1);
            var g2 := DailyGrid(catalog, config, bookings2, rows2, date, user2);
            && |g2| == |g1|
            && g2[i].slots[h].price == g1[i].slots[h].price
            && g1[i].slots[h].price == RuleAdjustedPrice(GetBasePrice(config.basePrices, COURT_HOUR), config.rules,
                                         PriceContext(catalog.courts, date, SlotTime(h), SlotTime(h) + 3600, Some(g1[i].id)))
            && (ConfigValid(config) ==> g1[i].slots[h].price >= GetBasePrice(config.basePrices, COURT_HOUR))
  {
    var base := GetBasePrice(config.basePrices, COURT_HOUR);
    var g1 := DailyGrid(catalog, config, bookings1, rows1, date, user1);
    var ctx := PriceContext(catalog.courts, date, SlotTime(h), SlotEnd(SlotTime(h)), Some(g1[i].id));
    assert SlotEnd(SlotTime(h)) == SlotTime(h) + 3600;
    if ConfigValid(config) {
      AdjustedPriceAtLeastBase(base, config.rules, ctx);
    }
  }

  /** The peak-hour rule applies to exactly the 18:00, 19:00 and 20:00 slots. */
  lemma PeakSlots(h: int)
    requires 0 <= h < SLOT_COUNT
    ensures IsPeakHour(SlotTime(h), SlotEnd(SlotTime(h))) <==> 18 <= 6 + h <= 20
  {
  }

  // parse_time.

  /** `%H`: the alternatives `2[0-3]`, `[0-1]\d`, `\d`, tried in that order. */
  function ReadHour(s: string): (r: Option<(nat, string)>)
    ensures r.Some? ==> r.value.0 < 24 && |r.value.1| < |s|
  {
    if |s| >= 2 && s[0] == '2' && '0' <= s[1] <= '3' then Some((20 + DigitValue(s[1]), s[2..]))
    else if |s| >= 2 && (s[0] == '0' || s[0] == '1') && IsDigit(s[1]) then Some((DigitValue(s[0]) * 10 + DigitValue(s[1]), s[2..]))
    else if |s| >= 1 && IsDigit(s[0]) then Some((DigitValue(s[0]), s[1..]))
    else None
  }

  /** `%M`: the alternatives `[0-5]\d`, `\d`. */
  function ReadMinute(s: string): (r: Option<(nat, string)>)
    ensures r.Some? ==> r.value.0 < 60 && |r.value.1| < |s|
  {
    if |s| >= 2 && '0' <= s[0] <= '5' && IsDigit(s[1]) then Some((DigitValue(s[0]) * 10 + DigitValue(s[1]), s[2..]))
    else if |s| >= 1 && IsDigit(s[0]) then Some((DigitValue(s[0]), s[1..]))
    else None
  }

  /** `%S`: the alternatives `6[0-1]`, `[0-5]\d`, `\d`; 60 and 61 match but are not a valid time. */
  function ReadSecond(s: string): (r: Option<(nat, string)>)
    ensures r.Some? ==> r.value.0 < 62 && |r.value.1| < |s|
  {
    if |s| >= 2 && s[0] == '6' && '0' <= s[1] <= '1' then Some((60 + DigitValue(s[1]), s[2..]))
    else if |s| >= 2 && '0' <= s[0] <= '5' && IsDigit(s[1]) then Some((DigitValue(s[0]) * 10 + DigitValue(s[1]), s[2..]))
    else if |s| >= 1 && IsDigit(s[0]) then Some((DigitValue(s[0]), s[1..]))
    else None
  }

  /** `datetime.strptime(s, '%H:%M').time()`; nothing may follow the minutes. */
  function ParseHourMinute(s: string): Option<Time>
  {
    match ReadHour(s)
    case None => None
    case Some((hour, r1)) =>
      if |r1| == 0 || r1[0] != ':' then None
      else
        match ReadMinute(r1[1..])
        case None => None
        case Some((minute, r2)) => if r2 == [] then Some(At(hour, minute, 0)) else None
  }

  /** `datetime.strptime(s, '%H:%M:%S').time()`; nothing may follow the seconds. */
  function ParseHourMinuteSecond(s: string): Option<Time>
  {
    match ReadHour(s)
    case None => None
    case Some((hour, r1)) =>
      if |r1| == 0 || r1[0] != ':' then None
      else
        match ReadMinute(r1[1..])
        case None => None
        case Some((minute, r2)) =>
          if |r2| == 0 || r2[0] != ':' then None
          else
            match ReadSecond(r2[1..])
            case None => None
            case Some((second, r3)) => if r3 == [] && second < 60 then Some(At(hour, minute, second)) else None
  }

  /** `parse_time`: `HH:MM:SS`, else `HH:MM`; `None` is the `ValueError` the view turns into a 400. */
  function ParseTime(s: string): Option<Time>
  {
    match ParseHourMinuteSecond(s)
    case Some(t) => Some(t)
    case None => ParseHourMinute(s)
  }

  /** `time.isoformat()` without microseconds. */
  function TimeText(t: Time): string
  {
    TwoDigits(t / 3600) + ":" + TwoDigits(t % 3600 / 60) + ":" + TwoDigits(t % 60)
  }

  /** `HH:MM`. */
  function HourMinuteText(hour: nat, minute: nat): string
    requires hour < 24 && minute < 60
  {
    TwoDigits(hour) + ":" + TwoDigits(minute)
  }

  lemma DigitCharValues(d: nat)
    requires d < 10
    ensures DigitChar(d) == "0123456789"[d]
  {
  }

  lemma ReadHourTwoDigits(hour: nat, rest: string)
    requires hour < 24
    ensures ReadHour(TwoDigits(hour) + rest) == Some((hour, rest))
  {
    var s := TwoDigits(hour) + rest;
    DigitCharValues(hour / 10);
    DigitCharValues(hour % 10);
    assert s[0] == DigitChar(hour / 10) && s[1] == DigitChar(hour % 10);
    assert s[2..] == rest;
  }

  lemma ReadMinuteTwoDigits(minute: nat, rest: string)
    requires minute < 60
    ensures ReadMinute(TwoDigits(minute) + rest) == Some((minute, rest))
  {
    var s := TwoDigits(minute) + rest;
    DigitCharValues(minute / 10);
    assert s[0] == DigitChar(minute / 10) && s[1] == DigitChar(minute % 10);
    assert s[2..] == rest;
  }

  lemma ReadSecondTwoDigits(second: nat)
    requires second < 60
    ensures ReadSecond(TwoDigits(second)) == Some((second, ""))
  {
    var s := TwoDigits(second);
    DigitCharValues(second / 10);
    assert s[0] == DigitChar(second / 10) && s[1] == DigitChar(second % 10);
    assert s[2..] == "";
  }

  /** The fields of `HH:MM:SS` text read back. */
  lemma ParseFieldsRoundTrip(hour: nat, minute: nat, second: nat)
    requires hour < 24 && minute < 60 && second < 60
    ensures ParseTime(TwoDigits(hour) + ":" + TwoDigits(minute) + ":" + TwoDigits(second)) == Some(At(hour, minute, second))
  {
    var s := TwoDigits(hour) + ":" + TwoDigits(minute) + ":" + TwoDigits(second);
    var r1 := ":" + TwoDigits(minute) + ":" + TwoDigits(second);
    var r2 := ":" + TwoDigits(second);
    assert s == TwoDigits(hour) + r1;
    ReadHourTwoDigits(hour, r1);
    assert r1[1..] == TwoDigits(minute) + r2;
    ReadMinuteTwoDigits(minute, r2);
    ReadSecondTwoDigits(second);
    assert r2[1..] == TwoDigits(second);
  }

  /** A time is the hours, minutes and seconds it divides into. */
  lemma TimeFields(t: Time)
    ensures t / 3600 < 24 && t % 3600 / 60 < 60 && t % 60 < 60
    ensures At(t / 3600, t % 3600 / 60, t % 60) == t
  {
  }

  /** Every time reads back from its `HH:MM:SS` text. */
  lemma ParseTimeRoundTrip(t: Time)
    ensures ParseTime(TimeText(t)) == Some(t)
  {
    TimeFields(t);
    ParseFieldsRoundTrip(t / 3600, t % 3600 / 60, t % 60);
  }

  /** `HH:MM` text, which fails the first format, is accepted by the fallback with zero seconds. */
  lemma ParseTimeFallback(hour: nat, minute: nat)
    requires hour < 24 && minute < 60
    ensures ParseTime(HourMinuteText(hour, minute)) == Some(At(hour, minute, 0))
  {
    var s := HourMinuteText(hour, minute);
    var r1 := ":" + TwoDigits(minute);
    assert s == TwoDigits(hour) + r1;
    ReadHourTwoDigits(hour, r1);
    assert r1[1..] == TwoDigits(minute) + "";
    ReadMinuteTwoDigits(minute, "");
    assert ParseHourMinuteSecond(s) == None;
  }

  /** Single digits are accepted, and either format. */
  lemma ParseTimeAccepts()
    ensures ParseTime("9:5") == Some(At(9, 5, 0))
    ensures ParseTime("18:30:00") == Some(At(18, 30, 0))
  {
    assert ReadHour("9:5") == Some((9, ":5"));
    assert ReadMinute("5") == Some((5, ""));
    assert ReadHour("18:30:00") == Some((18, ":30:00"));
    assert ReadMinute("30:00") == Some((30, ":00"));
    assert ReadSecond("00") == Some((0, ""));
  }

  /** An hour past 23 or a minute past 59 is refused by both formats. */
  lemma ParseTimeRejectsRanges()
    ensures ParseTime("24:00") == None
    ensures ParseTime("10:60") == None
  {
    assert ReadHour("24:00") == Some((2, "4:00"));
    assert ReadHour("10:60") == Some((10, ":60"));
    assert ReadMinute("60") == Some((6, "0"));
  }

  /** A leap second is matched by `%S` but refused as a time, and the `HH:MM` fallback leaves text over. */
  lemma ParseTimeRejectsLeapSecond()
    ensures ParseTime("10:30:60") == None
  {
    assert ReadHour("10:30:60") == Some((10, ":30:60"));
    assert ReadMinute("30:60") == Some((30, ":60"));
    assert ReadSecond("60") == Some((60, ""));
  }

  /** Trailing text, another separator and the empty string are refused. */
  lemma ParseTimeRejectsShape()
    ensures ParseTime("10:30:00Z") == None
    ensures ParseTime("10.30") == None
    ensures ParseTime("") == None
  {
    assert ReadHour("10:30:00Z") == Some((10, ":30:00Z"));
    assert ReadMinute("30:00Z") == Some((30, ":00Z"));
    assert ReadSecond("00Z") == Some((0, "Z"));
    assert ReadHour("10.30") == Some((10, ".30"));
  }
}
